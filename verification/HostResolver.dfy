/** Requests, entries and the end of a host resolver (source/host_resolver.c).

Each host being resolved has an entry with a thread of its own. Requests wait on the entry until its thread
answers them. Entries leave the table when they are purged or idle, finish on their own time, and the last one
to finish cleans up a resolver that has been released. Every section under the resolver's lock or an entry's
lock is one step here; user callbacks are calls made outside the locks.
*/
module HostResolver {
  import opened Basics
  import opened Traces

  type Host = int

  datatype EntryState = Active | ShuttingDown

  /** Where the thread of an entry is: querying the name servers, answering the requests it took, or gone. `Done`
      means the completion callback of the thread has run to its end. */
  datatype Phase = Querying | Answering | Exited | Done

  /** `stoppedAt` is the number of entries launched by the time the thread stopped, 0 before that. */
  datatype Entry = Entry(
    host: Host, state: EntryState, pending: seq<int>, taken: seq<int>, phase: Phase, stoppedAt: nat)

  /** A call of a request's callback, with addresses or with an error. */
  datatype Answer = Answer(request: int, resolved: bool)

  datatype State = State(
    entries: seq<Entry>,          // every entry ever launched
    table: map<Host, nat>,        // host name to entry
    count: int,                   // entries whose completion callback has not finished
    released: bool,
    cleanups: nat,                // how many times the resolver was cleaned up
    accepted: nat,                // requests accepted so far; their numbers are 0 .. accepted - 1
    asked: seq<Host>,             // the host each of them asked for
    handed: seq<int>,             // requests about to be answered by the thread that made them
    answers: seq<Answer>)

  datatype Action =
    | Resolve(host: Host, cached: bool)
    | AnswerCaller(k: nat)
    | Purge
    | PurgeHost(host: Host)
    | Take(e: nat)
    | AnswerTaken(e: nat, resolved: bool)
    | Decide(e: nat, idle: bool)
    | AnswerAbandoned(e: nat)
    | Complete(e: nat)
    | Destroy

  predicate Init(s: State) {
    s == State([], map[], 0, false, 0, 0, [], [], [])
  }

  predicate InPhase(s: State, e: nat, p: Phase) {
    e < |s.entries| && s.entries[e].phase == p
  }

  /** Users call in only while they hold a reference, so not after the release. */
  predicate Enabled(s: State, x: Action) {
    match x
    case Resolve(host, _) => !s.released && (host in s.table ==> s.table[host] < |s.entries|)
    case AnswerCaller(k) => k < |s.handed|
    case Purge => !s.released
    case PurgeHost(_) => !s.released
    case Take(e) => InPhase(s, e, Querying)
    case AnswerTaken(e, _) => InPhase(s, e, Answering) && s.entries[e].taken != []
    case Decide(e, _) => InPhase(s, e, Answering) && s.entries[e].taken == []
    case AnswerAbandoned(e) => InPhase(s, e, Exited) && s.entries[e].pending != []
    case Complete(e) => InPhase(s, e, Exited) && s.entries[e].pending == []
    case Destroy => !s.released && s.handed == []
  }

  /** default_resolve_host: a new entry, an answer from the cache, or one more request waiting on the entry. */
  function AfterResolve(s: State, host: Host, cached: bool): State
    requires host in s.table ==> s.table[host] < |s.entries|
  {
    var id := s.accepted;
    if host !in s.table then
      s.(entries := s.entries + [Entry(host, Active, [id], [], Querying, 0)],
         table := s.table[host := |s.entries|],
         count := s.count + 1,
         accepted := id + 1,
         asked := s.asked + [host])
    else if cached then
      s.(handed := s.handed + [id], accepted := id + 1, asked := s.asked + [host])
    else
      var e := s.table[host];
      s.(entries := s.entries[e := s.entries[e].(pending := s.entries[e].pending + [id])],
         accepted := id + 1,
         asked := s.asked + [host])
  }

  function ShutDown(e: Entry): Entry {
    e.(state := ShuttingDown)
  }

  /** s_clear_default_resolver_entry_table_synced */
  function TableCleared(s: State): (r: State)
    ensures |r.entries| == |s.entries|
  {
    s.(entries := seq(|s.entries|, i requires 0 <= i < |s.entries| =>
                   if InTable(s.table, i) then ShutDown(s.entries[i]) else s.entries[i]),
       table := map[])
  }

  predicate InTable(table: map<Host, nat>, e: nat) {
    exists h :: h in table && table[h] == e
  }

  function AfterPurgeHost(s: State, host: Host): State {
    if host in s.table && s.table[host] < |s.entries| then
      var e := s.table[host];
      s.(entries := s.entries[e := ShutDown(s.entries[e])], table := s.table - {host})
    else s
  }

  /** The end of a pass of the thread: an idle entry without requests is shut down, and a thread that stops takes
      whatever entry the table has for its host name out of the table. */
  function AfterDecide(s: State, e: nat, idle: bool): State
    requires e < |s.entries|
  {
    var entry := s.entries[e];
    if entry.state == ShuttingDown || (entry.pending == [] && idle) then
      s.(entries := s.entries[e := ShutDown(entry).(phase := Exited, stoppedAt := |s.entries|)],
         table := s.table - {entry.host})
    else
      s.(entries := s.entries[e := entry.(phase := Querying)])
  }

  function CleanUpIfLast(s: State): State {
    if s.released && s.count == 0 then s.(cleanups := s.cleanups + 1) else s
  }

  function Next(s: State, x: Action): State
    requires Enabled(s, x)
  {
    match x
    case Resolve(host, cached) => AfterResolve(s, host, cached)
    case AnswerCaller(k) =>
      s.(handed := s.handed[..k] + s.handed[k + 1..], answers := s.answers + [Answer(s.handed[k], true)])
    case Purge => TableCleared(s)
    case PurgeHost(host) => AfterPurgeHost(s, host)
    case Take(e) =>
      s.(entries := s.entries[e := s.entries[e].(pending := [], taken := s.entries[e].pending, phase := Answering)])
    case AnswerTaken(e, resolved) =>
      var t := s.entries[e].taken;
      s.(entries := s.entries[e := s.entries[e].(taken := t[1..])], answers := s.answers + [Answer(t[0], resolved)])
    case Decide(e, idle) => AfterDecide(s, e, idle)
    case AnswerAbandoned(e) =>
      var p := s.entries[e].pending;
      s.(entries := s.entries[e := s.entries[e].(pending := p[1..])], answers := s.answers + [Answer(p[0], false)])
    case Complete(e) =>
      CleanUpIfLast(s.(entries := s.entries[e := s.entries[e].(phase := Done)], count := s.count - 1))
    case Destroy => CleanUpIfLast(TableCleared(s).(released := true))
  }

  ghost predicate Step(s: State, t: State) {
    exists x :: Enabled(s, x) && t == Next(s, x)
  }

  // ----- Where a request is -----

  ghost function Times(q: seq<int>, id: int): nat {
    multiset(q)[id]
  }

  ghost function AnswerTimes(a: seq<Answer>, id: int): nat {
    if a == [] then 0
    else AnswerTimes(a[..|a| - 1], id) + if a[|a| - 1].request == id then 1 else 0
  }

  ghost function HeldBy(e: Entry, id: int): nat {
    Times(e.pending, id) + Times(e.taken, id)
  }

  ghost function Held(entries: seq<Entry>, n: nat, id: int): nat
    requires n <= |entries|
  {
    if n == 0 then 0 else Held(entries, n - 1, id) + HeldBy(entries[n - 1], id)
  }

  /** How many times a request is waiting or was answered. */
  ghost function Places(s: State, id: int): nat {
    Held(s.entries, |s.entries|, id) + Times(s.handed, id) + AnswerTimes(s.answers, id)
  }

  ghost function Unfinished(entries: seq<Entry>, n: nat): nat
    requires n <= |entries|
  {
    if n == 0 then 0 else Unfinished(entries, n - 1) + if entries[n - 1].phase.Done? then 0 else 1
  }

  // ----- Invariant -----

  ghost predicate EachOnce(s: State) {
    forall id :: Places(s, id) == if 0 <= id < s.accepted then 1 else 0
  }

  /** An entry in the table can still be used. */
  predicate TableLive(s: State) {
    forall h :: h in s.table ==>
      && s.table[h] < |s.entries|
      && var e := s.entries[s.table[h]]; e.host == h && e.state == Active && (e.phase.Querying? || e.phase.Answering?)
  }

  predicate TidyEntry(e: Entry) {
    && (!e.phase.Answering? ==> e.taken == [])
    && (e.phase.Done? ==> e.pending == [])
    && (e.phase.Exited? || e.phase.Done? ==> e.state == ShuttingDown)
  }

  predicate Tidy(s: State) {
    forall i :: 0 <= i < |s.entries| ==> TidyEntry(s.entries[i])
  }

  ghost predicate Counted(s: State) {
    && s.count == Unfinished(s.entries, |s.entries|)
    && s.cleanups == (if s.released && s.count == 0 then 1 else 0)
    && (s.released ==> s.handed == [] && s.table == map[])
  }

  ghost predicate Inv(s: State) {
    EachOnce(s) && TableLive(s) && Tidy(s) && Counted(s)
  }

  // ----- Counting -----

  lemma {:induction false} SamePrefix(a: seq<Entry>, b: seq<Entry>, n: nat, id: int)
    requires n <= |a| && n <= |b|
    requires forall i :: 0 <= i < n ==> HeldBy(a[i], id) == HeldBy(b[i], id)
    ensures Held(a, n, id) == Held(b, n, id)
  {
    if n > 0 {
      SamePrefix(a, b, n - 1, id);
    }
  }

  lemma {:induction false} HeldUpdate(entries: seq<Entry>, e: nat, entry: Entry, n: nat, id: int)
    requires e < |entries| && n <= |entries|
    ensures Held(entries[e := entry], n, id) ==
            Held(entries, n, id) + if e < n then HeldBy(entry, id) - HeldBy(entries[e], id) else 0
  {
    if n > 0 {
      HeldUpdate(entries, e, entry, n - 1, id);
    }
  }

  lemma {:induction false} SameUnfinished(a: seq<Entry>, b: seq<Entry>, n: nat)
    requires n <= |a| && n <= |b|
    requires forall i :: 0 <= i < n ==> (a[i].phase.Done? <==> b[i].phase.Done?)
    ensures Unfinished(a, n) == Unfinished(b, n)
  {
    if n > 0 {
      SameUnfinished(a, b, n - 1);
    }
  }

  lemma {:induction false} UnfinishedUpdate(entries: seq<Entry>, e: nat, entry: Entry, n: nat)
    requires e < |entries| && n <= |entries| && entry.phase.Done? && !entries[e].phase.Done?
    ensures Unfinished(entries[e := entry], n) == Unfinished(entries, n) - if e < n then 1 else 0
  {
    if n > 0 {
      UnfinishedUpdate(entries, e, entry, n - 1);
    }
  }

  lemma {:induction false} NoneUnfinished(entries: seq<Entry>, n: nat, i: nat)
    requires i < n <= |entries| && Unfinished(entries, n) == 0
    ensures entries[i].phase.Done?
  {
    if i < n - 1 {
      NoneUnfinished(entries, n - 1, i);
    }
  }

  lemma {:induction false} NothingHeld(entries: seq<Entry>, n: nat, id: int)
    requires n <= |entries| && forall i :: 0 <= i < n ==> entries[i].pending == [] && entries[i].taken == []
    ensures Held(entries, n, id) == 0
  {
    if n > 0 {
      NothingHeld(entries, n - 1, id);
    }
  }

  lemma {:induction false} TimesAt(q: seq<int>, k: nat, id: int)
    requires k < |q|
    ensures Times(q, id) == Times(q[..k] + q[k + 1..], id) + if q[k] == id then 1 else 0
  {
    assert q == q[..k] + ([q[k]] + q[k + 1..]);
  }

  lemma {:induction false} TimesFront(q: seq<int>, id: int)
    requires q != []
    ensures Times(q, id) == Times(q[1..], id) + if q[0] == id then 1 else 0
  {
    TimesAt(q, 0, id);
    assert q[..0] + q[1..] == q[1..];
  }

  lemma {:induction false} AnswerAdded(a: seq<Answer>, x: Answer, id: int)
    ensures AnswerTimes(a + [x], id) == AnswerTimes(a, id) + if x.request == id then 1 else 0
  {
    assert (a + [x])[..|a|] == a;
  }

  // ----- Every step keeps each request in exactly one place -----

  lemma {:induction false} ResolvePlaces(s: State, host: Host, cached: bool, id: int)
    requires host in s.table ==> s.table[host] < |s.entries|
    ensures Places(AfterResolve(s, host, cached), id) == Places(s, id) + if id == s.accepted then 1 else 0
  {
    if host !in s.table {
      SamePrefix(s.entries, AfterResolve(s, host, cached).entries, |s.entries|, id);
    } else if !cached {
      var e := s.table[host];
      HeldUpdate(s.entries, e, s.entries[e].(pending := s.entries[e].pending + [s.accepted]), |s.entries|, id);
    }
  }

  lemma {:induction false} EntryPlaces(s: State, e: nat, entry: Entry, id: int)
    requires e < |s.entries| && HeldBy(entry, id) == HeldBy(s.entries[e], id)
    ensures Held(s.entries[e := entry], |s.entries|, id) == Held(s.entries, |s.entries|, id)
  {
    HeldUpdate(s.entries, e, entry, |s.entries|, id);
  }

  lemma {:induction false} AnswerTakenPlaces(s: State, e: nat, resolved: bool, id: int)
    requires Enabled(s, AnswerTaken(e, resolved))
    ensures Places(Next(s, AnswerTaken(e, resolved)), id) == Places(s, id)
  {
    var t := s.entries[e].taken;
    TimesFront(t, id);
    HeldUpdate(s.entries, e, s.entries[e].(taken := t[1..]), |s.entries|, id);
    AnswerAdded(s.answers, Answer(t[0], resolved), id);
  }

  lemma {:induction false} AnswerAbandonedPlaces(s: State, e: nat, id: int)
    requires Enabled(s, AnswerAbandoned(e))
    ensures Places(Next(s, AnswerAbandoned(e)), id) == Places(s, id)
  {
    var p := s.entries[e].pending;
    TimesFront(p, id);
    HeldUpdate(s.entries, e, s.entries[e].(pending := p[1..]), |s.entries|, id);
    AnswerAdded(s.answers, Answer(p[0], false), id);
  }

  lemma {:induction false} TableClearedPlaces(s: State, id: int)
    ensures Places(TableCleared(s), id) == Places(s, id)
  {
    SamePrefix(s.entries, TableCleared(s).entries, |s.entries|, id);
  }

  lemma {:induction false} DecidePlaces(s: State, e: nat, idle: bool, id: int)
    requires e < |s.entries|
    ensures Places(AfterDecide(s, e, idle), id) == Places(s, id)
  {
    EntryPlaces(s, e, ShutDown(s.entries[e]).(phase := Exited, stoppedAt := |s.entries|), id);
    EntryPlaces(s, e, s.entries[e].(phase := Querying), id);
  }

  lemma {:induction false} OtherPlaces(s: State, x: Action, id: int)
    requires Enabled(s, x) && Tidy(s) && (x.PurgeHost? || x.Take? || x.Complete?)
    ensures Places(Next(s, x), id) == Places(s, id)
  {
    match x
    case PurgeHost(host) =>
      if host in s.table && s.table[host] < |s.entries| {
        EntryPlaces(s, s.table[host], ShutDown(s.entries[s.table[host]]), id);
      }
    case Take(e) =>
      EntryPlaces(s, e, s.entries[e].(pending := [], taken := s.entries[e].pending, phase := Answering), id);
    case Complete(e) => EntryPlaces(s, e, s.entries[e].(phase := Done), id);
  }

  lemma {:induction false} NextPlaces(s: State, x: Action, id: int)
    requires Tidy(s) && Enabled(s, x)
    ensures Places(Next(s, x), id) == Places(s, id) + if x.Resolve? && id == s.accepted then 1 else 0
  {
    match x
    case Resolve(host, cached) => ResolvePlaces(s, host, cached, id);
    case AnswerCaller(k) =>
      TimesAt(s.handed, k, id);
      AnswerAdded(s.answers, Answer(s.handed[k], true), id);
    case Purge => TableClearedPlaces(s, id);
    case Destroy => TableClearedPlaces(s, id);
    case AnswerTaken(e, resolved) => AnswerTakenPlaces(s, e, resolved, id);
    case AnswerAbandoned(e) => AnswerAbandonedPlaces(s, e, id);
    case Decide(e, idle) => DecidePlaces(s, e, idle, id);
    case _ => OtherPlaces(s, x, id);
  }

  lemma {:induction false} StepKeepsEachOnce(s: State, x: Action)
    requires EachOnce(s) && Tidy(s) && Enabled(s, x)
    ensures EachOnce(Next(s, x))
  {
    forall id ensures Places(Next(s, x), id) == if 0 <= id < Next(s, x).accepted then 1 else 0 {
      NextPlaces(s, x, id);
    }
  }

  // ----- The other parts of the invariant -----

  lemma {:induction false} StepKeepsTidy(s: State, x: Action)
    requires Tidy(s) && TableLive(s) && Enabled(s, x)
    ensures Tidy(Next(s, x))
  {
  }

  lemma {:induction false} ResolveKeepsTableLive(s: State, host: Host, cached: bool)
    requires TableLive(s)
    ensures TableLive(AfterResolve(s, host, cached))
  {
  }

  lemma {:induction false} PurgeHostKeepsTableLive(s: State, host: Host)
    requires TableLive(s)
    ensures TableLive(AfterPurgeHost(s, host))
  {
  }

  lemma {:induction false} DecideKeepsTableLive(s: State, e: nat, idle: bool)
    requires TableLive(s) && InPhase(s, e, Answering)
    ensures TableLive(AfterDecide(s, e, idle))
  {
  }

  /** A step of an entry's own thread that does not end it. */
  lemma {:induction false} EntryKeepsTableLive(s: State, e: nat, entry: Entry)
    requires TableLive(s) && e < |s.entries| && entry.host == s.entries[e].host && entry.state == s.entries[e].state
    requires s.entries[e].phase.Querying? || s.entries[e].phase.Answering? ==>
               entry.phase.Querying? || entry.phase.Answering?
    ensures TableLive(s.(entries := s.entries[e := entry]))
  {
  }

  lemma {:induction false} OtherKeepsTableLive(s: State, x: Action)
    requires TableLive(s) && Enabled(s, x) && !x.Resolve? && !x.PurgeHost? && !x.Decide?
    ensures TableLive(Next(s, x))
  {
    if x.Take? || x.AnswerTaken? || x.AnswerAbandoned? || x.Complete? {
      EntryKeepsTableLive(s, x.e, Next(s, x).entries[x.e]);
    }
  }

  lemma {:induction false} StepKeepsTableLive(s: State, x: Action)
    requires TableLive(s) && Enabled(s, x)
    ensures TableLive(Next(s, x))
  {
    match x
    case Resolve(host, cached) => ResolveKeepsTableLive(s, host, cached);
    case PurgeHost(host) => PurgeHostKeepsTableLive(s, host);
    case Decide(e, idle) => DecideKeepsTableLive(s, e, idle);
    case _ => OtherKeepsTableLive(s, x);
  }

  lemma {:induction false} StepKeepsCounted(s: State, x: Action)
    requires Counted(s) && Enabled(s, x)
    ensures Counted(Next(s, x))
  {
    if x.Complete? {
      UnfinishedUpdate(s.entries, x.e, s.entries[x.e].(phase := Done), |s.entries|);
    } else {
      OtherKeepsUnfinished(s, x);
    }
  }

  lemma {:induction false} OtherKeepsUnfinished(s: State, x: Action)
    requires Enabled(s, x) && !x.Complete?
    ensures var t := Next(s, x);
            Unfinished(t.entries, |t.entries|) == Unfinished(s.entries, |s.entries|) + |t.entries| - |s.entries|
  {
    var t := Next(s, x);
    SameUnfinished(s.entries, t.entries, |s.entries|);
    if |t.entries| > |s.entries| {
      assert !t.entries[|s.entries|].phase.Done?;
    }
  }

  lemma {:induction false} StepKeepsInv(s: State, t: State)
    requires Inv(s) && Step(s, t)
    ensures Inv(t)
  {
    var x :| Enabled(s, x) && t == Next(s, x);
    StepKeepsEachOnce(s, x);
    StepKeepsTidy(s, x);
    StepKeepsTableLive(s, x);
    StepKeepsCounted(s, x);
  }

  lemma {:induction false} ReachableInv(s: State)
    requires Reachable(Init, Step, s)
    ensures Inv(s)
  {
    forall t, u | Inv(t) && Step(t, u) ensures Inv(u) {
      StepKeepsInv(t, u);
    }
    ReachableInvariant(Init, Step, Inv, s);
  }

  // ----- Main results -----

  /** No request is answered twice, and only accepted requests are answered. */
  lemma {:induction false} AnsweredAtMostOnce(s: State, id: int)
    requires Reachable(Init, Step, s)
    ensures AnswerTimes(s.answers, id) <= 1
    ensures AnswerTimes(s.answers, id) == 1 ==> 0 <= id < s.accepted
  {
    ReachableInv(s);
    assert Places(s, id) == if 0 <= id < s.accepted then 1 else 0;
  }

  /** The resolver is cleaned up once, exactly when it has been released and every entry has finished; by then
      every request has been answered, once. */
  lemma {:induction false} CleanedUpOnceAllAnswered(s: State, id: int)
    requires Reachable(Init, Step, s)
    ensures s.cleanups <= 1
    ensures s.cleanups == 1 <==> s.released && forall i :: 0 <= i < |s.entries| ==> s.entries[i].phase.Done?
    ensures s.cleanups == 1 && 0 <= id < s.accepted ==> AnswerTimes(s.answers, id) == 1
    ensures s.cleanups == 1 ==> forall x :: !Enabled(s, x)
  {
    ReachableInv(s);
    var n := |s.entries|;
    if s.cleanups == 1 {
      forall i | 0 <= i < n ensures s.entries[i].phase.Done? {
        NoneUnfinished(s.entries, n, i);
      }
      NothingHeld(s.entries, n, id);
      assert Places(s, id) == if 0 <= id < s.accepted then 1 else 0;
    }
    if s.released && forall i :: 0 <= i < n ==> s.entries[i].phase.Done? {
      AllDone(s.entries, n);
    }
  }

  lemma {:induction false} AllDone(entries: seq<Entry>, n: nat)
    requires n <= |entries| && forall i :: 0 <= i < n ==> entries[i].phase.Done?
    ensures Unfinished(entries, n) == 0
  {
    if n > 0 {
      AllDone(entries, n - 1);
    }
  }

  /** What the table offers is alive: its thread will still answer a request put on it now. */
  lemma {:induction false} TableEntriesAreLive(s: State, host: Host)
    requires Reachable(Init, Step, s) && host in s.table
    ensures s.table[host] < |s.entries| && s.entries[s.table[host]].state == Active
    ensures !s.entries[s.table[host]].phase.Exited? && !s.entries[s.table[host]].phase.Done?
    ensures !s.released
  {
    ReachableInv(s);
  }

  /** A purge or the release of the resolver shuts down every entry in the table and empties it. */
  lemma {:induction false} PurgeShutsDownAll(s: State, x: Action, host: Host)
    requires Reachable(Init, Step, s) && Enabled(s, x) && (x.Purge? || x.Destroy?) && host in s.table
    ensures s.table[host] < |s.entries| && Next(s, x).entries[s.table[host]].state == ShuttingDown
    ensures Next(s, x).table == map[] && (Next(s, x).released <==> x.Destroy?)
  {
    ReachableInv(s);
  }

  lemma {:induction false} PurgeHostShutsDownOne(s: State, host: Host)
    requires Reachable(Init, Step, s) && !s.released && host in s.table
    ensures var t := Next(s, PurgeHost(host));
            && s.table[host] < |s.entries| && t.entries[s.table[host]].state == ShuttingDown
            && t.table == s.table - {host}
            && forall i :: 0 <= i < |s.entries| && i != s.table[host] ==> t.entries[i] == s.entries[i]
  {
    ReachableInv(s);
  }

  /** Steps the thread of an entry that shuts down still has to take, at most. */
  function Rank(e: Entry): nat {
    match e.phase
    case Querying => 3 + |e.pending|
    case Answering => 2 + |e.pending| + |e.taken|
    case Exited => 1 + |e.pending|
    case Done => 0
  }

  /** An entry that shuts down takes no more requests: each step of its thread brings it closer to its end, and no other
      step sets it back. */
  lemma {:induction false} ShuttingDownEntryFinishes(s: State, x: Action, e: nat)
    requires Reachable(Init, Step, s) && Enabled(s, x) && e < |s.entries| && s.entries[e].state == ShuttingDown
    ensures var t := Next(s, x);
            && e < |t.entries| && t.entries[e].state == ShuttingDown
            && (if Foreign(x, e) then Rank(t.entries[e]) == Rank(s.entries[e])
                else Rank(t.entries[e]) < Rank(s.entries[e]))
  {
    ReachableInv(s);
    if Foreign(x, e) {
      ShuttingDownEntryIsLeftAlone(s, x, e);
    }
  }

  lemma {:induction false} ShuttingDownEntryIsLeftAlone(s: State, x: Action, e: nat)
    requires TableLive(s) && Enabled(s, x) && e < |s.entries| && s.entries[e].state == ShuttingDown && Foreign(x, e)
    ensures Next(s, x).entries[e] == s.entries[e]
  {
  }

  /** Until it is done its thread always has a next step. */
  lemma {:induction false} EntryIsNeverStuck(s: State, e: nat)
    requires e < |s.entries| && !s.entries[e].phase.Done?
    ensures exists x :: Enabled(s, x) && !Foreign(x, e)
  {
    var entry := s.entries[e];
    var x :=
      match entry.phase
      case Querying => Take(e)
      case Answering => if entry.taken != [] then AnswerTaken(e, true) else Decide(e, true)
      case Exited => if entry.pending != [] then AnswerAbandoned(e) else Complete(e)
      case Done => Purge;
    assert Enabled(s, x) && !Foreign(x, e);
  }

  // ----- How a request is answered -----

  predicate AtHost(s: State, ids: seq<int>, host: Host) {
    forall k :: 0 <= k < |ids| ==> 0 <= ids[k] < |s.asked| && s.asked[ids[k]] == host
  }

  predicate AtHome(s: State) {
    && |s.asked| == s.accepted
    && forall i :: 0 <= i < |s.entries| ==>
         AtHost(s, s.entries[i].pending, s.entries[i].host) && AtHost(s, s.entries[i].taken, s.entries[i].host)
  }

  lemma {:induction false} StaysAtHost(s: State, t: State, ids: seq<int>, host: Host)
    requires AtHost(s, ids, host) && s.asked <= t.asked
    ensures AtHost(t, ids, host)
  {
  }

  lemma {:induction false} ResolveKeepsAtHome(s: State, host: Host, cached: bool)
    requires AtHome(s) && TableLive(s)
    ensures AtHome(AfterResolve(s, host, cached))
  {
    var t := AfterResolve(s, host, cached);
    forall i | 0 <= i < |s.entries|
      ensures AtHost(t, t.entries[i].pending, t.entries[i].host) && AtHost(t, t.entries[i].taken, t.entries[i].host)
    {
      StaysAtHost(s, t, s.entries[i].pending, s.entries[i].host);
      StaysAtHost(s, t, s.entries[i].taken, s.entries[i].host);
    }
  }

  /** `f` is `e` without any new request. */
  predicate NothingNew(e: Entry, f: Entry) {
    && f.host == e.host
    && (f.pending == e.pending || f.pending == [] || (e.pending != [] && f.pending == e.pending[1..]))
    && (f.taken == e.taken || f.taken == e.pending || (e.taken != [] && f.taken == e.taken[1..]))
  }

  lemma {:induction false} OtherAddsNothing(s: State, x: Action, i: nat)
    requires Enabled(s, x) && !x.Resolve? && i < |s.entries|
    ensures var t := Next(s, x);
            |t.entries| == |s.entries| && NothingNew(s.entries[i], t.entries[i])
    ensures Next(s, x).asked == s.asked && Next(s, x).accepted == s.accepted
  {
  }

  lemma {:induction false} FewerAtHost(s: State, ids: seq<int>, host: Host)
    requires AtHost(s, ids, host) && ids != []
    ensures AtHost(s, ids[1..], host)
  {
  }

  lemma {:induction false} NothingNewAtHost(s: State, t: State, e: Entry, f: Entry)
    requires NothingNew(e, f) && t.asked == s.asked && AtHost(s, e.pending, e.host) && AtHost(s, e.taken, e.host)
    ensures AtHost(t, f.pending, f.host) && AtHost(t, f.taken, f.host)
  {
    if e.pending != [] {
      FewerAtHost(s, e.pending, e.host);
    }
    if e.taken != [] {
      FewerAtHost(s, e.taken, e.host);
    }
    StaysAtHost(s, t, f.pending, f.host);
    StaysAtHost(s, t, f.taken, f.host);
  }

  lemma {:induction false} OtherKeepsAtHome(s: State, t: State)
    requires AtHome(s) && |t.entries| == |s.entries| && t.asked == s.asked && t.accepted == s.accepted
    requires forall i :: 0 <= i < |s.entries| ==> NothingNew(s.entries[i], t.entries[i])
    ensures AtHome(t)
  {
    forall i | 0 <= i < |t.entries|
      ensures AtHost(t, t.entries[i].pending, t.entries[i].host) && AtHost(t, t.entries[i].taken, t.entries[i].host)
    {
      NothingNewAtHost(s, t, s.entries[i], t.entries[i]);
    }
  }

  ghost predicate Settled(s: State) {
    TableLive(s) && AtHome(s)
  }

  lemma {:induction false} StepKeepsSettled(s: State, t: State)
    requires Settled(s) && Step(s, t)
    ensures Settled(t)
  {
    var x :| Enabled(s, x) && t == Next(s, x);
    StepKeepsTableLive(s, x);
    if x.Resolve? {
      ResolveKeepsAtHome(s, x.host, x.cached);
    } else {
      assert |t.entries| == |s.entries| && t.asked == s.asked && t.accepted == s.accepted;
      forall i | 0 <= i < |s.entries| ensures NothingNew(s.entries[i], t.entries[i]) {
        OtherAddsNothing(s, x, i);
      }
      OtherKeepsAtHome(s, t);
    }
  }

  /** In every run a request waits only on an entry of the host it asked for. */
  lemma {:induction false} RequestsWaitAtTheirHost(s: State, e: nat, id: int)
    requires Reachable(Init, Step, s) && e < |s.entries| && (id in s.entries[e].pending || id in s.entries[e].taken)
    ensures 0 <= id < s.accepted == |s.asked| && s.asked[id] == s.entries[e].host
  {
    forall t, u | Settled(t) && Step(t, u) ensures Settled(u) {
      StepKeepsSettled(t, u);
    }
    ReachableInvariant(Init, Step, Settled, s);
    assert AtHost(s, s.entries[e].pending, s.entries[e].host) && AtHost(s, s.entries[e].taken, s.entries[e].host);
  }

  /** A new request is answered from the cache, on the calling thread, exactly when the table has an entry for its host
      and that has addresses; otherwise it waits, last in line, on the entry in the table, which is launched if there is
      none. */
  lemma {:induction false} NewRequestGoesWhere(s: State, host: Host, cached: bool)
    requires Reachable(Init, Step, s) && !s.released
    ensures Enabled(s, Resolve(host, cached))
    ensures var t, id := Next(s, Resolve(host, cached)), s.accepted;
            if host in s.table && cached then t.handed == s.handed + [id] && t.entries == s.entries
            else
              && t.handed == s.handed && host in t.table && t.table[host] < |t.entries|
              && (host in s.table ==> t.table == s.table && |t.entries| == |s.entries|)
              && (host !in s.table ==> t.table[host] == |s.entries| == |t.entries| - 1)
              && var line := t.entries[t.table[host]].pending;
              && line != [] && line[|line| - 1] == id
              && (forall i :: 0 <= i < |s.entries| ==>
                    if host in s.table && i == s.table[host] then t.entries[i].pending == s.entries[i].pending + [id]
                    else t.entries[i] == s.entries[i])
  {
    ReachableInv(s);
  }

  /** What an answer says depends on where the request was. One that is answered from the cache, or by a thread whose
      query succeeded, gets addresses; one that is answered by a thread whose query failed, or that its thread left
      behind when it stopped, gets an error. */
  lemma {:induction false} AnswerSaysHowItFared(s: State, x: Action)
    requires Enabled(s, x)
    ensures var t := Next(s, x);
            if x.AnswerCaller? then
              && t.answers == s.answers + [Answer(s.handed[x.k], true)]
            else if x.AnswerTaken? then
              t.answers == s.answers + [Answer(s.entries[x.e].taken[0], x.resolved)]
            else if x.AnswerAbandoned? then
              s.entries[x.e].phase.Exited? && t.answers == s.answers + [Answer(s.entries[x.e].pending[0], false)]
            else t.answers == s.answers
  {
  }

  /** At the end of a pass the thread stops exactly when its entry was shut down or is idle without requests. */
  lemma {:induction false} ThreadStopsExactlyWhen(s: State, e: nat, idle: bool)
    requires Enabled(s, Decide(e, idle))
    ensures var t, entry := Next(s, Decide(e, idle)), s.entries[e];
            && e < |t.entries|
            && (t.entries[e].phase.Exited? <==> entry.state == ShuttingDown || (entry.pending == [] && idle))
            && (t.entries[e].phase.Exited? ==> t.entries[e].state == ShuttingDown && entry.host !in t.table)
            && (!t.entries[e].phase.Exited? ==> t.entries[e] == entry.(phase := Querying) && t.table == s.table)
            && t.entries[e].pending == entry.pending
  {
  }

  // ----- Which live entries are in the table -----

  predicate Listed(s: State, i: nat) {
    i < |s.entries| && s.entries[i].host in s.table && s.table[s.entries[i].host] == i
  }

  /** The thread of entry `x.e` is about to stop. */
  predicate Stops(s: State, x: Action)
    requires Enabled(s, x)
  {
    x.Decide? && (s.entries[x.e].state == ShuttingDown || (s.entries[x.e].pending == [] && x.idle))
  }

  /** A live entry is taken out of the table exactly when the thread of another entry of the same host stops. */
  lemma {:induction false} LiveEntryLeavesTableExactlyWhen(s: State, x: Action, i: nat)
    requires Reachable(Init, Step, s) && Enabled(s, x) && Listed(s, i)
    ensures i < |Next(s, x).entries|
    ensures !Listed(Next(s, x), i) && Next(s, x).entries[i].state == Active <==>
            Stops(s, x) && x.e != i && s.entries[x.e].host == s.entries[i].host
  {
    ReachableInv(s);
  }

  /** No other entry of the host stopped after entry `i` was launched. */
  predicate NoneStoppedSince(s: State, i: nat)
    requires i < |s.entries|
  {
    forall j :: 0 <= j < |s.entries| && j != i && s.entries[j].host == s.entries[i].host ==> s.entries[j].stoppedAt <= i
  }

  predicate ListedUnlessStopped(s: State, i: nat)
    requires i < |s.entries|
  {
    s.entries[i].state == Active ==> (Listed(s, i) <==> NoneStoppedSince(s, i))
  }

  ghost predicate ListOk(s: State) {
    && TableLive(s)
    && (forall i :: 0 <= i < |s.entries| ==> s.entries[i].stoppedAt <= |s.entries|)
    && (forall i :: 0 <= i < |s.entries| ==> ListedUnlessStopped(s, i))
  }

  lemma {:induction false} SameListing(s: State, t: State, i: nat)
    requires ListOk(s) && i < |s.entries| <= |t.entries|
    requires forall j :: 0 <= j < |s.entries| ==>
               t.entries[j].host == s.entries[j].host && t.entries[j].stoppedAt == s.entries[j].stoppedAt
    requires forall j :: |s.entries| <= j < |t.entries| ==> t.entries[j].stoppedAt == 0
    requires t.entries[i].state == Active ==> s.entries[i].state == Active && (Listed(t, i) <==> Listed(s, i))
    ensures ListedUnlessStopped(t, i)
  {
    assert ListedUnlessStopped(s, i);
    assert NoneStoppedSince(t, i) <==> NoneStoppedSince(s, i) by {
      if NoneStoppedSince(t, i) {
        forall j | 0 <= j < |s.entries| && j != i && s.entries[j].host == s.entries[i].host
          ensures s.entries[j].stoppedAt <= i
        {
          assert t.entries[j].host == t.entries[i].host;
        }
      }
    }
  }

  lemma {:induction false} StopListing(s: State, x: Action, i: nat)
    requires ListOk(s) && Enabled(s, x) && Stops(s, x) && i < |s.entries|
    ensures ListedUnlessStopped(Next(s, x), i)
  {
    var t := Next(s, x);
    assert ListedUnlessStopped(s, i);
    if i != x.e && s.entries[i].host == s.entries[x.e].host {
      assert t.entries[x.e].stoppedAt == |s.entries| && t.entries[x.e].host == t.entries[i].host;
    } else if i != x.e {
      assert NoneStoppedSince(t, i) <==> NoneStoppedSince(s, i) by {
        forall j | 0 <= j < |s.entries| && j != x.e ensures t.entries[j] == s.entries[j] {
        }
      }
    }
  }

  lemma {:induction false} OtherListing(s: State, x: Action, i: nat)
    requires ListOk(s) && Enabled(s, x) && !Stops(s, x) && i < |s.entries|
    ensures i < |Next(s, x).entries| && ListedUnlessStopped(Next(s, x), i)
  {
    SameListing(s, Next(s, x), i);
  }

  lemma {:induction false} NewListing(s: State, x: Action)
    requires ListOk(s) && Enabled(s, x) && |s.entries| < |Next(s, x).entries|
    ensures ListedUnlessStopped(Next(s, x), |s.entries|)
  {
    var t := Next(s, x);
    assert forall j :: 0 <= j < |s.entries| ==> t.entries[j] == s.entries[j];
  }

  lemma {:induction false} StepKeepsStops(s: State, x: Action)
    requires ListOk(s) && Enabled(s, x)
    ensures |s.entries| <= |Next(s, x).entries| <= |s.entries| + 1
    ensures forall i :: 0 <= i < |Next(s, x).entries| ==> Next(s, x).entries[i].stoppedAt <= |s.entries|
  {
  }

  lemma {:induction false} StepKeepsList(s: State, t: State)
    requires ListOk(s) && Step(s, t)
    ensures ListOk(t)
  {
    var x :| Enabled(s, x) && t == Next(s, x);
    StepKeepsTableLive(s, x);
    StepKeepsStops(s, x);
    forall i | 0 <= i < |t.entries| ensures ListedUnlessStopped(t, i) {
      if i == |s.entries| {
        NewListing(s, x);
      } else if Stops(s, x) {
        StopListing(s, x, i);
      } else {
        OtherListing(s, x, i);
      }
    }
  }

  /** In every run, a live entry is in the table exactly when no other entry of its host has stopped since it was
      launched. */
  lemma {:induction false} LiveEntryIsListedExactlyWhen(s: State, i: nat)
    requires Reachable(Init, Step, s) && i < |s.entries| && s.entries[i].state == Active
    ensures Listed(s, i) <==> NoneStoppedSince(s, i)
  {
    forall t, u | ListOk(t) && Step(t, u) ensures ListOk(u) {
      StepKeepsList(t, u);
    }
    ReachableInvariant(Init, Step, ListOk, s);
    assert ListedUnlessStopped(s, i);
  }

  /** A purged entry that stops late removes the newer entry of the same host, which stays alive outside the table. */
  lemma {:induction false} LiveEntryMayLeaveTable() returns (s: State)
    ensures Reachable(Init, Step, s) && !s.released && s.table == map[] && |s.entries| == 2
    ensures s.entries[1] == Entry(0, Active, [1], [], Querying, 0)
  {
    var s0 := State([], map[], 0, false, 0, 0, [], [], []);
    assert Init(s0);
    ReachesRefl(Step, s0);
    s := Advance(s0, s0, Resolve(0, false));
    assert s.entries == [Entry(0, Active, [0], [], Querying, 0)];
    s := Advance(s0, s, PurgeHost(0));
    assert s.entries == [Entry(0, ShuttingDown, [0], [], Querying, 0)];
    s := Advance(s0, s, Resolve(0, false));
    assert s.entries == [Entry(0, ShuttingDown, [0], [], Querying, 0), Entry(0, Active, [1], [], Querying, 0)];
    s := Advance(s0, s, Take(0));
    s := Advance(s0, s, AnswerTaken(0, true));
    s := Advance(s0, s, Decide(0, false));
  }

  /** Nor need the entry that stops have been purged: one that is out of the table in this way goes idle, and takes out
      the entry that was launched in its place. */
  lemma {:induction false} IdleEntryMayTakeOutAnother() returns (s: State)
    ensures Reachable(Init, Step, s) && s.table == map[] && |s.entries| == 3
    ensures s.entries[2].state == Active && s.entries[2].phase.Querying?
  {
    var orphaned := LiveEntryMayLeaveTable();
    var s0 :| Init(s0) && Reaches(Step, s0, orphaned);
    s := Advance(s0, orphaned, Resolve(0, false));
    assert s.entries[2].state == Active && s.entries[1] == orphaned.entries[1];
    s := Advance(s0, s, Take(1));
    s := Advance(s0, s, AnswerTaken(1, true));
    s := Advance(s0, s, Decide(1, true));
    assert s.table.Keys == {};
  }

  lemma {:induction false} Advance(s: State, t: State, x: Action) returns (u: State)
    requires Reaches(Step, s, t) && Enabled(t, x)
    ensures Reaches(Step, s, u) && u == Next(t, x)
  {
    u := Next(t, x);
    StepReaches(s, t, x);
  }

  lemma {:induction false} StepReaches(s: State, t: State, x: Action)
    requires Reaches(Step, s, t) && Enabled(t, x)
    ensures Reaches(Step, s, Next(t, x))
  {
    assert Step(t, Next(t, x));
    ReachesStep(Step, s, t, Next(t, x));
  }

  // ----- The functions of the code -----

  /** A step that is not taken by the thread of entry `e`. */
  predicate Foreign(x: Action, e: nat) {
    match x
    case Take(f) => f != e
    case AnswerTaken(f, _) => f != e
    case Decide(f, _) => f != e
    case AnswerAbandoned(f) => f != e
    case Complete(f) => f != e
    case _ => true
  }

  /** Others leave alone what the thread of an entry has taken, and everything about an entry that has exited. */
  predicate Spared(s: State, t: State, e: nat) {
    && e < |s.entries| && e < |t.entries|
    && s.entries[e].taken == t.entries[e].taken && s.entries[e].phase == t.entries[e].phase
    && (s.entries[e].phase.Exited? ==> s.entries[e].pending == t.entries[e].pending)
  }

  lemma {:induction false} ForeignStepSpares(s: State, x: Action, e: nat)
    requires Inv(s) && Enabled(s, x) && Foreign(x, e) && e < |s.entries|
    ensures Spared(s, Next(s, x), e)
  {
  }

  class ResolverImpl {
    var entries: seq<Entry>
    var table: map<Host, nat>
    var count: int
    var released: bool
    var cleanups: nat
    var accepted: nat
    var asked: seq<Host>
    var handed: seq<int>
    var answers: seq<Answer>

    function View(): State
      reads this
    {
      State(entries, table, count, released, cleanups, accepted, asked, handed, answers)
    }

    constructor ()
      ensures Init(View())
    {
      entries, table, count, released := [], map[], 0, false;
      cleanups, accepted, asked, handed, answers := 0, 0, [], [], [];
    }

    /** A step of some other thread. */
    method Act(x: Action)
      requires Enabled(View(), x)
      modifies this
      ensures View() == Next(old(View()), x)
    {
      var t := Next(View(), x);
      entries, table, count, released := t.entries, t.table, t.count, t.released;
      cleanups, accepted, asked, handed, answers := t.cleanups, t.accepted, t.asked, t.handed, t.answers;
    }

    /** What other threads may do while the thread of entry `e` holds no lock. */
    method Others(e: nat)
      requires Inv(View()) && e < |entries|
      modifies this
      ensures Inv(View()) && Reaches(Step, old(View()), View()) && Spared(old(View()), View(), e)
    {
      var budget: nat := *;
      ReachesRefl(Step, View());
      while budget > 0
        invariant Inv(View()) && Reaches(Step, old(View()), View()) && Spared(old(View()), View(), e)
      {
        var x: Action := *;
        if Enabled(View(), x) && Foreign(x, e) {
          ForeignStepSpares(View(), x, e);
          StepTaken(old(View()), View(), x);
          Act(x);
        }
        budget := budget - 1;
      }
    }

    /** s_clear_default_resolver_entry_table_synced: shut down every entry the table refers to, then empty it. */
    method ClearTable()
      modifies this`entries, this`table
      ensures View() == TableCleared(old(View()))
    {
      for e := 0 to |entries|
        invariant table == old(table) && |entries| == |old(entries)|
        invariant forall i :: 0 <= i < |entries| ==>
                    entries[i] == if i < e && InTable(table, i) then ShutDown(old(entries)[i]) else old(entries)[i]
      {
        if InTable(table, e) {
          entries := entries[e := entries[e].(state := ShuttingDown)];
        }
      }
      table := map[];
    }

    /** s_resolver_purge_cache */
    method PurgeCache()
      requires !released
      modifies this`entries, this`table
      ensures View() == Next(old(View()), Purge)
    {
      ClearTable();
    }

    /** s_resolver_purge_host_cache: a host that is not in the table is no error. */
    method PurgeHostCache(host: Host)
      requires TableLive(View()) && !released
      modifies this`entries, this`table
      ensures View() == Next(old(View()), PurgeHost(host))
    {
      if host !in table {
        return;
      }
      var e := table[host];
      entries := entries[e := entries[e].(state := ShuttingDown)];
      table := table - {host};
    }

    /** resolver_destroy: the last reference is gone. */
    method Destroy()
      requires !released && handed == []
      modifies this`entries, this`table, this`released, this`cleanups
      ensures View() == Next(old(View()), Action.Destroy)
    {
      ClearTable();
      released := true;
      if count == 0 {
        cleanups := cleanups + 1;
      }
    }

    /** default_resolve_host under the locks; with cached addresses the calling thread answers afterwards. */
    method ResolveHost(host: Host, cached: bool)
      requires TableLive(View()) && !released
      modifies this`entries, this`table, this`count, this`accepted, this`asked, this`handed
      ensures View() == Next(old(View()), Resolve(host, cached))
    {
      var id := accepted;
      accepted, asked := id + 1, asked + [host];
      if host !in table {
        entries := entries + [Entry(host, Active, [id], [], Querying, 0)];
        table := table[host := |entries| - 1];
        count := count + 1;
        return;
      }
      var e := table[host];
      if cached {
        handed := handed + [id];
        return;
      }
      entries := entries[e := entries[e].(pending := entries[e].pending + [id])];
    }

    /** The thread takes all waiting requests in one go. */
    method TakePending(e: nat)
      requires Enabled(View(), Take(e))
      modifies this`entries
      ensures View() == Next(old(View()), Take(e))
    {
      var entry := entries[e];
      entries := entries[e := entry.(pending := [], taken := entry.pending, phase := Answering)];
    }

    method AnswerFront(e: nat, resolved: bool)
      requires Enabled(View(), AnswerTaken(e, resolved))
      modifies this`entries, this`answers
      ensures View() == Next(old(View()), AnswerTaken(e, resolved))
    {
      var taken := entries[e].taken;
      entries := entries[e := entries[e].(taken := taken[1..])];
      answers := answers + [Answer(taken[0], resolved)];
    }

    /** The loop of aws_host_resolver_thread that answers the requests it took; other threads run in between. */
    method AnswerAll(e: nat, resolved: bool)
      requires Inv(View()) && InPhase(View(), e, Answering)
      modifies this
      ensures Inv(View()) && Reaches(Step, old(View()), View())
      ensures InPhase(View(), e, Answering) && entries[e].taken == []
      ensures AllAnswered(View(), old(entries)[e].taken)
    {
      ghost var all := entries[e].taken;
      ghost var i := 0;
      ReachesRefl(Step, View());
      while entries[e].taken != []
        invariant 0 <= i <= |all| && Inv(View()) && InPhase(View(), e, Answering) && Reaches(Step, old(View()), View())
        invariant entries[e].taken == all[i..] && AllAnswered(View(), all[..i])
        decreases |all| - i
      {
        ghost var before := View();
        Others(e);
        ReachesTrans(Step, old(View()), before, View());
        AnswersStay(before, View(), all[..i]);
        StepTaken(old(View()), View(), AnswerTaken(e, resolved));
        AnsweredOneMore(View(), e, resolved, all, i);
        AnswerFront(e, resolved);
        i := i + 1;
      }
      assert all[..i] == all;
    }

    /** The end of a pass, under both locks. */
    method DecideToGoOn(e: nat, idle: bool) returns (keepGoing: bool)
      requires Enabled(View(), Decide(e, idle))
      modifies this`entries, this`table
      ensures View() == Next(old(View()), Decide(e, idle))
      ensures InPhase(View(), e, if keepGoing then Querying else Exited)
    {
      if entries[e].pending == [] && idle {
        entries := entries[e := entries[e].(state := ShuttingDown)];
      }
      keepGoing := entries[e].state == Active;
      if !keepGoing {
        table := table - {entries[e].host};
        entries := entries[e := entries[e].(stoppedAt := |entries|)];
      }
      entries := entries[e := entries[e].(phase := if keepGoing then Querying else Exited)];
    }

    /** One pass of aws_host_resolver_thread: take the waiting requests, answer each, wait, and decide whether to go
        on. */
    method ThreadPass(e: nat, resolved: bool, idle: bool) returns (keepGoing: bool)
      requires Inv(View()) && InPhase(View(), e, Querying)
      modifies this
      ensures Inv(View()) && Reaches(Step, old(View()), View())
      ensures InPhase(View(), e, if keepGoing then Querying else Exited)
      ensures AllAnswered(View(), old(entries)[e].pending)
    {
      ghost var mine := entries[e].pending;
      ReachesRefl(Step, View());
      StepTaken(View(), View(), Take(e));
      TakePending(e);
      ghost var before := View();
      AnswerAll(e, resolved);
      ReachesTrans(Step, old(View()), before, View());
      before := View();
      Others(e);
      ReachesTrans(Step, old(View()), before, View());
      AnswersStay(before, View(), mine);
      StepTaken(old(View()), View(), Decide(e, idle));
      keepGoing := DecideToGoOn(e, idle);
    }

    method FailFront(e: nat)
      requires Enabled(View(), AnswerAbandoned(e))
      modifies this`entries, this`answers
      ensures View() == Next(old(View()), AnswerAbandoned(e))
    {
      var pending := entries[e].pending;
      entries := entries[e := entries[e].(pending := pending[1..])];
      answers := answers + [Answer(pending[0], false)];
    }

    /** The entry is accounted for; whoever brings the count of a released resolver to zero cleans it up. */
    method CompleteEntry(e: nat)
      requires Enabled(View(), Complete(e))
      modifies this`entries, this`count, this`cleanups
      ensures View() == Next(old(View()), Complete(e))
    {
      entries := entries[e := entries[e].(phase := Done)];
      count := count - 1;
      if released && count == 0 {
        cleanups := cleanups + 1;
      }
    }

    /** s_on_host_entry_shutdown_completion: fail what is still pending, then account for the entry. */
    method OnEntryShutdownCompletion(e: nat)
      requires Inv(View()) && InPhase(View(), e, Exited)
      modifies this
      ensures Inv(View()) && Reaches(Step, old(View()), View()) && InPhase(View(), e, Done)
      ensures released && count == 0 ==> cleanups == 1
    {
      ReachesRefl(Step, View());
      while entries[e].pending != []
        invariant Inv(View()) && Reaches(Step, old(View()), View()) && InPhase(View(), e, Exited)
        decreases |entries[e].pending|
      {
        ghost var before := View();
        Others(e);
        ReachesTrans(Step, old(View()), before, View());
        StepTaken(old(View()), View(), AnswerAbandoned(e));
        FailFront(e);
      }
      StepTaken(old(View()), View(), Complete(e));
      CompleteEntry(e);
    }
  }

  /** One more step of a run. */
  lemma {:induction false} StepTaken(s: State, t: State, x: Action)
    requires Reaches(Step, s, t) && Inv(t) && Enabled(t, x)
    ensures Reaches(Step, s, Next(t, x)) && Inv(Next(t, x))
  {
    StepReaches(s, t, x);
    assert Step(t, Next(t, x));
    StepKeepsInv(t, Next(t, x));
  }

  // ----- Answers are never taken back -----

  ghost predicate AllAnswered(s: State, ids: seq<int>) {
    forall i :: 0 <= i < |ids| ==> AnswerTimes(s.answers, ids[i]) == 1
  }

  ghost predicate AnswersGrow(s: State, t: State) {
    forall id :: AnswerTimes(s.answers, id) <= AnswerTimes(t.answers, id)
  }

  lemma {:induction false} AnswerStays(s: State, x: Action)
    requires Enabled(s, x)
    ensures AnswersGrow(s, Next(s, x))
  {
    forall id ensures AnswerTimes(s.answers, id) <= AnswerTimes(Next(s, x).answers, id) {
      match x
      case AnswerCaller(k) => AnswerAdded(s.answers, Answer(s.handed[k], true), id);
      case AnswerTaken(e, resolved) => AnswerAdded(s.answers, Answer(s.entries[e].taken[0], resolved), id);
      case AnswerAbandoned(e) => AnswerAdded(s.answers, Answer(s.entries[e].pending[0], false), id);
      case _ =>
    }
  }

  lemma {:induction false} AnsweredOneMore(s: State, e: nat, resolved: bool, taken: seq<int>, i: nat)
    requires Inv(s) && Enabled(s, AnswerTaken(e, resolved)) && i < |taken| && AllAnswered(s, taken[..i])
    requires s.entries[e].taken == taken[i..]
    ensures AllAnswered(Next(s, AnswerTaken(e, resolved)), taken[..i + 1])
  {
    var t := Next(s, AnswerTaken(e, resolved));
    StepKeepsEachOnce(s, AnswerTaken(e, resolved));
    AnswerStays(s, AnswerTaken(e, resolved));
    AnswerAdded(s.answers, Answer(taken[i], resolved), taken[i]);
    forall j | 0 <= j < i + 1 ensures AnswerTimes(t.answers, taken[j]) == 1 {
      assert j < i ==> taken[..i][j] == taken[j];
      assert Places(t, taken[j]) <= 1;
    }
  }

  lemma {:induction false} AnswersStay(s: State, t: State, ids: seq<int>)
    requires Reaches(Step, s, t) && Inv(s) && AllAnswered(s, ids)
    ensures Inv(t) && AllAnswered(t, ids)
  {
    forall u, v | Inv(u) && Step(u, v) ensures Inv(v) && AnswersGrow(u, v) {
      StepKeepsInv(u, v);
      var x :| Enabled(u, x) && v == Next(u, x);
      AnswerStays(u, x);
    }
    ReachesBound(Step, Inv, AnswersGrow, s, t);
    Invariance(Step, Inv, s, t);
    forall i | 0 <= i < |ids| ensures AnswerTimes(t.answers, ids[i]) == 1 {
      assert Places(t, ids[i]) <= 1;
    }
  }
}
