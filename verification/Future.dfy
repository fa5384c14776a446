/** Futures (source/future.c): a result or an error is set once, whoever comes first; a callback registered
before or after that is called once; and every result handed over is either moved out or destructed.

The lock-protected sections are single steps. What a thread does with its findings after it lets go of the
lock (call a callback, destruct a result that came too late) is a later step of its own. Every thread inside
such a call holds a reference.
*/
module Future {
  import opened Basics
  import opened Traces

  const ERROR_UNKNOWN: int := 3

  /** A callback runs on the spot, or as a task on an event loop or channel. */
  datatype Kind = Immediate | AsTask

  /** The callbacks accepted, numbered in order: `kinds[c]` is callback `c`. */
  datatype Callbacks = Callbacks(
    kinds: seq<Kind>,
    waiting: Option<nat>,            // registered, waiting for completion
    calling: multiset<nat>,          // taken by a thread that is about to call it
    jobs: multiset<nat>,             // scheduled as a task
    called: seq<nat>)
  {
    /** In how many places callback `id` is. */
    ghost function Places(id: nat): nat {
      (if waiting == Some(id) then 1 else 0) + calling[id] + jobs[id] + multiset(called)[id]
    }
  }

  /** The results handed over, numbered in order. */
  datatype Results = Results(
    count: nat,
    winner: Option<nat>,             // the result that completed the future
    owned: bool,                     // the future still owns it
    destructing: multiset<nat>,      // in the hands of a thread that is about to destruct it
    moved: seq<nat>,
    destructed: seq<nat>)
  {
    /** In how many places result `id` is. */
    ghost function Places(id: nat): nat {
      (if owned && winner == Some(id) then 1 else 0) + destructing[id] + multiset(moved)[id] + multiset(destructed)[id]
    }
  }

  datatype State = State(isDone: bool, errorCode: int, refs: nat, callbacks: Callbacks, results: Results)
  {
    /** Threads in the middle of a call; each holds a reference. */
    function Busy(): nat {
      |callbacks.calling| + |results.destructing|
    }
  }

  datatype Action =
    | SetResult
    | SetError(code: int)
    | Register(kind: Kind, invokeIfDone: bool)
    | Call(callback: nat)
    | RunJob(callback: nat)
    | Destruct(result: nat)
    | MoveOut
    | AcquireRef
    | ReleaseRef

  predicate Init(f: State) {
    f == State(false, 0, 1, Callbacks([], None, multiset{}, multiset{}, []),
               Results(0, None, false, multiset{}, [], []))
  }

  predicate Available(f: State) {
    f.isDone && f.errorCode == 0 && f.results.owned && f.results.winner.Some?
  }

  /** Registering a second callback before completion, or moving out what is not there, aborts the program. */
  predicate Enabled(f: State, a: Action) {
    match a
    case SetResult => f.refs > f.Busy()
    case SetError(_) => f.refs > f.Busy()
    case Register(_, _) => f.refs > f.Busy() && f.callbacks.waiting.None?
    case Call(c) => c in f.callbacks.calling && c < |f.callbacks.kinds|
    case RunJob(c) => c in f.callbacks.jobs
    case Destruct(r) => r in f.results.destructing
    case MoveOut => f.refs > f.Busy() && Available(f)
    case AcquireRef => f.refs > f.Busy()
    case ReleaseRef => f.refs > f.Busy()
  }

  // ----- Callbacks -----

  /** Completion hands a waiting callback to the thread that completed the future. */
  function TakeWaiting(c: Callbacks): Callbacks {
    if c.waiting.Some? then c.(waiting := None, calling := c.calling + multiset{c.waiting.value}) else c
  }

  function Admit(c: Callbacks, kind: Kind, isDone: bool): Callbacks {
    var id := |c.kinds|;
    if isDone then c.(kinds := c.kinds + [kind], calling := c.calling + multiset{id})
    else c.(kinds := c.kinds + [kind], waiting := Some(id))
  }

  function CallOne(c: Callbacks, id: nat): Callbacks
    requires id < |c.kinds|
  {
    if c.kinds[id].Immediate? then c.(calling := c.calling - multiset{id}, called := c.called + [id])
    else c.(calling := c.calling - multiset{id}, jobs := c.jobs + multiset{id})
  }

  function RunOne(c: Callbacks, id: nat): Callbacks {
    c.(jobs := c.jobs - multiset{id}, called := c.called + [id])
  }

  // ----- Results -----

  function Store(r: Results, isDone: bool): Results {
    if isDone then r.(count := r.count + 1, destructing := r.destructing + multiset{r.count})
    else r.(count := r.count + 1, owned := true, winner := Some(r.count))
  }

  function DestructOne(r: Results, id: nat): Results {
    r.(destructing := r.destructing - multiset{id}, destructed := r.destructed + [id])
  }

  function MoveWinner(r: Results): Results
    requires r.winner.Some?
  {
    r.(owned := false, moved := r.moved + [r.winner.value])
  }

  function DestructWinner(r: Results): Results
    requires r.winner.Some?
  {
    r.(owned := false, destructed := r.destructed + [r.winner.value])
  }

  // ----- Steps -----

  function NextSetResult(f: State): State {
    f.(isDone := true,
       callbacks := if f.isDone then f.callbacks else TakeWaiting(f.callbacks),
       results := Store(f.results, f.isDone))
  }

  function NextSetError(f: State, code: int): State {
    if f.isDone then f
    else
      f.(isDone := true, errorCode := if code == 0 then ERROR_UNKNOWN else code, callbacks := TakeWaiting(f.callbacks))
  }

  function NextRegister(f: State, kind: Kind, invokeIfDone: bool): State {
    if f.isDone && !invokeIfDone then f else f.(callbacks := Admit(f.callbacks, kind, f.isDone))
  }

  /** Dropping the last reference destroys the future and the result it still owns. */
  function NextRelease(f: State): State
    requires f.refs > 0
  {
    f.(refs := f.refs - 1, results := if f.refs == 1 && Available(f) then DestructWinner(f.results) else f.results)
  }

  function Next(f: State, a: Action): State
    requires Enabled(f, a)
  {
    match a
    case SetResult => NextSetResult(f)
    case SetError(code) => NextSetError(f, code)
    case Register(kind, invokeIfDone) => NextRegister(f, kind, invokeIfDone)
    case Call(c) => f.(callbacks := CallOne(f.callbacks, c))
    case RunJob(c) => f.(callbacks := RunOne(f.callbacks, c))
    case Destruct(r) => f.(results := DestructOne(f.results, r))
    case MoveOut => f.(results := MoveWinner(f.results))
    case AcquireRef => f.(refs := f.refs + 1)
    case ReleaseRef => NextRelease(f)
  }

  ghost predicate Step(f: State, g: State) {
    exists a :: Enabled(f, a) && g == Next(f, a)
  }

  // ----- The invariant -----

  ghost predicate CallbacksInv(f: State) {
    && OncePer(f.callbacks) && JobsAreTasks(f.callbacks)
    && (f.isDone ==> f.callbacks.waiting.None?)
    && (!f.isDone ==> f.callbacks.calling == multiset{} && f.callbacks.jobs == multiset{} && f.callbacks.called == [])
  }

  predicate JobsAreTasks(c: Callbacks) {
    forall id :: id in c.jobs ==> id < |c.kinds| && c.kinds[id].AsTask?
  }

  ghost predicate ResultsInv(f: State) {
    && OncePerResult(f.results)
    && (f.results.owned ==> f.results.winner.Some?)
    && (f.results.winner.Some? <==> f.isDone && f.errorCode == 0)
    && (!f.isDone ==> f.errorCode == 0)
    && (f.refs == 0 ==> !f.results.owned)
  }

  ghost predicate Inv(f: State) {
    CallbacksInv(f) && ResultsInv(f) && f.Busy() <= f.refs
  }

  ghost predicate OncePer(c: Callbacks) {
    forall id: nat :: c.Places(id) == if id < |c.kinds| then 1 else 0
  }

  ghost predicate OncePerResult(r: Results) {
    forall id: nat :: r.Places(id) == if id < r.count then 1 else 0
  }

  lemma {:induction false} TakeWaitingMoves(c: Callbacks)
    requires OncePer(c)
    ensures OncePer(TakeWaiting(c))
  {
    forall id: nat ensures TakeWaiting(c).Places(id) == c.Places(id) {
    }
  }

  lemma {:induction false} AdmitMoves(c: Callbacks, kind: Kind, isDone: bool)
    requires OncePer(c) && (isDone || c.waiting.None?)
    ensures OncePer(Admit(c, kind, isDone))
  {
    forall id: nat ensures Admit(c, kind, isDone).Places(id) == c.Places(id) + if id == |c.kinds| then 1 else 0 {
    }
  }

  lemma {:induction false} CallMoves(c: Callbacks, x: nat)
    requires OncePer(c)
    ensures x < |c.kinds| && x in c.calling ==> OncePer(CallOne(c, x))
    ensures x in c.jobs ==> OncePer(RunOne(c, x))
  {
    forall id: nat
      ensures x < |c.kinds| && x in c.calling ==> CallOne(c, x).Places(id) == c.Places(id)
      ensures x in c.jobs ==> RunOne(c, x).Places(id) == c.Places(id)
    {
    }
  }

  lemma {:induction false} StoreMoves(r: Results, isDone: bool)
    requires OncePerResult(r) && (isDone || !r.owned)
    ensures OncePerResult(Store(r, isDone))
  {
    forall id: nat ensures Store(r, isDone).Places(id) == r.Places(id) + if id == r.count then 1 else 0 {
    }
  }

  lemma {:induction false} DestructMoves(r: Results, x: nat)
    requires OncePerResult(r) && x in r.destructing
    ensures OncePerResult(DestructOne(r, x))
  {
    forall id: nat ensures DestructOne(r, x).Places(id) == r.Places(id) {
    }
  }

  lemma {:induction false} WinnerMoves(r: Results)
    requires OncePerResult(r) && r.owned && r.winner.Some?
    ensures OncePerResult(MoveWinner(r)) && OncePerResult(DestructWinner(r))
  {
    forall id: nat ensures MoveWinner(r).Places(id) == r.Places(id) && DestructWinner(r).Places(id) == r.Places(id) {
    }
  }

  lemma {:induction false} KeepsCallbacks(f: State, a: Action)
    requires CallbacksInv(f) && Enabled(f, a)
    ensures CallbacksInv(Next(f, a))
  {
    match a {
      case SetResult => TakeWaitingMoves(f.callbacks);
      case SetError(_) => TakeWaitingMoves(f.callbacks);
      case Register(kind, _) => AdmitMoves(f.callbacks, kind, f.isDone);
      case Call(x) => CallMoves(f.callbacks, x);
      case RunJob(x) => CallMoves(f.callbacks, x);
      case _ =>
    }
  }

  lemma {:induction false} KeepsResults(f: State, a: Action)
    requires ResultsInv(f) && Enabled(f, a)
    ensures ResultsInv(Next(f, a))
  {
    match a {
      case SetResult => StoreMoves(f.results, f.isDone);
      case Destruct(x) => DestructMoves(f.results, x);
      case _ =>
        if Available(f) {
          WinnerMoves(f.results);
        }
    }
  }

  lemma TakenOut(m: multiset<nat>, x: nat)
    requires x in m
    ensures |m - multiset{x}| == |m| - 1
  {
    assert m == (m - multiset{x}) + multiset{x};
  }

  lemma {:induction false} CallKeepsCount(f: State, x: nat)
    requires f.Busy() <= f.refs && Enabled(f, Call(x))
    ensures Next(f, Call(x)).Busy() <= f.refs
  {
    TakenOut(f.callbacks.calling, x);
  }

  lemma {:induction false} DestructKeepsCount(f: State, x: nat)
    requires f.Busy() <= f.refs && Enabled(f, Destruct(x))
    ensures Next(f, Destruct(x)).Busy() <= f.refs
  {
    TakenOut(f.results.destructing, x);
  }

  lemma {:induction false} KeepsCount(f: State, a: Action)
    requires f.Busy() <= f.refs && Enabled(f, a) && CallbacksInv(f)
    ensures Next(f, a).Busy() <= Next(f, a).refs
  {
    match a {
      case Call(x) => CallKeepsCount(f, x);
      case Destruct(x) => DestructKeepsCount(f, x);
      case _ =>
    }
  }

  lemma {:induction false} StepKeepsInv(f: State, g: State)
    requires Inv(f) && Step(f, g)
    ensures Inv(g)
  {
    var a :| Enabled(f, a) && g == Next(f, a);
    KeepsCallbacks(f, a);
    KeepsResults(f, a);
    KeepsCount(f, a);
  }

  lemma {:induction false} ReachableInv(f: State)
    requires Reachable(Init, Step, f)
    ensures Inv(f)
  {
    forall s, t | Inv(s) && Step(s, t) ensures Inv(t) {
      StepKeepsInv(s, t);
    }
    ReachableInvariant(Init, Step, Inv, f);
  }

  // ----- What every interleaving keeps -----

  predicate SameOutcome(f: State, g: State) {
    f.isDone ==> g.isDone && g.errorCode == f.errorCode && g.results.winner == f.results.winner
  }

  /** The first completion stands, whatever is set afterwards. */
  lemma {:induction false} FirstCompletionWins(f: State, g: State)
    requires Reachable(Init, Step, f) && Reaches(Step, f, g) && f.isDone
    ensures g.isDone && g.errorCode == f.errorCode && g.results.winner == f.results.winner
  {
    ReachableInv(f);
    forall s, t | Inv(s) && Step(s, t) ensures Inv(t) && SameOutcome(s, t) {
      StepKeepsInv(s, t);
    }
    ReachesBound(Step, Inv, SameOutcome, f, g);
  }

  /** An accepted callback is called at most once and only after completion; once the future is done and no
      thread or task is still on its way to a callback, every accepted one has been called. */
  lemma {:induction false} AcceptedCallbackCalledOnce(f: State, c: nat)
    requires Reachable(Init, Step, f) && c < |f.callbacks.kinds|
    ensures multiset(f.callbacks.called)[c] <= 1
    ensures c in f.callbacks.called ==> f.isDone
    ensures f.isDone && c !in f.callbacks.calling && c !in f.callbacks.jobs ==> multiset(f.callbacks.called)[c] == 1
    ensures !f.isDone ==> f.callbacks.waiting == Some(c)
  {
    ReachableInv(f);
    assert f.callbacks.Places(c) == 1;
  }

  /** Every result handed over is moved out or destructed at most once, never both, and only the one that
      completed the future can be moved out. After the last reference is gone none is left over. */
  lemma {:induction false} ResultDisposedOnce(f: State, r: nat)
    requires Reachable(Init, Step, f) && r < f.results.count
    ensures multiset(f.results.moved)[r] + multiset(f.results.destructed)[r] <= 1
    ensures f.refs == 0 ==> multiset(f.results.moved)[r] + multiset(f.results.destructed)[r] == 1
    ensures f.results.winner != Some(r) && r !in f.results.destructing ==>
      multiset(f.results.moved)[r] + multiset(f.results.destructed)[r] == 1
  {
    ReachableInv(f);
    assert f.results.Places(r) == 1;
  }

  /** The first completion decides the outcome: a result is the winner and there is no error, an error is kept as it is,
      or as an unknown one exactly if it is 0. Later ones change neither, nor does anything else. */
  lemma {:induction false} CompletionDecides(f: State, a: Action)
    requires Reachable(Init, Step, f) && Enabled(f, a)
    ensures var g := Next(f, a);
            && (g.isDone <==> f.isDone || a.SetResult? || a.SetError?)
            && (!f.isDone && a.SetResult? ==> g.errorCode == 0 && g.results.winner == Some(f.results.count))
            && (!f.isDone && a.SetError? ==>
                  g.errorCode == (if a.code == 0 then ERROR_UNKNOWN else a.code) && g.results.winner.None?)
            && (f.isDone || !g.isDone ==> g.errorCode == f.errorCode && g.results.winner == f.results.winner)
            && (g.results.count == f.results.count + if a.SetResult? then 1 else 0)
  {
    ReachableInv(f);
  }

  /** A callback is turned away exactly if the future is done and the caller does not want it called then. An accepted
      one waits until the future is done; it is called on the completing or registering thread if it is meant to be,
      and otherwise by a job of its own. */
  lemma {:induction false} CallbackGoesWhere(f: State, a: Action)
    requires Reachable(Init, Step, f) && Enabled(f, a)
    ensures var c, d, id := f.callbacks, Next(f, a).callbacks, |f.callbacks.kinds|;
            match a {
              case Register(kind, invokeIfDone) =>
                if f.isDone && !invokeIfDone then d == c
                else
                  && d.kinds == c.kinds + [kind] && d.called == c.called && d.jobs == c.jobs
                  && (if f.isDone then d.waiting.None? && id in d.calling else d.waiting == Some(id))
              case Call(x) =>
                if c.kinds[x] == Immediate then d.called == c.called + [x] && d.jobs == c.jobs
                else d.called == c.called && x in d.jobs
              case RunJob(x) => x < |c.kinds| && c.kinds[x] != Immediate && d.called == c.called + [x]
              case _ => d.kinds == c.kinds && d.called == c.called && d.jobs == c.jobs
            }
  {
    ReachableInv(f);
  }

  /** References are counted one by one, and the result the future still owns is destructed exactly with the last. */
  lemma {:induction false} ReferencesAreCounted(f: State, a: Action)
    requires Reachable(Init, Step, f) && Enabled(f, a)
    ensures Next(f, a).refs == f.refs + (if a.AcquireRef? then 1 else if a.ReleaseRef? then -1 else 0)
    ensures a.ReleaseRef? ==>
              Next(f, a).results.destructed ==
              f.results.destructed + if f.refs == 1 && Available(f) then [f.results.winner.value] else []
  {
    ReachableInv(f);
  }

  // ----- The code -----

  class FutureImpl {
    var isDone: bool
    var errorCode: int
    var refs: nat
    var callbacks: Callbacks
    var results: Results

    function View(): State
      reads this
    {
      State(isDone, errorCode, refs, callbacks, results)
    }

    constructor ()
      ensures Init(View())
    {
      isDone, errorCode, refs := false, 0, 1;
      callbacks := Callbacks([], None, multiset{}, multiset{}, []);
      results := Results(0, None, false, multiset{}, [], []);
    }

    method InvokeCallback(c: nat)
      requires c in callbacks.calling && c < |callbacks.kinds|
      modifies this`callbacks
      ensures View() == Next(old(View()), Call(c))
    {
      callbacks := callbacks.(calling := callbacks.calling - multiset{c});
      match callbacks.kinds[c] {
        case Immediate => callbacks := callbacks.(called := callbacks.called + [c]);
        case AsTask => callbacks := callbacks.(jobs := callbacks.jobs + multiset{c});
      }
    }

    /** The critical section of s_future_impl_set_done; a code of 0 stands for a result. */
    method CompleteLocked(code: int) returns (callback: Option<nat>, firstTime: bool, id: nat)
      requires refs > View().Busy()
      modifies this
      ensures View() == Next(old(View()), if code == 0 then SetResult else SetError(code))
      ensures callback == old(callbacks).waiting && firstTime == !old(isDone) && id == old(results).count
    {
      callback := callbacks.waiting;
      firstTime := !isDone;
      id := results.count;
      if code == 0 {
        results := results.(count := id + 1);
      }
      if firstTime {
        isDone := true;
        callbacks := TakeWaiting(callbacks);
        if code != 0 {
          errorCode := code;
        } else {
          results := results.(owned := true, winner := Some(id));
        }
      } else if code == 0 {
        results := results.(destructing := results.destructing + multiset{id});
      }
    }

    /** s_future_impl_set_done */
    method SetDone(code: int)
      requires refs > View().Busy()
      requires callbacks.waiting.Some? ==> callbacks.waiting.value < |callbacks.kinds|
      modifies this
      ensures Reaches(Step, old(View()), View())
      ensures isDone
      ensures old(isDone) ==>
        && callbacks == old(callbacks) && errorCode == old(errorCode) && results.winner == old(results).winner
        && results.destructed == old(results).destructed + if code == 0 then [old(results).count] else []
      ensures !old(isDone) ==>
        && errorCode == (if code == 0 then old(errorCode) else code)
        && (code == 0 ==> results.owned && results.winner == Some(old(results).count))
        && callbacks == (if old(callbacks).waiting.Some?
                         then CallOne(TakeWaiting(old(callbacks)), old(callbacks).waiting.value) else old(callbacks))
    {
      ReachesRefl(Step, View());
      StepReaches(View(), View(), if code == 0 then SetResult else SetError(code));
      var callback, firstTime, id := CompleteLocked(code);
      if firstTime {
        if callback.Some? {
          StepReaches(old(View()), View(), Call(callback.value));
          InvokeCallback(callback.value);
        }
      } else if code == 0 {
        StepReaches(old(View()), View(), Destruct(id));
        results := results.(destructing := results.destructing - multiset{id}, destructed := results.destructed + [id]);
      }
    }

    /** s_future_impl_register_callback; a second callback before completion aborts the program. */
    method RegisterCallback(kind: Kind, invokeIfAlreadyDone: bool) returns (accepted: bool)
      requires refs > View().Busy() && callbacks.waiting.None?
      modifies this
      ensures Reaches(Step, old(View()), View())
      ensures accepted == (!old(isDone) || invokeIfAlreadyDone)
      ensures callbacks.kinds == old(callbacks).kinds + if accepted then [kind] else []
      ensures accepted && !isDone ==> callbacks.waiting == Some(|old(callbacks).kinds|)
      ensures accepted && isDone && kind.Immediate? ==>
                callbacks.called == old(callbacks).called + [|old(callbacks).kinds|]
      ensures isDone == old(isDone) && errorCode == old(errorCode) && results == old(results)
    {
      ReachesRefl(Step, View());
      StepReaches(View(), View(), Register(kind, invokeIfAlreadyDone));
      var id := |callbacks.kinds|;
      var alreadyDone := isDone;
      if !alreadyDone {
        callbacks := callbacks.(kinds := callbacks.kinds + [kind], waiting := Some(id));
      }
      if alreadyDone && invokeIfAlreadyDone {
        callbacks := callbacks.(kinds := callbacks.kinds + [kind], calling := callbacks.calling + multiset{id});
        assert View() == Next(old(View()), Register(kind, invokeIfAlreadyDone));
        StepReaches(old(View()), View(), Call(id));
        InvokeCallback(id);
      }
      accepted := !alreadyDone || invokeIfAlreadyDone;
    }

    method GetResultByMove() returns (result: nat)
      requires refs > View().Busy() && Available(View())
      modifies this`results
      ensures old(results).winner == Some(result) && View() == Next(old(View()), MoveOut)
    {
      result := results.winner.value;
      results := results.(owned := false, moved := results.moved + [result]);
    }

    method Release()
      requires refs > View().Busy() && (results.owned ==> results.winner.Some?)
      modifies this
      ensures View() == Next(old(View()), ReleaseRef)
    {
      refs := refs - 1;
      if refs == 0 && isDone && results.owned && errorCode == 0 {
        results := results.(owned := false, destructed := results.destructed + [results.winner.value]);
      }
    }
  }

  lemma {:induction false} StepReaches(f: State, g: State, a: Action)
    requires Reaches(Step, f, g) && Enabled(g, a)
    ensures Reaches(Step, f, Next(g, a))
  {
    assert Step(g, Next(g, a));
    ReachesStep(Step, f, g, Next(g, a));
  }
}
