/** Read back-pressure of a channel (source/channel.c): each slot has a window of bytes it may still be sent,
and a batch of credit granted by its handler that an update task moves into the window later on.

Next to the two counters the code keeps, every slot carries a ledger: all credit it was granted, how much of
it its left neighbour was told about, how many bytes it was sent, what the saturating additions cut off, and how
things stood at each grant since its batch was last moved. The update task goes through the slots from the right;
handlers run between its turns.
*/
module ChannelWindow {
  import opened Basics
  import opened Traces

  /** A grant, with the window of its slot at that moment and whether an update task was scheduled already. */
  datatype Credit = Credit(amount: Size, window: Size, scheduled: bool)

  datatype SlotWindow = SlotWindow(
    hasHandler: bool,
    window: Size,
    batch: Size,
    granted: nat,         // credit accepted from the handler of this slot
    told: nat,            // credit passed on to the handler on the left
    delivered: nat,       // bytes sent to this slot
    batchLoss: nat,       // credit cut off when the batch saturated
    windowLoss: nat,      // credit cut off when the window saturated
    sweptAt: nat,         // `granted` when the batch was last moved into the window
    grants: seq<Credit>)  // what was granted since then

  datatype Windows = Windows(
    slots: seq<SlotWindow>,
    backPressure: bool,
    live: bool,           // the channel is not shutting down
    updateScheduled: bool,
    threshold: Size,
    running: bool,        // the update task is at work
    next: nat,            // the slot it comes to next; it ends at slot 0
    abandoned: bool)      // an update task was canceled, or stopped by an error that shuts the channel down

  datatype Action =
    | Send(index: nat, length: Size)
    | Increment(index: nat, amount: Size)
    | StartUpdate(ready: bool)
    | Sweep
    | EndUpdate
    | FailUpdate
    | ShuttingDown

  const FRESH_SLOT := SlotWindow(true, 0, 0, 0, 0, 0, 0, 0, 0, [])

  predicate Init(w: Windows) {
    && w.live && !w.updateScheduled && !w.running && !w.abandoned
    && forall i :: 0 <= i < |w.slots| ==> w.slots[i] == FRESH_SLOT.(hasHandler := w.slots[i].hasHandler)
  }

  predicate Enabled(w: Windows, a: Action) {
    match a
    case Send(i, _) => 0 < i < |w.slots| && w.slots[i].hasHandler
    case Increment(i, _) => i < |w.slots|
    case StartUpdate(_) => w.updateScheduled && !w.running && w.slots != []
    case Sweep => w.running && 0 < w.next < |w.slots|
    case EndUpdate => w.running && w.next == 0
    case FailUpdate => w.running
    case ShuttingDown => true
  }

  /** Would the message be let through? */
  predicate Fits(w: Windows, i: nat, length: Size)
    requires i < |w.slots|
  {
    !w.backPressure || w.slots[i].window >= length
  }

  function Receive(s: SlotWindow, length: Size): SlotWindow {
    s.(window := SubWrap(s.window, length), delivered := s.delivered + length)
  }

  function Grant(s: SlotWindow, amount: Size, scheduled: bool): SlotWindow {
    var batch := AddSaturating(s.batch, amount);
    s.(batch := batch, granted := s.granted + amount, batchLoss := s.batchLoss + (s.batch + amount - batch),
       grants := s.grants + [Credit(amount, s.window, scheduled)])
  }

  function Move(s: SlotWindow): SlotWindow {
    var window := AddSaturating(s.window, s.batch);
    s.(window := window, batch := 0, told := s.told + s.batch,
       windowLoss := s.windowLoss + (s.window + s.batch - window), sweptAt := s.granted, grants := [])
  }

  function NextSend(w: Windows, i: nat, length: Size): Windows
    requires i < |w.slots|
  {
    if Fits(w, i, length) then w.(slots := w.slots[i := Receive(w.slots[i], length)]) else w
  }

  /** Credit is batched; a slot whose window is low gets an update task under way. */
  function NextIncrement(w: Windows, i: nat, amount: Size): Windows
    requires i < |w.slots|
  {
    if !w.backPressure || !w.live then w
    else
      w.(slots := w.slots[i := Grant(w.slots[i], amount, w.updateScheduled)],
         updateScheduled := w.updateScheduled || w.slots[i].window <= w.threshold)
  }

  /** The task does its work unless it was canceled or the channel is shutting down. */
  function NextStart(w: Windows, ready: bool): Windows
    requires w.slots != []
  {
    w.(updateScheduled := false, running := ready && w.live, next := |w.slots| - 1,
       abandoned := w.abandoned || !ready)
  }

  /** The slot's batch becomes part of its window if there is a handler on the left to be told. */
  function NextSweep(w: Windows): Windows
    requires 0 < w.next < |w.slots|
  {
    var i := w.next;
    w.(slots := if w.slots[i - 1].hasHandler then w.slots[i := Move(w.slots[i])] else w.slots, next := i - 1)
  }

  function Next(w: Windows, a: Action): Windows
    requires Enabled(w, a)
  {
    match a
    case Send(i, length) => NextSend(w, i, length)
    case Increment(i, amount) => NextIncrement(w, i, amount)
    case StartUpdate(ready) => NextStart(w, ready)
    case Sweep => NextSweep(w)
    case EndUpdate => w.(running := false)
    case FailUpdate => w.(running := false, abandoned := true)
    case ShuttingDown => w.(live := false)
  }

  ghost predicate Step(w: Windows, v: Windows) {
    exists a :: Enabled(w, a) && v == Next(w, a)
  }

  // ----- The ledger -----

  predicate Balanced(s: SlotWindow) {
    && s.granted == s.told + s.batch + s.batchLoss
    && s.told == s.window + s.delivered + s.windowLoss
    && s.granted == s.sweptAt + Total(s.grants) && s.batch == Min(Total(s.grants), SIZE_MAX)
    && (s.granted <= SIZE_MAX ==> s.batchLoss == 0 && s.windowLoss == 0)
  }

  function Total(grants: seq<Credit>): nat {
    if grants == [] then 0 else Total(grants[..|grants| - 1]) + grants[|grants| - 1].amount
  }

  ghost predicate AllBalanced(w: Windows) {
    w.backPressure ==> forall i :: 0 <= i < |w.slots| ==> Balanced(w.slots[i])
  }

  lemma {:induction false} SlotStaysBalanced(s: SlotWindow, n: Size, scheduled: bool)
    requires Balanced(s)
    ensures n <= s.window ==> Balanced(Receive(s, n))
    ensures Balanced(Grant(s, n, scheduled))
    ensures Balanced(Move(s))
  {
    var g := s.grants + [Credit(n, s.window, scheduled)];
    assert g[..|g| - 1] == s.grants;
  }

  predicate Changed(w: Windows, v: Windows, i: nat, s: SlotWindow) {
    i < |w.slots| && v.slots == w.slots[i := s] && v.backPressure == w.backPressure
  }

  lemma {:induction false} BalanceOfOthers(w: Windows, v: Windows, i: nat, s: SlotWindow)
    requires AllBalanced(w) && Changed(w, v, i, s) && (w.backPressure ==> Balanced(s))
    ensures AllBalanced(v)
  {
  }

  lemma {:induction false} SendKeepsBalance(w: Windows, i: nat, length: Size)
    requires AllBalanced(w) && w.backPressure && i < |w.slots|
    ensures AllBalanced(NextSend(w, i, length))
  {
    if Fits(w, i, length) {
      SlotStaysBalanced(w.slots[i], length, false);
      BalanceOfOthers(w, NextSend(w, i, length), i, Receive(w.slots[i], length));
    }
  }

  lemma {:induction false} GrantKeepsBalance(w: Windows, i: nat, amount: Size)
    requires AllBalanced(w) && w.backPressure && i < |w.slots|
    ensures AllBalanced(NextIncrement(w, i, amount))
  {
    if w.live {
      SlotStaysBalanced(w.slots[i], amount, w.updateScheduled);
      BalanceOfOthers(w, NextIncrement(w, i, amount), i, Grant(w.slots[i], amount, w.updateScheduled));
    }
  }

  lemma {:induction false} SweepKeepsBalance(w: Windows)
    requires AllBalanced(w) && w.backPressure && 0 < w.next < |w.slots|
    ensures AllBalanced(NextSweep(w))
  {
    if w.slots[w.next - 1].hasHandler {
      SlotStaysBalanced(w.slots[w.next], 0, false);
      BalanceOfOthers(w, NextSweep(w), w.next, Move(w.slots[w.next]));
    }
  }

  lemma {:induction false} StepKeepsBalance(w: Windows, v: Windows)
    requires AllBalanced(w) && Step(w, v)
    ensures AllBalanced(v)
  {
    var a :| Enabled(w, a) && v == Next(w, a);
    if v.slots != w.slots && w.backPressure {
      match a {
        case Send(i, length) => SendKeepsBalance(w, i, length);
        case Increment(i, amount) => GrantKeepsBalance(w, i, amount);
        case Sweep => SweepKeepsBalance(w);
      }
    }
  }

  lemma {:induction false} ReachableBalance(w: Windows)
    requires Reachable(Init, Step, w)
    ensures AllBalanced(w)
  {
    forall s, t | AllBalanced(s) && Step(s, t) ensures AllBalanced(t) {
      StepKeepsBalance(s, t);
    }
    ReachableInvariant(Init, Step, AllBalanced, w);
  }

  /** With back-pressure on, in every run: no slot is ever sent more than its handler granted, and window,
      pending batch and bytes sent never add up to more than the credit granted, and to exactly that as
      long as no saturating addition has cut anything off. The left neighbour is told of all credit that
      has left the batch, no more and no less. */
  lemma {:induction false} DeliveredWithinCredit(w: Windows, i: nat)
    requires Reachable(Init, Step, w) && w.backPressure && i < |w.slots|
    ensures var s := w.slots[i];
      && s.delivered <= s.granted
      && s.window + s.batch + s.delivered <= s.granted
      && (s.window + s.batch + s.delivered == s.granted <==> s.batchLoss == 0 && s.windowLoss == 0)
      && s.told + s.batch + s.batchLoss == s.granted
  {
    ReachableBalance(w);
    assert Balanced(w.slots[i]);
  }

  /** The pending batch is what was granted since the slot was last swept, cut off at the largest size. */
  lemma {:induction false} BatchIsCreditSinceSweep(w: Windows, i: nat)
    requires Reachable(Init, Step, w) && w.backPressure && i < |w.slots|
    ensures w.slots[i].sweptAt <= w.slots[i].granted
    ensures w.slots[i].batch == Min(w.slots[i].granted - w.slots[i].sweptAt, SIZE_MAX)
  {
    ReachableBalance(w);
    assert Balanced(w.slots[i]);
  }

  // ----- No credit is lost -----

  /** As long as the credit granted to a slot is a size, none of it is ever cut off: window, pending batch and bytes
      sent add up to it. */
  lemma {:induction false} NoCreditIsLost(w: Windows, i: nat)
    requires Reachable(Init, Step, w) && w.backPressure && i < |w.slots| && w.slots[i].granted <= SIZE_MAX
    ensures w.slots[i].window + w.slots[i].batch + w.slots[i].delivered == w.slots[i].granted
    ensures w.slots[i].told == w.slots[i].window + w.slots[i].delivered
  {
    ReachableBalance(w);
    assert Balanced(w.slots[i]);
  }

  function Excess(n: nat): nat {
    if n <= SIZE_MAX then 0 else n - SIZE_MAX
  }

  /** A sweep moves all of a slot's batch to its window if there is a handler on the left to tell, and nothing else.
      What is cut off is what goes beyond the largest size, no more. */
  lemma {:induction false} SweepMovesWholeBatch(w: Windows)
    requires Enabled(w, Sweep)
    ensures var i, v := w.next, Next(w, Sweep); var s := w.slots[i];
            if w.slots[i - 1].hasHandler then
              && |v.slots| == |w.slots| && v.slots == w.slots[i := v.slots[i]]
              && v.slots[i].window == s.window + s.batch - Excess(s.window + s.batch) && v.slots[i].batch == 0
              && v.slots[i].told == s.told + s.batch
              && v.slots[i].granted == s.granted && v.slots[i].delivered == s.delivered
              && v.slots[i].windowLoss == s.windowLoss + Excess(s.window + s.batch)
              && v.slots[i].batchLoss == s.batchLoss
            else v.slots == w.slots
  {
  }

  /** While the channel goes on with back-pressure, a grant joins the slot's batch, whole as long as that is a size. */
  lemma {:induction false} GrantJoinsBatch(w: Windows, i: nat, amount: Size)
    requires Enabled(w, Increment(i, amount))
    ensures var v := Next(w, Increment(i, amount)); var s := w.slots[i];
            if w.backPressure && w.live then
              && |v.slots| == |w.slots| && v.slots == w.slots[i := v.slots[i]]
              && v.slots[i].batch == s.batch + amount - Excess(s.batch + amount) && v.slots[i].window == s.window
              && v.slots[i].told == s.told
              && v.slots[i].granted == s.granted + amount && v.slots[i].delivered == s.delivered
              && v.slots[i].batchLoss == s.batchLoss + Excess(s.batch + amount)
              && v.slots[i].windowLoss == s.windowLoss
            else v.slots == w.slots
  {
  }

  /** With back-pressure a message gets through exactly when the window covers it, and takes its length from it. */
  lemma {:induction false} MessageTakesItsLength(w: Windows, i: nat, length: Size)
    requires Enabled(w, Send(i, length)) && w.backPressure
    ensures var v := Next(w, Send(i, length)); var s := w.slots[i];
            if length <= s.window then
              && |v.slots| == |w.slots| && v.slots == w.slots[i := v.slots[i]]
              && v.slots[i].window == s.window - length && v.slots[i].batch == s.batch && v.slots[i].told == s.told
              && v.slots[i].granted == s.granted && v.slots[i].delivered == s.delivered + length
              && v.slots[i].windowLoss == s.windowLoss && v.slots[i].batchLoss == s.batchLoss
            else v == w
  {
  }

  /** An update gets scheduled by a grant to a slot whose window is at most the threshold, on a channel that goes on
      with back-pressure, and by nothing else; a scheduled one that is run starts at the last slot exactly when it was
      not canceled and the channel goes on, and runs until it has come to the first slot or fails. */
  lemma {:induction false} UpdateIsScheduledExactlyWhen(w: Windows, a: Action)
    requires Enabled(w, a)
    ensures !w.updateScheduled ==>
              (Next(w, a).updateScheduled <==>
                 a.Increment? && w.backPressure && w.live && w.slots[a.index].window <= w.threshold)
    ensures w.updateScheduled ==> (Next(w, a).updateScheduled <==> !a.StartUpdate?)
    ensures !w.running ==> (Next(w, a).running <==> a == StartUpdate(true) && w.live)
    ensures w.running ==> (Next(w, a).running <==> !a.EndUpdate? && !a.FailUpdate?)
    ensures Next(w, a).live <==> w.live && !a.ShuttingDown?
    ensures a.StartUpdate? && Next(w, a).running ==> Next(w, a).next == |w.slots| - 1
    ensures w.running && Next(w, a).running ==> Next(w, a).next == w.next - if a.Sweep? then 1 else 0
  {
  }

  // ----- When credit is left waiting -----

  /** The update task moves the batch of a slot only if there is a handler on its left. */
  predicate IsSwept(w: Windows, i: nat) {
    0 < i < |w.slots| && w.slots[i - 1].hasHandler
  }

  /** An update task that will come to slot `i` is scheduled or at work. */
  predicate UpdateOnItsWay(w: Windows, i: nat) {
    w.updateScheduled || (w.running && i <= w.next)
  }

  predicate CameHigh(w: Windows, c: Credit) {
    c.window > w.threshold && !c.scheduled
  }

  predicate AllCameHigh(w: Windows, grants: seq<Credit>) {
    forall k :: 0 <= k < |grants| ==> CameHigh(w, grants[k])
  }

  predicate Attended(w: Windows, i: nat)
    requires i < |w.slots|
  {
    IsSwept(w, i) ==> AllCameHigh(w, w.slots[i].grants) || UpdateOnItsWay(w, i)
  }

  ghost predicate AllAttended(w: Windows) {
    w.live && !w.abandoned ==> forall i :: 0 <= i < |w.slots| ==> Attended(w, i)
  }

  lemma {:induction false} SlotStaysAttended(w: Windows, a: Action, i: nat)
    requires Enabled(w, a) && i < |w.slots| && Attended(w, i)
    ensures var v := Next(w, a); v.live && !v.abandoned ==> i < |v.slots| && Attended(v, i)
  {
  }

  lemma {:induction false} StepKeepsAttended(w: Windows, v: Windows)
    requires AllAttended(w) && Step(w, v)
    ensures AllAttended(v)
  {
    var a :| Enabled(w, a) && v == Next(w, a);
    if v.live && !v.abandoned {
      forall i | 0 <= i < |v.slots| ensures Attended(v, i) {
        SlotStaysAttended(w, a, i);
      }
    }
  }

  lemma {:induction false} ReachableAttended(w: Windows)
    requires Reachable(Init, Step, w)
    ensures AllAttended(w)
  {
    forall s, t | AllAttended(s) && Step(s, t) ensures AllAttended(t) {
      StepKeepsAttended(s, t);
    }
    ReachableInvariant(Init, Step, AllAttended, w);
  }

  predicate GrantedSomething(grants: seq<Credit>) {
    exists k :: 0 <= k < |grants| && grants[k].amount > 0
  }

  lemma {:induction false} TotalIsZeroExactlyWhen(grants: seq<Credit>)
    ensures Total(grants) > 0 <==> GrantedSomething(grants)
  {
    if grants != [] {
      var front := grants[..|grants| - 1];
      TotalIsZeroExactlyWhen(front);
      assert forall k :: 0 <= k < |front| ==> front[k] == grants[k];
      if Total(grants) > 0 && Total(front) > 0 {
        var k :| 0 <= k < |front| && front[k].amount > 0;
        assert grants[k].amount > 0;
      }
    }
  }

  /** When no update is scheduled or at work and the channel goes on, a slot has credit pending exactly when it was
      granted some since its last sweep, and all of that was granted while its window was above the threshold and no
      update was scheduled. So credit granted to a slot whose window is low never waits. */
  lemma {:induction false} CreditWaitsExactlyWhen(w: Windows, i: nat)
    requires Reachable(Init, Step, w) && w.backPressure && IsSwept(w, i)
    ensures w.slots[i].batch > 0 <==> GrantedSomething(w.slots[i].grants)
    ensures w.live && !w.abandoned && !w.updateScheduled && !w.running ==> AllCameHigh(w, w.slots[i].grants)
  {
    ReachableBalance(w);
    ReachableAttended(w);
    assert Balanced(w.slots[i]);
    TotalIsZeroExactlyWhen(w.slots[i].grants);
    if w.live && !w.abandoned {
      assert Attended(w, i);
    }
  }

  lemma {:induction false} StepReaches(w: Windows, u: Windows, a: Action)
    requires Reaches(Step, w, u) && Enabled(u, a)
    ensures Reaches(Step, w, Next(u, a))
  {
    assert Step(u, Next(u, a));
    ReachesStep(Step, w, u, Next(u, a));
  }

  /** `w` after `a`, with the proof that it can be reached. */
  lemma {:induction false} Take(w: Windows, a: Action) returns (v: Windows)
    requires Reachable(Init, Step, w) && Enabled(w, a)
    ensures v == Next(w, a) && Reachable(Init, Step, v)
  {
    v := Next(w, a);
    assert Step(w, v);
    ReachableStep(Init, Step, w, v);
  }

  /** A live channel with back-pressure and handlers everywhere, of whose slots only the last one matters. */
  ghost predicate Shows(w: Windows, k: nat, last: SlotWindow) {
    && Reachable(Init, Step, w) && w.live && w.backPressure && !w.abandoned && w.threshold == 32768
    && |w.slots| == k > 1 && w.slots[k - 1] == last
    && forall i :: 0 <= i < k ==> w.slots[i].hasHandler
  }

  lemma {:induction false} Start(k: nat) returns (w: Windows)
    requires k > 1
    ensures Shows(w, k, FRESH_SLOT) && !w.updateScheduled && !w.running
  {
    w := Windows(seq(k, _ => FRESH_SLOT), true, true, false, 32768, false, 0, false);
    ReachesRefl(Step, w);
  }

  /** The last slot is granted `n` bytes. */
  lemma {:induction false} GrantLast(w: Windows, k: nat, s: SlotWindow, n: Size) returns (v: Windows)
    requires Shows(w, k, s) && !w.updateScheduled
    ensures Shows(v, k, Grant(s, n, false)) && v.running == w.running && v.next == w.next
    ensures v.updateScheduled == (s.window <= 32768)
  {
    v := Take(w, Increment(k - 1, n));
  }

  /** An update starts and sweeps the last slot. */
  lemma {:induction false} SweepLast(w: Windows, k: nat, s: SlotWindow) returns (v: Windows)
    requires Shows(w, k, s) && w.updateScheduled && !w.running
    ensures Shows(v, k, Move(s)) && v.running && v.next == k - 2 && !v.updateScheduled
  {
    v := Take(w, StartUpdate(true));
    assert Shows(v, k, s);
    v := Take(v, Sweep);
  }

  lemma {:induction false} GrantedThenMoved(s: SlotWindow)
    requires s == Move(Grant(FRESH_SLOT, 65536, false))
    ensures s.window == s.sweptAt == 65536 && s.batch == 0 && s.hasHandler
  {
  }

  lemma {:induction false} LastSlotGranted(k: nat) returns (w: Windows)
    requires k > 1
    ensures Shows(w, k, Grant(FRESH_SLOT, 65536, false)) && w.updateScheduled && !w.running
  {
    w := Start(k);
    w := GrantLast(w, k, FRESH_SLOT, 65536);
  }

  /** The last slot has been granted 65536 bytes and swept; the update is still under way. */
  lemma {:induction false} LastSlotSwept(k: nat) returns (w: Windows, s: SlotWindow)
    requires k > 1
    ensures Shows(w, k, s) && w.running && w.next == k - 2 && !w.updateScheduled
    ensures s.window == s.sweptAt == 65536 && s.batch == 0
  {
    w := LastSlotGranted(k);
    w := SweepLast(w, k, Grant(FRESH_SLOT, 65536, false));
    s := Move(Grant(FRESH_SLOT, 65536, false));
    GrantedThenMoved(s);
  }

  /** An increment gets an update task under way only if the window is low at that moment. Credit
      batched while the window was high is not moved when the window runs low later on: here 10 bytes of
      credit are pending, the window is used up, and no update task is scheduled. */
  lemma {:induction false} PendingCreditMayWaitForNextIncrement() returns (w: Windows)
    ensures Reachable(Init, Step, w) && w.live && w.backPressure && !w.abandoned && !w.running
    ensures |w.slots| == 2 && w.slots[1].window == 0 && w.slots[1].batch == 10 && !w.updateScheduled
  {
    var s;
    w, s := LastSlotSwept(2);
    w := Take(w, EndUpdate);
    w := GrantLast(w, 2, s, 10);
    w := Take(w, Send(1, 65536));
  }

  /** A handler that grants credit to a slot the update task has already passed leaves it in the batch: the task runs
      to its end, nothing is scheduled, and 10 bytes of credit are pending. */
  lemma {:induction false} GrantBehindSweepStays() returns (w: Windows)
    ensures Reachable(Init, Step, w) && w.live && w.backPressure && !w.abandoned && !w.running && !w.updateScheduled
    ensures |w.slots| == 3 && w.slots[2].batch == 10 && w.slots[2].sweptAt == 65536
  {
    var s;
    w, s := LastSlotSwept(3);
    w := GrantLast(w, 3, s, 10);
    w := Take(w, Sweep);
    w := Take(w, EndUpdate);
  }

  // ----- The code -----

  predicate SameShape(w: Windows, v: Windows) {
    && |v.slots| == |w.slots| && v.backPressure == w.backPressure && v.threshold == w.threshold
    && forall i :: 0 <= i < |w.slots| ==>
      && v.slots[i].hasHandler == w.slots[i].hasHandler
      && w.slots[i].granted <= v.slots[i].granted
  }

  /** What a handler that grants credit only to slots below `m` leaves alone. */
  predicate HandlerLeaves(w: Windows, v: Windows, m: nat) {
    && SameShape(w, v) && v.running == w.running && v.next == w.next
    && (forall i :: 0 <= i < |v.slots| ==> v.slots[i].sweptAt == w.slots[i].sweptAt)
    && (forall i :: m <= i < |v.slots| ==> v.slots[i].granted == w.slots[i].granted)
  }

  class WindowChannel {
    var slots: seq<SlotWindow>
    var backPressure: bool
    var live: bool
    var updateScheduled: bool
    var threshold: Size
    ghost var running: bool
    ghost var next: nat
    ghost var abandoned: bool

    ghost function View(): Windows
      reads this
    {
      Windows(slots, backPressure, live, updateScheduled, threshold, running, next, abandoned)
    }

    /** aws_channel_slot_send_message in the read direction: `ok` is false for
        AWS_IO_CHANNEL_READ_WOULD_EXCEED_WINDOW, and then nothing changes. */
    method SendMessage(i: nat, length: Size) returns (ok: bool)
      requires 0 < i < |slots| && slots[i].hasHandler
      modifies this`slots
      ensures ok == (!old(backPressure) || length <= old(slots)[i].window)
      ensures View() == NextSend(old(View()), i, length)
    {
      if !backPressure || slots[i].window >= length {
        var was := slots[i];
        slots := slots[i := was.(window := SubWrap(was.window, length), delivered := was.delivered + length)];
        return true;
      }
      return false;
    }

    method IncrementReadWindow(i: nat, amount: Size)
      requires i < |slots|
      modifies this`slots, this`updateScheduled
      ensures View() == NextIncrement(old(View()), i, amount)
    {
      if backPressure && live {
        var was := slots[i];
        var batch := AddSaturating(was.batch, amount);
        slots := slots[i := was.(batch := batch, granted := was.granted + amount,
                                 batchLoss := was.batchLoss + (was.batch + amount - batch),
                                 grants := was.grants + [Credit(amount, was.window, updateScheduled)])];
        if !updateScheduled && slots[i].window <= threshold {
          updateScheduled := true;
        }
      }
    }

    /** What a handler may do while it is told of a window update: send, grant more credit to slots below `m`, start a
        shutdown. */
    method HandlerCode(m: nat)
      modifies this
      ensures Reaches(Step, old(View()), View()) && HandlerLeaves(old(View()), View(), m)
    {
      var budget: nat := *;
      ReachesRefl(Step, View());
      while budget > 0
        invariant Reaches(Step, old(View()), View()) && HandlerLeaves(old(View()), View(), m)
      {
        HandlerAct(m, old(View()));
        budget := budget - 1;
      }
    }

    method HandlerAct(m: nat, ghost start: Windows)
      requires Reaches(Step, start, View()) && HandlerLeaves(start, View(), m)
      modifies this
      ensures Reaches(Step, start, View()) && HandlerLeaves(start, View(), m)
    {
      var choice, i, n: Size := *, *, *;
      if choice == 0 && 0 < i < |slots| && slots[i].hasHandler {
        StepReaches(start, View(), Send(i, n));
        var _ := SendMessage(i, n);
      } else if choice == 1 && 0 <= i < |slots| && i < m {
        StepReaches(start, View(), Increment(i, n));
        IncrementReadWindow(i, n);
      } else {
        StepReaches(start, View(), ShuttingDown);
        live := false;
      }
    }

    /** One turn of the update task: the slot's batch becomes part of its window, and the handler on the left is told,
        which may grant credit to the slots below `m`. */
    method SweepSlot(i: nat, m: nat) returns (failed: bool)
      requires 0 < i < |slots| && slots[i - 1].hasHandler && running && next == i
      modifies this
      ensures Reaches(Step, old(View()), View()) && SameShape(old(View()), View())
      ensures running && next == i - 1
      ensures slots[i].sweptAt == old(slots)[i].granted
      ensures forall k :: 0 <= k < |slots| && k != i ==> slots[k].sweptAt == old(slots)[k].sweptAt
      ensures forall k :: m <= k < |slots| ==> slots[k].granted == old(slots)[k].granted
    {
      ReachesRefl(Step, View());
      StepReaches(View(), View(), Sweep);
      var was := slots[i];
      var window := AddSaturating(was.window, was.batch);
      slots := slots[i := was.(window := window, batch := 0, told := was.told + was.batch,
                               windowLoss := was.windowLoss + (was.window + was.batch - window),
                               sweptAt := was.granted, grants := [])];
      next := i - 1;
      ghost var swept := View();
      HandlerCode(m);
      ReachesTrans(Step, old(View()), swept, View());
      failed := *;
    }

    /** The task comes to slot `i`. */
    method Turn(ghost start: Windows, i: nat, orderly: bool) returns (failed: bool)
      requires 0 < i < |slots| && running && next == i
      requires Reaches(Step, start, View()) && SameShape(start, View())
      requires SweptAbove(start, View(), i) && (orderly ==> SettledAbove(View(), i))
      modifies this
      ensures running && next == i - 1
      ensures Reaches(Step, start, View()) && SameShape(start, View())
      ensures SweptAbove(start, View(), i - 1) && (orderly ==> SettledAbove(View(), i - 1))
    {
      failed := false;
      if slots[i - 1].hasHandler {
        ghost var before := View();
        failed := SweepSlot(i, if orderly then i else |slots|);
        ReachesTrans(Step, start, before, View());
      } else {
        StepReaches(start, View(), Sweep);
        next := i - 1;
      }
    }

    method SweepAll(ghost start: Windows, orderly: bool) returns (finished: bool)
      requires slots != [] && running && next == |slots| - 1
      requires Reaches(Step, start, View()) && SameShape(start, View())
      modifies this
      ensures Reaches(Step, start, View()) && SameShape(start, View()) && !running
      ensures finished ==> SweptAbove(start, View(), 0) && (orderly ==> SettledAbove(View(), 0))
    {
      var i := |slots| - 1;
      while i > 0
        invariant 0 <= i < |slots| && running && next == i
        invariant Reaches(Step, start, View()) && SameShape(start, View())
        invariant SweptAbove(start, View(), i) && (orderly ==> SettledAbove(View(), i))
      {
        var failed := Turn(start, i, orderly);
        if failed {
          StepReaches(start, View(), FailUpdate);
          running, abandoned := false, true;
          return false;
        }
        i := i - 1;
      }
      StepReaches(start, View(), EndUpdate);
      running, finished := false, true;
    }

    /** s_window_update_task. Slots are swept from the right; each handler on the left is told how much its
        neighbour's window grew, and may answer with an error, which ends the sweep (and the channel). A handler is
        `orderly` if all the credit it then grants is for slots on its side of the one that was swept, which the task
        has yet to come to. After a sweep that ran to its end a batch is empty exactly when nothing was granted after
        the slot's own turn, and all of them are if the handlers were orderly. */
    method WindowUpdateTask(ready: bool, orderly: bool) returns (finished: bool)
      requires updateScheduled && !running && slots != []
      modifies this
      ensures Reaches(Step, old(View()), View()) && SameShape(old(View()), View()) && !running
      ensures finished ==> forall k :: 0 < k < |slots| && slots[k - 1].hasHandler ==>
        old(slots)[k].granted <= slots[k].sweptAt
      ensures finished && backPressure && old(AllBalanced(View())) ==>
        forall k :: 0 < k < |slots| && slots[k - 1].hasHandler ==>
          && (slots[k].batch == 0 <==> slots[k].granted == slots[k].sweptAt)
          && (orderly ==> slots[k].batch == 0)
    {
      ReachesRefl(Step, View());
      StepReaches(View(), View(), StartUpdate(ready));
      updateScheduled, running, next, abandoned := false, ready && live, |slots| - 1, abandoned || !ready;
      finished := false;
      if ready && live {
        finished := SweepAll(old(View()), orderly);
        BalancedAlong(old(View()), View());
        if finished && backPressure && AllBalanced(View()) {
          SweptIsSettled(old(View()), View(), orderly);
        }
      }
    }
  }

  /** The slots right of `i` have had their turn since `w`. */
  predicate SweptAbove(w: Windows, v: Windows, i: nat)
    requires SameShape(w, v)
  {
    forall k :: i < k < |v.slots| && IsSwept(v, k) ==> w.slots[k].granted <= v.slots[k].sweptAt
  }

  /** The slots right of `i` were granted nothing after their turn. */
  predicate SettledAbove(w: Windows, i: nat) {
    forall k :: i < k < |w.slots| && IsSwept(w, k) ==> w.slots[k].granted == w.slots[k].sweptAt
  }

  lemma {:induction false} SettledIsEmpty(s: SlotWindow)
    requires Balanced(s)
    ensures s.batch == 0 <==> s.granted == s.sweptAt
  {
  }

  lemma {:induction false} SweptIsSettled(w: Windows, v: Windows, orderly: bool)
    requires SameShape(w, v) && v.backPressure && AllBalanced(v) && (orderly ==> SettledAbove(v, 0))
    ensures forall k :: 0 < k < |v.slots| && v.slots[k - 1].hasHandler ==>
              && (v.slots[k].batch == 0 <==> v.slots[k].granted == v.slots[k].sweptAt)
              && (orderly ==> v.slots[k].batch == 0)
  {
    forall k | 0 < k < |v.slots| && v.slots[k - 1].hasHandler
      ensures v.slots[k].batch == 0 <==> v.slots[k].granted == v.slots[k].sweptAt
      ensures orderly ==> v.slots[k].granted == v.slots[k].sweptAt
    {
      SettledIsEmpty(v.slots[k]);
      assert IsSwept(v, k);
    }
  }

  lemma {:induction false} BalancedAlong(w: Windows, v: Windows)
    requires Reaches(Step, w, v)
    ensures AllBalanced(w) ==> AllBalanced(v)
  {
    forall s, t | AllBalanced(s) && Step(s, t) ensures AllBalanced(t) {
      StepKeepsBalance(s, t);
    }
    if AllBalanced(w) {
      Invariance(Step, AllBalanced, w, v);
    }
  }
}
