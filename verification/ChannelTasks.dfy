/** The task queues of a channel (source/channel.c).

A channel keeps the tasks its event-loop thread has registered on one list, and the tasks handed over
from other threads (or through the serialized call) on a second, lock-protected list that a single
"scheduling task" drains in batches. Each lock-protected section is one step. Code of the user (the body
of a task, a handler, another thread) may take its own steps between any two of these, so a callback that
registers tasks or shuts the channel down in the middle of a drain is covered by interleaving.
*/
module ChannelTasks {
  import opened Traces

  datatype ChannelState = SettingUp | Active | ShuttingDown | ShutDown

  datatype Status = RunReady | Canceled

  /** How a task got in: the event-loop list, the cross-thread list, or turned away by a channel that is
      already shut down, to be run by the thread that brought it. */
  datatype Path = InLoop | Queued | Refused

  datatype Registration = Registration(path: Path, future: bool, afterShutDown: bool)

  /** Where a call comes from: the thread whose task was turned away, the task's wrapper in the event loop with the
      status it was run with, or a batch of the scheduling task, with the status that task was run with and whether the
      channel was shut down when the batch was taken. */
  datatype Origin = OnTheSpot | Wrapper(given: Status) | FromBatch(given: Status, late: bool)

  /** One call of a task's function. */
  datatype Invocation = Invocation(status: Status, afterShutDown: bool, origin: Origin)

  /** Where the loop thread is inside the scheduling task: not in it, started but yet to take the lock, or
      working through the batch it took. */
  datatype Drain = NoDrain | Starting(status: Status) | Draining(status: Status, given: Status, late: bool)

  /** Progress of the final notification: its task is scheduled, it cancels the event-loop list, it drains
      the cross-thread list, it has called on_shutdown_completed. */
  datatype Completion = NotScheduled | Scheduled | Canceling | DrainingCross | Fired

  /** The places a task can be. Tasks are named by the order of their registrations: task `id` was
      registered as `tasks[id]`. */
  datatype Queues = Queues(
    thread: seq<nat>,
    wrappers: set<nat>,        // wrapper tasks the event loop holds
    cross: seq<nat>,
    batch: seq<nat>,           // taken off the cross-thread list by the current drain
    refused: seq<nat>,         // turned away, not yet run by the threads that brought them
    log: seq<nat>,             // task functions called, in order
    tasks: seq<Registration>)
  {
    ghost function Everywhere(): multiset<nat> {
      multiset(thread) + multiset(batch) + multiset(cross) + multiset(refused) + multiset(log)
    }
  }

  datatype Channel = Channel(
    q: Queues,
    state: ChannelState,
    isShutDown: bool,           // the flag kept under the lock
    schedulingTask: nat,        // how many times the scheduling task is pending in the event loop
    drain: Drain,
    completion: Completion,
    calls: map<nat, Invocation>)
  {
    predicate LoopIdle() {
      drain.NoDrain? && !completion.Canceling? && !completion.DrainingCross?
    }
  }

  datatype Action =
    | Setup
    | RegisterInLoop(future: bool)
    | RegisterCross(future: bool)
    | CallRefused(index: nat)
    | RunWrapper(index: nat, status: Status)
    | StartDrain(status: Status)
    | Swap
    | DrainOne
    | EndDrain
    | BeginShutdown
    | MarkShutDown
    | SetFlag
    | ScheduleNotify
    | StartCompletion
    | CancelFront
    | CheckCross
    | Fire

  predicate Init(c: Channel) {
    c == Channel(Queues([], {}, [], [], [], [], []), SettingUp, false, 0, NoDrain, NotScheduled, map[])
  }

  /** Steps that belong to code running inside callbacks or on other threads. */
  predicate IsEnvironment(a: Action) {
    || a.Setup? || a.RegisterInLoop? || a.RegisterCross? || a.CallRefused?
    || a.BeginShutdown? || a.MarkShutDown? || a.SetFlag? || a.ScheduleNotify?
  }

  predicate Enabled(c: Channel, a: Action) {
    match a
    case Setup => c.state.SettingUp?
    case RegisterInLoop(_) => true
    case RegisterCross(_) => true
    case CallRefused(k) => k < |c.q.refused|
    case RunWrapper(i, _) => c.LoopIdle() && i < |c.q.thread| && c.q.thread[i] in c.q.wrappers
    case StartDrain(_) => c.LoopIdle() && c.schedulingTask > 0
    case Swap => c.drain.Starting?
    case DrainOne => c.drain.Draining? && c.q.batch != []
    case EndDrain => c.drain.Draining? && c.q.batch == []
    case BeginShutdown => c.state.SettingUp? || c.state.Active?
    case MarkShutDown => c.state.ShuttingDown?
    case SetFlag => c.state.ShutDown?
    case ScheduleNotify => c.isShutDown && c.completion.NotScheduled?
    case StartCompletion => c.LoopIdle() && c.completion.Scheduled?
    case CancelFront => c.completion.Canceling? && c.q.thread != []
    case CheckCross => c.completion.Canceling? && c.q.thread == [] && c.q.cross != [] && c.schedulingTask > 0
    case Fire =>
      || (c.completion.Canceling? && c.q.thread == [] && c.q.cross == [])
      || (c.completion.DrainingCross? && c.drain.NoDrain?)
  }

  // ----- Moves between the places -----

  function Admit(q: Queues, r: Registration): Queues {
    var id := |q.tasks|;
    var known := q.(tasks := q.tasks + [r]);
    match r.path
    case InLoop => known.(thread := q.thread + [id], wrappers := q.wrappers + {id})
    case Queued => known.(cross := q.cross + [id])
    case Refused => known.(refused := q.refused + [id])
  }

  function RunRefused(q: Queues, k: nat): Queues
    requires k < |q.refused|
  {
    q.(refused := q.refused[..k] + q.refused[k + 1..], log := q.log + [q.refused[k]])
  }

  function CallThread(q: Queues, i: nat): Queues
    requires i < |q.thread|
  {
    var id := q.thread[i];
    q.(thread := q.thread[..i] + q.thread[i + 1..], wrappers := q.wrappers - {id}, log := q.log + [id])
  }

  function TakeCross(q: Queues): Queues {
    q.(cross := [], batch := q.cross)
  }

  function CallBatch(q: Queues): Queues
    requires q.batch != []
  {
    q.(batch := q.batch[1..], log := q.log + [q.batch[0]])
  }

  function DeferBatch(q: Queues): Queues
    requires q.batch != []
  {
    q.(batch := q.batch[1..], thread := q.thread + [q.batch[0]], wrappers := q.wrappers + {q.batch[0]})
  }

  predicate IsFuture(q: Queues, id: nat) {
    id < |q.tasks| && q.tasks[id].future
  }

  // ----- Steps -----

  function Record(c: Channel, q: Queues, id: nat, status: Status, origin: Origin): Channel {
    c.(q := q, calls := c.calls[id := Invocation(status, c.state.ShutDown?, origin)])
  }

  function NextCallRefused(c: Channel, k: nat): Channel
    requires k < |c.q.refused|
  {
    Record(c, RunRefused(c.q, k), c.q.refused[k], Canceled, OnTheSpot)
  }

  /** A channel that is shut down runs the task on the spot, as canceled. */
  function NextRegisterInLoop(c: Channel, future: bool): Channel {
    if c.state.ShutDown? then
      NextCallRefused(c.(q := Admit(c.q, Registration(Refused, future, true))), |c.q.refused|)
    else
      c.(q := Admit(c.q, Registration(InLoop, future, false)))
  }

  /** The first task on an empty list schedules the scheduling task. A task that comes too late is run by its thread
      after the lock has been given up. */
  function NextRegisterCross(c: Channel, future: bool): Channel {
    if c.isShutDown then
      c.(q := Admit(c.q, Registration(Refused, future, c.state.ShutDown?)))
    else
      c.(q := Admit(c.q, Registration(Queued, future, c.state.ShutDown?)),
         schedulingTask := if c.q.cross == [] then c.schedulingTask + 1 else c.schedulingTask)
  }

  /** Any task whose wrapper runs once the channel is shut down counts as canceled. */
  function NextRunWrapper(c: Channel, i: nat, status: Status): Channel
    requires i < |c.q.thread|
  {
    Record(c, CallThread(c.q, i), c.q.thread[i], if c.state.ShutDown? then Canceled else status, Wrapper(status))
  }

  /** The status of a whole batch is settled when the batch is taken. */
  function NextSwap(c: Channel): Channel
    requires c.drain.Starting?
  {
    c.(q := TakeCross(c.q),
       drain := Draining(if c.state.ShutDown? then Canceled else c.drain.status, c.drain.status, c.state.ShutDown?))
  }

  /** "Now" tasks and canceled ones run at once, the others move on to the event loop. */
  function NextDrainOne(c: Channel): Channel
    requires c.drain.Draining? && c.q.batch != []
  {
    if c.drain.status.Canceled? || !IsFuture(c.q, c.q.batch[0]) then
      Record(c, CallBatch(c.q), c.q.batch[0], c.drain.status, FromBatch(c.drain.given, c.drain.late))
    else
      c.(q := DeferBatch(c.q))
  }

  function Next(c: Channel, a: Action): Channel
    requires Enabled(c, a)
  {
    match a
    case Setup => c.(state := Active)
    case RegisterInLoop(future) => NextRegisterInLoop(c, future)
    case RegisterCross(future) => NextRegisterCross(c, future)
    case CallRefused(k) => NextCallRefused(c, k)
    case RunWrapper(i, status) => NextRunWrapper(c, i, status)
    case StartDrain(status) => c.(schedulingTask := c.schedulingTask - 1, drain := Starting(status))
    case Swap => NextSwap(c)
    case DrainOne => NextDrainOne(c)
    case EndDrain => c.(drain := NoDrain)
    case BeginShutdown => c.(state := ShuttingDown)
    case MarkShutDown => c.(state := ShutDown)
    case SetFlag => c.(isShutDown := true)
    case ScheduleNotify => c.(completion := Scheduled)
    case StartCompletion => c.(completion := Canceling)
    case CancelFront => NextRunWrapper(c, 0, Canceled)
    case CheckCross =>
      c.(schedulingTask := c.schedulingTask - 1, drain := Starting(Canceled), completion := DrainingCross)
    case Fire => c.(completion := Fired)
  }

  ghost predicate Step(c: Channel, d: Channel) {
    exists a :: Enabled(c, a) && d == Next(c, a)
  }

  // ----- Order of the cross-thread path -----

  predicate IsNowQueued(id: nat, tasks: seq<Registration>) {
    id < |tasks| && tasks[id].path.Queued? && !tasks[id].future
  }

  /** The ids among `ids` that went through the cross-thread list as "now" tasks, in order. */
  function NowQueued(ids: seq<nat>, tasks: seq<Registration>): seq<nat> {
    if ids == [] then []
    else
      NowQueued(ids[..|ids| - 1], tasks) + if IsNowQueued(ids[|ids| - 1], tasks) then [ids[|ids| - 1]] else []
  }

  /** The "now" tasks pushed on the cross-thread list, in the order of the pushes. */
  function Pushed(tasks: seq<Registration>): seq<nat> {
    if tasks == [] then []
    else
      Pushed(tasks[..|tasks| - 1]) + if IsNowQueued(|tasks| - 1, tasks) then [|tasks| - 1] else []
  }

  ghost predicate InPushOrder(log: seq<nat>, batch: seq<nat>, cross: seq<nat>, tasks: seq<Registration>) {
    NowQueued(log, tasks) + NowQueued(batch, tasks) + NowQueued(cross, tasks) == Pushed(tasks)
  }

  // ----- The invariant -----

  /** Each registered task is in exactly one place. */
  ghost predicate OnePlaceEach(q: Queues) {
    forall id: nat :: q.Everywhere()[id] == if id < |q.tasks| then 1 else 0
  }

  ghost predicate ListMirrorsLoop(q: Queues) {
    && (forall id: nat :: id in q.wrappers <==> id in q.thread)
    && (forall id :: id in q.thread ==> !IsNowQueued(id, q.tasks))
    && (forall id :: id in q.refused ==> WasRefused(id, q.tasks))
  }

  predicate WasRefused(id: nat, tasks: seq<Registration>) {
    id < |tasks| && tasks[id].path.Refused?
  }

  ghost predicate QueuesInv(q: Queues) {
    OnePlaceEach(q) && ListMirrorsLoop(q) && InPushOrder(q.log, q.batch, q.cross, q.tasks)
  }

  /** No lost wake-up: the scheduling task is pending, or about to take the list, exactly while there is
      something on the cross-thread list, and never twice. */
  ghost predicate WakeUpPending(c: Channel) {
    c.schedulingTask + (if c.drain.Starting? then 1 else 0) == if c.q.cross == [] then 0 else 1
  }

  predicate Late(id: nat, tasks: seq<Registration>) {
    id < |tasks| && tasks[id].afterShutDown
  }

  ghost predicate LateCallsCanceled(calls: map<nat, Invocation>, q: Queues) {
    && (forall id: nat :: id in calls <==> id in q.log)
    && (forall id :: id in calls && Late(id, q.tasks) ==> calls[id].status.Canceled?)
    && (forall id :: id in calls && calls[id].afterShutDown ==> RanReadyLate(calls[id]))
  }

  /** Of the calls made after SHUT_DOWN, those from a batch that was taken before by a scheduling task in good standing
      are the ones that run as ready. */
  predicate RanReadyLate(call: Invocation) {
    call.status.RunReady? <==> call.origin == FromBatch(RunReady, false)
  }

  ghost predicate LateTasks(c: Channel) {
    && (forall id :: id in c.q.batch && Late(id, c.q.tasks) ==> c.drain.Draining? && c.drain.status.Canceled?)
    && (forall id :: Late(id, c.q.tasks) ==> c.state.ShutDown?)
  }

  ghost predicate Phases(c: Channel) {
    && (c.isShutDown ==> c.state.ShutDown?)
    && (!c.completion.NotScheduled? ==> c.isShutDown)
    && (c.completion.Canceling? ==> c.drain.NoDrain?)
    && (c.completion.DrainingCross? || c.completion.Fired? ==> c.q.thread == [])
    && (c.completion.DrainingCross? && !c.drain.NoDrain? ==> c.drain.status.Canceled?)
    && (c.completion.DrainingCross? && !c.drain.Starting? ==> c.q.cross == [])
    && (c.completion.Fired? ==> c.q.cross == [] && c.drain.NoDrain?)
    && (c.drain.Draining? ==> c.drain.status == if c.drain.late then Canceled else c.drain.given)
    && (!c.drain.Draining? ==> c.q.batch == [])
  }

  ghost predicate Inv(c: Channel) {
    QueuesInv(c.q) && WakeUpPending(c) && LateCallsCanceled(c.calls, c.q) && LateTasks(c) && Phases(c)
  }

  // ----- Moves keep the queues in order -----

  lemma {:induction false} RemoveAt(s: seq<nat>, i: nat)
    requires i < |s|
    ensures multiset(s) == multiset(s[..i] + s[i + 1..]) + multiset{s[i]}
  {
    assert s == s[..i] + [s[i]] + s[i + 1..];
  }

  lemma {:induction false} RemoveUnique(s: seq<nat>, i: nat)
    requires i < |s| && multiset(s)[s[i]] <= 1
    ensures forall x: nat :: x in s[..i] + s[i + 1..] <==> x in s && x != s[i]
  {
    RemoveAt(s, i);
    var rest: seq<nat> := s[..i] + s[i + 1..];
    forall x: nat ensures x in rest <==> x in s && x != s[i] {
      assert x in rest <==> multiset(rest)[x] > 0;
      assert x in s <==> multiset(s)[x] > 0;
    }
  }

  lemma {:induction false} NowQueuedConcat(a: seq<nat>, b: seq<nat>, tasks: seq<Registration>)
    ensures NowQueued(a + b, tasks) == NowQueued(a, tasks) + NowQueued(b, tasks)
  {
    if b == [] {
      assert a + b == a;
    } else {
      assert (a + b)[..|a + b| - 1] == a + b[..|b| - 1];
      NowQueuedConcat(a, b[..|b| - 1], tasks);
    }
  }

  /** Later registrations do not change how earlier ones are classified. */
  lemma {:induction false} NowQueuedStable(ids: seq<nat>, tasks: seq<Registration>, r: Registration)
    requires forall id :: id in ids ==> id < |tasks|
    ensures NowQueued(ids, tasks + [r]) == NowQueued(ids, tasks)
  {
    if ids != [] {
      var front := ids[..|ids| - 1];
      assert forall id :: id in front ==> id in ids;
      NowQueuedStable(front, tasks, r);
      assert ids[|ids| - 1] in ids;
    }
  }

  lemma {:induction false} NowQueuedSingle(id: nat, tasks: seq<Registration>)
    ensures NowQueued([id], tasks) == if IsNowQueued(id, tasks) then [id] else []
  {
    assert NowQueued([], tasks) == [];
  }

  lemma {:induction false} PushedSnoc(tasks: seq<Registration>, r: Registration)
    ensures Pushed(tasks + [r]) == Pushed(tasks) + if r.path.Queued? && !r.future then [|tasks|] else []
  {
    assert (tasks + [r])[..|tasks|] == tasks;
  }

  lemma {:induction false} OrderStable(
    log: seq<nat>, batch: seq<nat>, cross: seq<nat>, tasks: seq<Registration>, r: Registration)
    requires InPushOrder(log, batch, cross, tasks)
    requires forall id :: id in log || id in batch || id in cross ==> id < |tasks|
    ensures NowQueued(log, tasks + [r]) + NowQueued(batch, tasks + [r]) + NowQueued(cross, tasks + [r]) == Pushed(tasks)
  {
    NowQueuedStable(log, tasks, r);
    NowQueuedStable(batch, tasks, r);
    NowQueuedStable(cross, tasks, r);
  }

  lemma {:induction false} OrderAfterPush(
    log: seq<nat>, batch: seq<nat>, cross: seq<nat>, tasks: seq<Registration>, r: Registration)
    requires InPushOrder(log, batch, cross, tasks) && r.path.Queued?
    requires forall id :: id in log || id in batch || id in cross ==> id < |tasks|
    ensures InPushOrder(log, batch, cross + [|tasks|], tasks + [r])
  {
    OrderStable(log, batch, cross, tasks, r);
    NowQueuedConcat(cross, [|tasks|], tasks + [r]);
    NowQueuedSingle(|tasks|, tasks + [r]);
    PushedSnoc(tasks, r);
  }

  lemma {:induction false} OrderAfterOther(
    log: seq<nat>, batch: seq<nat>, cross: seq<nat>, tasks: seq<Registration>, r: Registration)
    requires InPushOrder(log, batch, cross, tasks) && !r.path.Queued?
    requires forall id :: id in log || id in batch || id in cross ==> id < |tasks|
    ensures InPushOrder(log, batch, cross, tasks + [r])
  {
    OrderStable(log, batch, cross, tasks, r);
    PushedSnoc(tasks, r);
  }

  lemma {:induction false} OrderAfterCall(
    log: seq<nat>, batch: seq<nat>, cross: seq<nat>, tasks: seq<Registration>, id: nat)
    requires InPushOrder(log, batch, cross, tasks) && !IsNowQueued(id, tasks)
    ensures InPushOrder(log + [id], batch, cross, tasks)
  {
    NowQueuedConcat(log, [id], tasks);
    NowQueuedSingle(id, tasks);
    assert NowQueued(log + [id], tasks) == NowQueued(log, tasks);
  }

  lemma Associates(a: seq<nat>, b: seq<nat>, c: seq<nat>, d: seq<nat>)
    ensures a + (b + c) + d == (a + b) + c + d
  {
    assert a + (b + c) == (a + b) + c;
  }

  lemma {:induction false} OrderAfterPop(log: seq<nat>, batch: seq<nat>, cross: seq<nat>, tasks: seq<Registration>)
    requires InPushOrder(log, batch, cross, tasks) && batch != []
    ensures InPushOrder(log + [batch[0]], batch[1..], cross, tasks)
    ensures !IsNowQueued(batch[0], tasks) ==> InPushOrder(log, batch[1..], cross, tasks)
  {
    var id, rest := batch[0], batch[1..];
    assert batch == [id] + rest;
    NowQueuedConcat([id], rest, tasks);
    NowQueuedConcat(log, [id], tasks);
    NowQueuedSingle(id, tasks);
    Associates(NowQueued(log, tasks), NowQueued([id], tasks), NowQueued(rest, tasks), NowQueued(cross, tasks));
    if !IsNowQueued(id, tasks) {
      assert NowQueued(batch, tasks) == NowQueued(rest, tasks);
    }
  }

  lemma {:induction false} KnownIds(q: Queues)
    requires OnePlaceEach(q)
    ensures forall id :: id in q.thread || id in q.batch || id in q.cross || id in q.refused || id in q.log ==>
              id < |q.tasks|
    ensures forall id :: id in q.thread || id in q.batch || id in q.cross || id in q.refused ==> id !in q.log
  {
    forall id | id in q.thread || id in q.batch || id in q.cross || id in q.refused || id in q.log
      ensures id < |q.tasks|
      ensures id in q.thread || id in q.batch || id in q.cross || id in q.refused ==> id !in q.log
    {
      assert 0 < q.Everywhere()[id] <= 1;
    }
  }

  lemma {:induction false} ClassesSnoc(tasks: seq<Registration>, r: Registration)
    ensures forall id: nat :: Late(id, tasks + [r]) <==> Late(id, tasks) || (id == |tasks| && r.afterShutDown)
    ensures forall id: nat ::
      IsNowQueued(id, tasks + [r]) <==> IsNowQueued(id, tasks) || (id == |tasks| && r.path.Queued? && !r.future)
    ensures forall id: nat ::
      WasRefused(id, tasks + [r]) <==> WasRefused(id, tasks) || (id == |tasks| && r.path.Refused?)
  {
  }

  lemma {:induction false} AdmitKeepsPlaces(q: Queues, r: Registration)
    requires OnePlaceEach(q)
    ensures OnePlaceEach(Admit(q, r))
  {
    var id: nat := |q.tasks|;
    match r.path {
      case InLoop => assert multiset(q.thread + [id]) == multiset(q.thread) + multiset{id};
      case Queued => assert multiset(q.cross + [id]) == multiset(q.cross) + multiset{id};
      case Refused => assert multiset(q.refused + [id]) == multiset(q.refused) + multiset{id};
    }
    assert Admit(q, r).Everywhere() == q.Everywhere() + multiset{id};
  }

  lemma {:induction false} AdmitKeepsQueues(q: Queues, r: Registration)
    requires QueuesInv(q)
    ensures QueuesInv(Admit(q, r))
  {
    KnownIds(q);
    AdmitKeepsPlaces(q, r);
    ClassesSnoc(q.tasks, r);
    if r.path.Queued? {
      OrderAfterPush(q.log, q.batch, q.cross, q.tasks, r);
    } else {
      OrderAfterOther(q.log, q.batch, q.cross, q.tasks, r);
    }
  }

  lemma {:induction false} CallThreadMovesOne(q: Queues, i: nat)
    requires i < |q.thread|
    ensures CallThread(q, i).Everywhere() == q.Everywhere()
  {
    RemoveAt(q.thread, i);
  }

  lemma {:induction false} CallThreadKeepsMirror(q: Queues, i: nat)
    requires OnePlaceEach(q) && ListMirrorsLoop(q) && i < |q.thread|
    ensures ListMirrorsLoop(CallThread(q, i))
  {
    var x, r := q.thread[i], CallThread(q, i);
    assert q.Everywhere()[x] <= 1;
    assert multiset(q.thread)[x] <= 1;
    RemoveUnique(q.thread, i);
    assert forall id: nat :: id in r.thread <==> id in q.thread && id != x;
  }

  lemma {:induction false} CallThreadKeepsQueues(q: Queues, i: nat)
    requires QueuesInv(q) && i < |q.thread|
    ensures QueuesInv(CallThread(q, i))
  {
    CallThreadMovesOne(q, i);
    CallThreadKeepsMirror(q, i);
    OrderAfterCall(q.log, q.batch, q.cross, q.tasks, q.thread[i]);
  }

  lemma {:induction false} RunRefusedMovesOne(q: Queues, k: nat)
    requires k < |q.refused|
    ensures RunRefused(q, k).Everywhere() == q.Everywhere()
  {
    RemoveAt(q.refused, k);
  }

  lemma {:induction false} RunRefusedKeepsMirror(q: Queues, k: nat)
    requires ListMirrorsLoop(q) && k < |q.refused|
    ensures ListMirrorsLoop(RunRefused(q, k))
  {
    assert forall id :: id in q.refused[..k] + q.refused[k + 1..] ==> id in q.refused;
  }

  lemma {:induction false} RunRefusedKeepsQueues(q: Queues, k: nat)
    requires QueuesInv(q) && k < |q.refused|
    ensures QueuesInv(RunRefused(q, k))
  {
    var id := q.refused[k];
    assert id in q.refused && WasRefused(id, q.tasks);
    RunRefusedMovesOne(q, k);
    RunRefusedKeepsMirror(q, k);
    OrderAfterCall(q.log, q.batch, q.cross, q.tasks, id);
  }

  lemma {:induction false} TakeCrossKeepsQueues(q: Queues)
    requires QueuesInv(q) && q.batch == []
    ensures QueuesInv(TakeCross(q))
  {
    assert TakeCross(q).Everywhere() == q.Everywhere();
    assert NowQueued([], q.tasks) == [];
    assert NowQueued(q.log, q.tasks) + [] + NowQueued(q.cross, q.tasks)
        == NowQueued(q.log, q.tasks) + NowQueued(q.cross, q.tasks) + [];
  }

  lemma {:induction false} FrontOf(s: seq<nat>)
    requires s != []
    ensures multiset(s) == multiset(s[1..]) + multiset{s[0]}
  {
    assert s == [s[0]] + s[1..];
  }

  lemma {:induction false} CallBatchKeepsQueues(q: Queues)
    requires QueuesInv(q) && q.batch != []
    ensures QueuesInv(CallBatch(q))
  {
    OrderAfterPop(q.log, q.batch, q.cross, q.tasks);
    FrontOf(q.batch);
    assert CallBatch(q).Everywhere() == q.Everywhere();
  }

  lemma {:induction false} DeferKeepsPlaces(q: Queues)
    requires OnePlaceEach(q) && q.batch != []
    ensures OnePlaceEach(DeferBatch(q))
  {
    FrontOf(q.batch);
    assert DeferBatch(q).Everywhere() == q.Everywhere();
  }

  lemma {:induction false} DeferKeepsMirror(q: Queues)
    requires ListMirrorsLoop(q) && q.batch != [] && !IsNowQueued(q.batch[0], q.tasks)
    ensures ListMirrorsLoop(DeferBatch(q))
  {
    var id := q.batch[0];
    assert forall x: nat :: x in DeferBatch(q).thread <==> x in q.thread || x == id;
  }

  lemma {:induction false} DeferBatchKeepsQueues(q: Queues)
    requires QueuesInv(q) && q.batch != [] && IsFuture(q, q.batch[0])
    ensures QueuesInv(DeferBatch(q))
  {
    OrderAfterPop(q.log, q.batch, q.cross, q.tasks);
    DeferKeepsPlaces(q);
    DeferKeepsMirror(q);
  }

  // ----- Every step keeps the invariant -----

  lemma {:induction false} LateCallsAfterCall(
    calls: map<nat, Invocation>, q: Queues, r: Queues, id: nat, call: Invocation)
    requires LateCallsCanceled(calls, q) && r.log == q.log + [id] && r.tasks == q.tasks
    requires Late(id, q.tasks) ==> call.status.Canceled?
    requires call.afterShutDown ==> RanReadyLate(call)
    ensures LateCallsCanceled(calls[id := call], r)
  {
    assert forall x: nat :: x in r.log <==> x in q.log || x == id;
  }

  lemma {:induction false} CallRefusedKeepsInv(c: Channel, k: nat)
    requires Inv(c) && k < |c.q.refused|
    ensures Inv(NextCallRefused(c, k))
  {
    RunRefusedKeepsQueues(c.q, k);
    var call := Invocation(Canceled, c.state.ShutDown?, OnTheSpot);
    LateCallsAfterCall(c.calls, c.q, RunRefused(c.q, k), c.q.refused[k], call);
  }

  lemma {:induction false} AdmitKeepsInv(c: Channel, r: Registration)
    requires Inv(c) && !r.path.Queued?
    requires (r.path.InLoop? ==> !c.state.ShutDown?) && (r.afterShutDown ==> c.state.ShutDown?)
    ensures Inv(c.(q := Admit(c.q, r)))
  {
    KnownIds(c.q);
    AdmitKeepsQueues(c.q, r);
    ClassesSnoc(c.q.tasks, r);
  }

  lemma {:induction false} RegisterInLoopKeepsInv(c: Channel, future: bool)
    requires Inv(c)
    ensures Inv(NextRegisterInLoop(c, future))
  {
    if c.state.ShutDown? {
      AdmitKeepsInv(c, Registration(Refused, future, true));
      CallRefusedKeepsInv(c.(q := Admit(c.q, Registration(Refused, future, true))), |c.q.refused|);
    } else {
      AdmitKeepsInv(c, Registration(InLoop, future, false));
    }
  }

  lemma {:induction false} RegisterCrossKeepsInv(c: Channel, future: bool)
    requires Inv(c)
    ensures Inv(NextRegisterCross(c, future))
  {
    if c.isShutDown {
      AdmitKeepsInv(c, Registration(Refused, future, true));
    } else {
      KnownIds(c.q);
      AdmitKeepsQueues(c.q, Registration(Queued, future, c.state.ShutDown?));
      ClassesSnoc(c.q.tasks, Registration(Queued, future, c.state.ShutDown?));
    }
  }

  lemma {:induction false} RunWrapperKeepsInv(c: Channel, i: nat, status: Status)
    requires Inv(c) && i < |c.q.thread| && c.drain.NoDrain?
    ensures Inv(NextRunWrapper(c, i, status))
  {
    CallThreadKeepsQueues(c.q, i);
    var call := Invocation(if c.state.ShutDown? then Canceled else status, c.state.ShutDown?, Wrapper(status));
    LateCallsAfterCall(c.calls, c.q, CallThread(c.q, i), c.q.thread[i], call);
  }

  lemma {:induction false} DrainOneKeepsInv(c: Channel)
    requires Inv(c) && c.drain.Draining? && c.q.batch != []
    ensures Inv(NextDrainOne(c))
  {
    assert forall id :: id in c.q.batch[1..] ==> id in c.q.batch;
    if c.drain.status.Canceled? || !IsFuture(c.q, c.q.batch[0]) {
      var id := c.q.batch[0];
      var call := Invocation(c.drain.status, c.state.ShutDown?, FromBatch(c.drain.given, c.drain.late));
      assert id in c.q.batch;
      CallBatchKeepsQueues(c.q);
      LateCallsAfterCall(c.calls, c.q, CallBatch(c.q), id, call);
    } else {
      DeferBatchKeepsQueues(c.q);
    }
  }

  lemma {:induction false} ControlKeepsInv(c: Channel, a: Action)
    requires Inv(c) && Enabled(c, a)
    requires !a.RegisterInLoop? && !a.RegisterCross? && !a.CallRefused?
    requires !a.RunWrapper? && !a.CancelFront? && !a.DrainOne?
    ensures Inv(Next(c, a))
  {
    if a.Swap? {
      TakeCrossKeepsQueues(c.q);
    }
  }

  lemma {:induction false} StepKeepsInv(c: Channel, d: Channel)
    requires Inv(c) && Step(c, d)
    ensures Inv(d)
  {
    var a :| Enabled(c, a) && d == Next(c, a);
    match a {
      case RegisterInLoop(future) => RegisterInLoopKeepsInv(c, future);
      case RegisterCross(future) => RegisterCrossKeepsInv(c, future);
      case CallRefused(k) => CallRefusedKeepsInv(c, k);
      case RunWrapper(i, status) => RunWrapperKeepsInv(c, i, status);
      case CancelFront => RunWrapperKeepsInv(c, 0, Canceled);
      case DrainOne => DrainOneKeepsInv(c);
      case _ => ControlKeepsInv(c, a);
    }
  }

  // ----- What holds in every reachable state -----

  lemma {:induction false} ReachableInv(c: Channel)
    requires Reachable(Init, Step, c)
    ensures Inv(c)
  {
    forall s | Init(s) ensures Inv(s) {
      assert s.q.Everywhere() == multiset{};
    }
    forall s, t | Inv(s) && Step(s, t) ensures Inv(t) {
      StepKeepsInv(s, t);
    }
    ReachableInvariant(Init, Step, Inv, c);
  }

  /** No task function is called twice, and a task not yet called is still on exactly one list, or in the hands of the
      thread that brought it. */
  lemma {:induction false} TaskCalledAtMostOnce(c: Channel, id: nat)
    requires Reachable(Init, Step, c)
    ensures multiset(c.q.log)[id] <= 1
    ensures id < |c.q.tasks| && id !in c.q.log ==>
      multiset(c.q.thread)[id] + multiset(c.q.batch)[id] + multiset(c.q.cross)[id] + multiset(c.q.refused)[id] == 1
  {
    ReachableInv(c);
    assert c.q.Everywhere()[id] == if id < |c.q.tasks| then 1 else 0;
  }

  /** When on_shutdown_completed has fired, the lists are empty and every task that was let in has been called, once. A
      task that was turned away has been called or is about to be, by the thread that brought it. */
  lemma {:induction false} AllTasksCalledWhenShutdownCompletes(c: Channel, id: nat)
    requires Reachable(Init, Step, c) && c.completion.Fired?
    ensures c.q.thread == [] && c.q.cross == [] && c.q.batch == []
    ensures id < |c.q.tasks| && !c.q.tasks[id].path.Refused? ==> multiset(c.q.log)[id] == 1
    ensures id < |c.q.tasks| && c.q.tasks[id].path.Refused? ==> multiset(c.q.log)[id] + multiset(c.q.refused)[id] == 1
  {
    ReachableInv(c);
    if id < |c.q.tasks| {
      OnlyRefusedIsLeft(c, id);
    }
  }

  lemma {:induction false} OnlyRefusedIsLeft(c: Channel, id: nat)
    requires Inv(c) && c.completion.Fired? && id < |c.q.tasks|
    ensures multiset(c.q.log)[id] + multiset(c.q.refused)[id] == 1
    ensures !c.q.tasks[id].path.Refused? ==> multiset(c.q.log)[id] == 1
  {
    assert c.q.Everywhere()[id] == 1;
    if !c.q.tasks[id].path.Refused? {
      assert !WasRefused(id, c.q.tasks);
      assert id !in c.q.refused;
    }
  }

  /** A task registered after SHUT_DOWN is called as canceled. Of the calls made after SHUT_DOWN exactly those run as
      ready that come from a batch taken before SHUT_DOWN by a scheduling task that was itself run as ready. */
  lemma {:induction false} LateTaskIsCanceled(c: Channel, id: nat)
    requires Reachable(Init, Step, c) && id in c.q.log
    ensures id < |c.q.tasks| && id in c.calls
    ensures c.q.tasks[id].afterShutDown ==> c.calls[id].status.Canceled?
    ensures c.calls[id].afterShutDown ==>
              (c.calls[id].status.RunReady? <==> c.calls[id].origin == FromBatch(RunReady, false))
  {
    ReachableInv(c);
    KnownIds(c.q);
    assert Late(id, c.q.tasks) == c.q.tasks[id].afterShutDown;
  }

  // ----- How each task is called -----

  /** What the call of a task says about its registration. A task that is turned away is canceled on the spot. One of
      the event loop, or one for a later time that was handed on to it, runs with the status its wrapper is given,
      unless the channel is shut down. One of a batch runs with the status of the batch, and a batch calls a task for a
      later time only to cancel it. */
  predicate Accounts(r: Registration, call: Invocation) {
    match call.origin
    case OnTheSpot => r.path.Refused? && call.status.Canceled?
    case Wrapper(given) =>
      && (r.path.InLoop? || (r.path.Queued? && r.future))
      && call.status == if call.afterShutDown then Canceled else given
    case FromBatch(given, late) =>
      && r.path.Queued? && call.status == (if late then Canceled else given)
      && (r.future ==> call.status.Canceled?)
  }

  /** Only a channel that is shut down turns tasks away, and then none gets to the event-loop list. */
  predicate RegisteredFairly(r: Registration) {
    (r.path.Refused? ==> r.afterShutDown) && (r.path.InLoop? ==> !r.afterShutDown)
  }

  predicate BelongsToThread(id: nat, tasks: seq<Registration>) {
    id < |tasks| && (tasks[id].path.InLoop? || (tasks[id].path.Queued? && tasks[id].future))
  }

  predicate BelongsToCross(id: nat, tasks: seq<Registration>) {
    id < |tasks| && tasks[id].path.Queued?
  }

  ghost predicate InPlace(q: Queues) {
    && (forall id :: id in q.thread ==> BelongsToThread(id, q.tasks))
    && (forall id :: id in q.batch ==> BelongsToCross(id, q.tasks))
    && (forall id :: id in q.cross ==> BelongsToCross(id, q.tasks))
    && (forall id :: id in q.refused ==> WasRefused(id, q.tasks))
  }

  predicate CallAccounted(calls: map<nat, Invocation>, tasks: seq<Registration>, id: nat)
    requires id in calls
  {
    id < |tasks| && Accounts(tasks[id], calls[id])
  }

  ghost predicate CallsAccounted(calls: map<nat, Invocation>, tasks: seq<Registration>) {
    && (forall id :: id in calls ==> CallAccounted(calls, tasks, id))
    && (forall i :: 0 <= i < |tasks| ==> RegisteredFairly(tasks[i]))
  }

  ghost predicate Accounted(c: Channel) {
    Inv(c) && InPlace(c.q) && CallsAccounted(c.calls, c.q.tasks)
  }

  lemma {:induction false} CallAdded(calls: map<nat, Invocation>, tasks: seq<Registration>, id: nat, call: Invocation)
    requires CallsAccounted(calls, tasks) && id < |tasks| && Accounts(tasks[id], call)
    ensures CallsAccounted(calls[id := call], tasks)
  {
    var more := calls[id := call];
    forall x | x in more ensures CallAccounted(more, tasks, x) {
      assert x != id ==> CallAccounted(calls, tasks, x);
    }
  }

  lemma {:induction false} TaskAdded(calls: map<nat, Invocation>, q: Queues, r: Registration)
    requires InPlace(q) && CallsAccounted(calls, q.tasks) && RegisteredFairly(r)
    ensures InPlace(Admit(q, r)) && CallsAccounted(calls, Admit(q, r).tasks)
  {
    var t := Admit(q, r);
    forall x | x in calls ensures CallAccounted(calls, t.tasks, x) {
      assert CallAccounted(calls, q.tasks, x);
    }
    PlacesAfterAdmit(q, r);
  }

  lemma {:induction false} PlacesAfterAdmit(q: Queues, r: Registration)
    requires InPlace(q)
    ensures InPlace(Admit(q, r))
  {
    var t, n := Admit(q, r), |q.tasks|;
    forall x | x in t.thread ensures BelongsToThread(x, t.tasks) {
      assert x != n ==> x in q.thread && BelongsToThread(x, q.tasks);
    }
    forall x | x in t.batch ensures BelongsToCross(x, t.tasks) {
      assert BelongsToCross(x, q.tasks);
    }
    forall x | x in t.cross ensures BelongsToCross(x, t.tasks) {
      assert x != n ==> x in q.cross && BelongsToCross(x, q.tasks);
    }
    forall x | x in t.refused ensures WasRefused(x, t.tasks) {
      assert x != n ==> x in q.refused && WasRefused(x, q.tasks);
    }
  }

  lemma {:induction false} RefusedCallAccounted(c: Channel, k: nat)
    requires InPlace(c.q) && CallsAccounted(c.calls, c.q.tasks) && k < |c.q.refused|
    ensures InPlace(NextCallRefused(c, k).q) && CallsAccounted(NextCallRefused(c, k).calls, c.q.tasks)
  {
    var id := c.q.refused[k];
    assert id in c.q.refused && WasRefused(id, c.q.tasks);
    CallAdded(c.calls, c.q.tasks, id, Invocation(Canceled, c.state.ShutDown?, OnTheSpot));
    assert forall x :: x in RunRefused(c.q, k).refused ==> x in c.q.refused;
  }

  lemma {:induction false} WrapperCallAccounted(c: Channel, i: nat, status: Status)
    requires InPlace(c.q) && CallsAccounted(c.calls, c.q.tasks) && i < |c.q.thread|
    ensures InPlace(NextRunWrapper(c, i, status).q) && CallsAccounted(NextRunWrapper(c, i, status).calls, c.q.tasks)
  {
    var id := c.q.thread[i];
    assert id in c.q.thread && BelongsToThread(id, c.q.tasks);
    var call := Invocation(if c.state.ShutDown? then Canceled else status, c.state.ShutDown?, Wrapper(status));
    CallAdded(c.calls, c.q.tasks, id, call);
    assert forall x :: x in CallThread(c.q, i).thread ==> x in c.q.thread;
  }

  lemma {:induction false} DrainAccounted(c: Channel)
    requires Accounted(c) && c.drain.Draining? && c.q.batch != []
    ensures InPlace(NextDrainOne(c).q) && CallsAccounted(NextDrainOne(c).calls, c.q.tasks)
  {
    var id := c.q.batch[0];
    assert id in c.q.batch && BelongsToCross(id, c.q.tasks);
    assert forall x :: x in c.q.batch[1..] ==> x in c.q.batch;
    if c.drain.status.Canceled? || !IsFuture(c.q, id) {
      var call := Invocation(c.drain.status, c.state.ShutDown?, FromBatch(c.drain.given, c.drain.late));
      CallAdded(c.calls, c.q.tasks, id, call);
    } else {
      assert forall x :: x in DeferBatch(c.q).thread ==> x in c.q.thread || x == id;
    }
  }

  lemma {:induction false} RegistrationAccounted(c: Channel, a: Action)
    requires Accounted(c) && (a.RegisterInLoop? || a.RegisterCross?)
    ensures InPlace(Next(c, a).q) && CallsAccounted(Next(c, a).calls, Next(c, a).q.tasks)
  {
    if a.RegisterInLoop? {
      if c.state.ShutDown? {
        var r := Registration(Refused, a.future, true);
        TaskAdded(c.calls, c.q, r);
        RefusedCallAccounted(c.(q := Admit(c.q, r)), |c.q.refused|);
      } else {
        TaskAdded(c.calls, c.q, Registration(InLoop, a.future, false));
      }
    } else {
      TaskAdded(c.calls, c.q, Registration(if c.isShutDown then Refused else Queued, a.future, c.state.ShutDown?));
    }
  }

  lemma {:induction false} ControlAccounted(c: Channel, a: Action)
    requires InPlace(c.q) && CallsAccounted(c.calls, c.q.tasks) && Enabled(c, a)
    requires !a.RegisterInLoop? && !a.RegisterCross? && !a.CallRefused?
    requires !a.RunWrapper? && !a.CancelFront? && !a.DrainOne?
    ensures InPlace(Next(c, a).q) && CallsAccounted(Next(c, a).calls, Next(c, a).q.tasks)
  {
  }

  lemma {:induction false} NextIsAccounted(c: Channel, a: Action)
    requires Accounted(c) && Enabled(c, a)
    ensures InPlace(Next(c, a).q) && CallsAccounted(Next(c, a).calls, Next(c, a).q.tasks)
  {
    match a {
      case RegisterInLoop(_) => RegistrationAccounted(c, a);
      case RegisterCross(_) => RegistrationAccounted(c, a);
      case CallRefused(k) => RefusedCallAccounted(c, k);
      case RunWrapper(i, status) => WrapperCallAccounted(c, i, status);
      case CancelFront => WrapperCallAccounted(c, 0, Canceled);
      case DrainOne => DrainAccounted(c);
      case _ => ControlAccounted(c, a);
    }
  }

  lemma {:induction false} StepKeepsAccounted(c: Channel, d: Channel)
    requires Accounted(c) && Step(c, d)
    ensures Accounted(d)
  {
    var a :| Enabled(c, a) && d == Next(c, a);
    StepKeepsInv(c, d);
    NextIsAccounted(c, a);
  }

  lemma {:induction false} ReachableAccounted(c: Channel)
    requires Reachable(Init, Step, c)
    ensures Accounted(c)
  {
    forall s | Init(s) ensures Accounted(s) {
      assert s.q.Everywhere() == multiset{};
    }
    forall s, t | Accounted(s) && Step(s, t) ensures Accounted(t) {
      StepKeepsAccounted(s, t);
    }
    ReachableInvariant(Init, Step, Accounted, c);
  }

  /** In every run each call is made by the part of the code that is responsible for the task, with the status that this
      part was given, canceled if the channel was shut down. In particular a task for a later time is never called by
      the drain of a batch, unless to cancel it, and only a channel that is shut down turns tasks away. */
  lemma {:induction false} EveryCallIsAccountedFor(c: Channel, id: nat)
    requires Reachable(Init, Step, c)
    ensures id in c.calls ==> id < |c.q.tasks| && Accounts(c.q.tasks[id], c.calls[id])
    ensures id in c.calls && c.calls[id].origin.FromBatch? && c.q.tasks[id].future ==> c.calls[id].status.Canceled?
    ensures id < |c.q.tasks| && c.q.tasks[id].path.Refused? ==> c.q.tasks[id].afterShutDown
  {
    ReachableAccounted(c);
    if id in c.calls {
      assert CallAccounted(c.calls, c.q.tasks, id);
    }
    if id < |c.q.tasks| {
      assert RegisteredFairly(c.q.tasks[id]);
    }
  }

  /** What the drain does with the front of a ready batch: a task for a later time goes to the back of the event-loop
      list, with a wrapper, and nothing is called; any other task is called. A canceled batch calls every task. */
  lemma {:induction false} DrainDefersExactlyFutureTasks(c: Channel)
    requires Reachable(Init, Step, c) && Enabled(c, DrainOne)
    ensures var d, id := Next(c, DrainOne), c.q.batch[0];
            && id < |c.q.tasks| && d.q.batch == c.q.batch[1..] && d.q.cross == c.q.cross && d.q.tasks == c.q.tasks
            && (if c.drain.status.RunReady? && c.q.tasks[id].future then
                  d.calls == c.calls && d.q.log == c.q.log && d.q.thread == c.q.thread + [id] && id in d.q.wrappers
                else
                  && id !in c.calls && id in d.calls && d.q.log == c.q.log + [id] && d.q.thread == c.q.thread
                  && d.calls[id].status == c.drain.status)
  {
    ReachableInv(c);
    KnownIds(c.q);
    assert c.q.batch[0] in c.q.batch;
  }

  /** A task is let in exactly when the channel is not shut down, as seen by the thread that brings it, and goes to the
      back of the list of that thread; otherwise it is turned away. */
  lemma {:induction false} RegistrationGoesWhere(c: Channel, future: bool)
    requires Reachable(Init, Step, c)
    ensures var d, id := Next(c, RegisterInLoop(future)), |c.q.tasks|;
            && |d.q.tasks| == id + 1 && d.q.tasks[id].future == future && d.q.cross == c.q.cross
            && (if c.state.ShutDown? then id in d.calls && d.calls[id].status.Canceled? && d.q.thread == c.q.thread
                else d.calls == c.calls && d.q.thread == c.q.thread + [id] && id in d.q.wrappers)
    ensures var d, id := Next(c, RegisterCross(future)), |c.q.tasks|;
            && |d.q.tasks| == id + 1 && d.q.tasks[id].future == future && d.q.thread == c.q.thread
            && d.calls == c.calls
            && (if c.isShutDown then d.q.refused == c.q.refused + [id] && d.q.cross == c.q.cross
                else d.q.cross == c.q.cross + [id] && d.q.refused == c.q.refused)
  {
    ReachableInv(c);
    var before := c.q.refused;
    assert before == (before + [|c.q.tasks|])[..|before|] + (before + [|c.q.tasks|])[|before| + 1..];
  }

  /** A wrapper that runs calls its own task, with the status it was given while the channel is up and as canceled once
      it is shut down; the shutdown cancels the event-loop list from the front. */
  lemma {:induction false} WrapperCallsItsTask(c: Channel, a: Action)
    requires Reachable(Init, Step, c) && Enabled(c, a) && (a.RunWrapper? || a.CancelFront?)
    ensures var d, i := Next(c, a), if a.RunWrapper? then a.index else 0;
            var id := c.q.thread[i];
            && d.q.thread == c.q.thread[..i] + c.q.thread[i + 1..] && id !in d.q.thread
            && id !in c.calls && id in d.calls
            && d.calls[id].status == if c.state.ShutDown? || a.CancelFront? then Canceled else a.status
  {
    ReachableInv(c);
    KnownIds(c.q);
    var i := if a.RunWrapper? then a.index else 0;
    assert c.q.thread[i] in c.q.thread;
    assert c.q.Everywhere()[c.q.thread[i]] <= 1;
    RemoveUnique(c.q.thread, i);
  }

  /** The scheduling task is pending, or has started and is about to take the list, exactly while the
      cross-thread list holds something; it is never pending twice. */
  lemma {:induction false} NoLostWakeUp(c: Channel)
    requires Reachable(Init, Step, c)
    ensures c.q.cross != [] <==> c.schedulingTask > 0 || c.drain.Starting?
    ensures c.schedulingTask <= 1 && (c.drain.Starting? ==> c.schedulingTask == 0)
  {
    ReachableInv(c);
  }

  /** "Now" tasks of the cross-thread list are called in the order they were pushed: those called, those in
      the current batch and those still on the list make up all pushes, in this order. */
  lemma {:induction false} CrossThreadTasksRunInPushOrder(c: Channel)
    requires Reachable(Init, Step, c)
    ensures NowQueued(c.q.log, c.q.tasks) <= Pushed(c.q.tasks)
    ensures NowQueued(c.q.log, c.q.tasks) + NowQueued(c.q.batch, c.q.tasks) + NowQueued(c.q.cross, c.q.tasks)
         == Pushed(c.q.tasks)
  {
    ReachableInv(c);
  }

  function RunAll(c: Channel, actions: seq<Action>): Channel
    decreases |actions|
  {
    if actions == [] then c
    else RunAll(if Enabled(c, actions[0]) then Next(c, actions[0]) else c, actions[1..])
  }

  lemma {:induction false} RunAllReaches(c: Channel, actions: seq<Action>)
    ensures Reaches(Step, c, RunAll(c, actions))
    decreases |actions|
  {
    ReachesRefl(Step, c);
    if actions != [] && Enabled(c, actions[0]) {
      assert Step(c, Next(c, actions[0]));
      ReachesStep(Step, c, c, Next(c, actions[0]));
      RunAllReaches(Next(c, actions[0]), actions[1..]);
      ReachesTrans(Step, c, Next(c, actions[0]), RunAll(c, actions));
    } else if actions != [] {
      RunAllReaches(c, actions[1..]);
    }
  }

  /** Two "now" tasks from other threads wait on the list. */
  lemma {:induction false} TwoPushed() returns (c: Channel)
    ensures Reachable(Init, Step, c)
    ensures var r := Registration(Queued, false, false);
            c == Channel(Queues([], {}, [0, 1], [], [], [], [r, r]), SettingUp, false, 1, NoDrain, NotScheduled, map[])
  {
    var start := Channel(Queues([], {}, [], [], [], [], []), SettingUp, false, 0, NoDrain, NotScheduled, map[]);
    c := RunAll(start, [RegisterCross(false), RegisterCross(false)]);
    RunAllReaches(start, [RegisterCross(false), RegisterCross(false)]);
    assert Init(start);
  }

  /** The first of the two has been called by the drain. */
  lemma {:induction false} HalfDrainedBatch() returns (c: Channel)
    ensures Reachable(Init, Step, c)
    ensures c.q.batch == [1] && c.q.tasks == [Registration(Queued, false, false), Registration(Queued, false, false)]
    ensures c.state.SettingUp? && c.drain == Draining(RunReady, RunReady, false)
    ensures c.calls == map[0 := Invocation(RunReady, false, FromBatch(RunReady, false))]
  {
    var pushed := TwoPushed();
    c := RunAll(pushed, [StartDrain(RunReady), Swap, DrainOne]);
    RunAllReaches(pushed, [StartDrain(RunReady), Swap, DrainOne]);
    var start :| Init(start) && Reaches(Step, start, pushed);
    ReachesTrans(Step, start, pushed, c);
  }

  /** The exception above is real: a task can run as ready on a channel that is shut down, when an earlier
      task of its batch shut the channel down. */
  lemma {:induction false} OpenBatchMayRunReadyAfterShutDown() returns (c: Channel)
    ensures Reachable(Init, Step, c) && c.state.ShutDown?
    ensures c.calls == map[0 := Invocation(RunReady, false, FromBatch(RunReady, false)),
                           1 := Invocation(RunReady, true, FromBatch(RunReady, false))]
  {
    var half := HalfDrainedBatch();
    c := RunAll(half, [BeginShutdown, MarkShutDown, DrainOne]);
    RunAllReaches(half, [BeginShutdown, MarkShutDown, DrainOne]);
    var start :| Init(start) && Reaches(Step, start, half);
    ReachesTrans(Step, start, half, c);
  }

  // ----- The code that walks the lists -----

  class TaskChannel {
    var threadTasks: seq<nat>
    var wrappers: set<nat>
    var crossTasks: seq<nat>
    var batch: seq<nat>
    var refused: seq<nat>
    var log: seq<nat>
    var tasks: seq<Registration>
    var state: ChannelState
    var isShutDown: bool
    var schedulingTask: nat
    var drain: Drain
    var completion: Completion
    var calls: map<nat, Invocation>

    function View(): Channel
      reads this
    {
      Channel(Queues(threadTasks, wrappers, crossTasks, batch, refused, log, tasks),
              state, isShutDown, schedulingTask, drain, completion, calls)
    }

    constructor ()
      ensures Init(View())
    {
      threadTasks, wrappers, crossTasks, batch, refused, log, tasks := [], {}, [], [], [], [], [];
      state, isShutDown, schedulingTask, drain, completion, calls := SettingUp, false, 0, NoDrain, NotScheduled, map[];
    }

    method CallTask(id: nat, status: Status, origin: Origin)
      modifies this`log, this`calls
      ensures View() == Record(old(View()), old(View()).q.(log := old(log) + [id]), id, status, origin)
    {
      log := log + [id];
      calls := calls[id := Invocation(status, state.ShutDown?, origin)];
    }

    method RegisterPendingTaskInEventLoop(future: bool)
      modifies this
      ensures View() == NextRegisterInLoop(old(View()), future)
    {
      var id := |tasks|;
      if state.ShutDown? {
        tasks := tasks + [Registration(Refused, future, true)];
        CallTask(id, Canceled, OnTheSpot);
        assert refused == (refused + [id])[..|refused|] + (refused + [id])[|refused| + 1..];
        return;
      }
      tasks := tasks + [Registration(InLoop, future, false)];
      threadTasks := threadTasks + [id];
      wrappers := wrappers + {id};
    }

    /** The critical section of s_register_pending_task_cross_thread. */
    method EnterCrossThread(future: bool) returns (shouldCancelTask: bool)
      modifies this
      ensures View() == NextRegisterCross(old(View()), future) && shouldCancelTask == old(isShutDown)
    {
      var id := |tasks|;
      shouldCancelTask := isShutDown;
      tasks := tasks + [Registration(if isShutDown then Refused else Queued, future, state.ShutDown?)];
      if shouldCancelTask {
        refused := refused + [id];
      } else {
        var listWasEmpty := crossTasks == [];
        crossTasks := crossTasks + [id];
        if listWasEmpty {
          schedulingTask := schedulingTask + 1;
        }
      }
    }

    method RunRefusedTask(k: nat)
      requires k < |refused|
      modifies this
      ensures View() == NextCallRefused(old(View()), k)
    {
      var id := refused[k];
      refused := refused[..k] + refused[k + 1..];
      CallTask(id, Canceled, OnTheSpot);
    }

    /** s_register_pending_task_cross_thread: a task that comes too late is run after the lock has been given up, so
        that the event loop and other threads may act in between. */
    method RegisterPendingTaskCrossThread(future: bool) returns (id: nat)
      requires Inv(View())
      modifies this
      ensures Inv(View()) && Reaches(Step, old(View()), View()) && id == |old(tasks)|
      ensures old(isShutDown) ==> id in log && id in calls && calls[id].status.Canceled?
      ensures !old(isShutDown) ==> crossTasks == old(crossTasks) + [id] && (schedulingTask > 0 || drain.Starting?)
    {
      id := |tasks|;
      var shouldCancelTask := EnterCrossThread(future);
      assert View() == Next(old(View()), RegisterCross(future));
      ReachesRefl(Step, old(View()));
      StepTaken(old(View()), old(View()), RegisterCross(future));
      if shouldCancelTask {
        ghost var entered := View();
        Others(id);
        ReachesTrans(Step, old(View()), entered, View());
        var k :| 0 <= k < |refused| && refused[k] == id;
        StepTaken(old(View()), View(), CallRefused(k));
        RunRefusedTask(k);
      }
    }

    /** A step of the event loop or of some other thread. */
    method AnyStep(a: Action)
      requires Enabled(View(), a)
      modifies this
      ensures View() == Next(old(View()), a)
    {
      var c := Next(View(), a);
      threadTasks, wrappers, crossTasks, batch := c.q.thread, c.q.wrappers, c.q.cross, c.q.batch;
      refused, log, tasks, state, isShutDown := c.q.refused, c.q.log, c.q.tasks, c.state, c.isShutDown;
      schedulingTask, drain, completion, calls := c.schedulingTask, c.drain, c.completion, c.calls;
    }

    /** What everybody else may do while a thread has yet to run task `id`, which was turned away. */
    method Others(id: nat)
      requires Inv(View()) && id in refused
      modifies this
      ensures Inv(View()) && Reaches(Step, old(View()), View()) && id in refused
    {
      var budget: nat := *;
      ReachesRefl(Step, View());
      while budget > 0
        invariant Inv(View()) && Reaches(Step, old(View()), View()) && id in refused
      {
        var a: Action := *;
        if Enabled(View(), a) && !RunsRefused(View(), a, id) {
          OthersSpareRefused(View(), a, id);
          StepTaken(old(View()), View(), a);
          AnyStep(a);
        }
        budget := budget - 1;
      }
    }

    method ChannelTaskRun(i: nat, taskStatus: Status)
      requires i < |threadTasks|
      modifies this
      ensures View() == NextRunWrapper(old(View()), i, taskStatus)
    {
      var status := if state.ShutDown? then Canceled else taskStatus;
      var id := threadTasks[i];
      threadTasks := threadTasks[..i] + threadTasks[i + 1..];
      wrappers := wrappers - {id};
      CallTask(id, status, Wrapper(taskStatus));
    }

    method Act(a: Action)
      requires IsEnvironment(a) && Enabled(View(), a)
      modifies this
      ensures View() == Next(old(View()), a)
    {
      match a {
        case Setup => state := Active;
        case RegisterInLoop(future) => RegisterPendingTaskInEventLoop(future);
        case RegisterCross(future) => var _ := EnterCrossThread(future);
        case CallRefused(k) => RunRefusedTask(k);
        case BeginShutdown => state := ShuttingDown;
        case MarkShutDown => state := ShutDown;
        case SetFlag => isShutDown := true;
        case ScheduleNotify => completion := Scheduled;
      }
    }

    /** What code of the user and other threads may do while the loop thread is inside a call. */
    method UserCode()
      modifies this
      ensures Reaches(Step, old(View()), View())
      ensures drain == old(drain) && batch == old(batch)
      ensures completion == old(completion) || old(completion).NotScheduled?
      ensures old(state).ShutDown? ==> state.ShutDown? && threadTasks == old(threadTasks)
      ensures old(isShutDown) ==>
        isShutDown && crossTasks == old(crossTasks) && schedulingTask == old(schedulingTask)
    {
      var budget: nat := *;
      ReachesRefl(Step, View());
      while budget > 0
        invariant Reaches(Step, old(View()), View())
        invariant drain == old(drain) && batch == old(batch)
        invariant completion == old(completion) || old(completion).NotScheduled?
        invariant old(state).ShutDown? ==> state.ShutDown? && threadTasks == old(threadTasks)
        invariant old(isShutDown) ==>
          isShutDown && crossTasks == old(crossTasks) && schedulingTask == old(schedulingTask)
      {
        var a: Action := *;
        if IsEnvironment(a) && Enabled(View(), a) {
          ghost var before := View();
          Act(a);
          TookStep(before, a);
          ReachesStep(Step, old(View()), before, View());
        }
        budget := budget - 1;
      }
    }

    /** One turn of the drain: run the front task, or hand it to the event loop. */
    method DrainFront(status: Status)
      requires drain.Draining? && drain.status == status && batch != []
      modifies this
      ensures Reaches(Step, old(View()), View())
      ensures drain == old(drain) && batch == old(batch)[1..]
      ensures completion == old(completion) || old(completion).NotScheduled?
    {
      var id := batch[0];
      batch := batch[1..];
      if !(id < |tasks| && tasks[id].future) || status.Canceled? {
        CallTask(id, status, FromBatch(drain.given, drain.late));
        assert View() == Next(old(View()), DrainOne);
        StepReaches(old(View()), View());
        ghost var called := View();
        UserCode();
        ReachesTrans(Step, old(View()), called, View());
      } else {
        threadTasks := threadTasks + [id];
        wrappers := wrappers + {id};
        assert View() == Next(old(View()), DrainOne);
        StepReaches(old(View()), View());
      }
    }

    /** s_schedule_cross_thread_tasks: take the whole list under the lock, then work through it. */
    method ScheduleCrossThreadTasks()
      requires drain.Starting?
      modifies this
      ensures Reaches(Step, old(View()), View())
      ensures drain.NoDrain?
      ensures completion == old(completion) || old(completion).NotScheduled?
    {
      UserCode();
      ghost var before := View();
      batch, crossTasks := crossTasks, [];
      var status := if state.ShutDown? then Canceled else drain.status;
      drain := Draining(status, drain.status, state.ShutDown?);
      assert View() == Next(before, Swap);
      ReachesStep(Step, old(View()), before, View());
      while batch != []
        invariant drain.Draining? && drain.status == status
        invariant Reaches(Step, old(View()), View())
        invariant completion == old(completion) || old(completion).NotScheduled?
        decreases |batch|
      {
        before := View();
        DrainFront(status);
        ReachesTrans(Step, old(View()), before, View());
      }
      before := View();
      drain := NoDrain;
      assert View() == Next(before, EndDrain);
      ReachesStep(Step, old(View()), before, View());
    }

    /** The first half of s_on_shutdown_completion_task: the event-loop list is canceled from the front. */
    method CancelThreadTasks()
      requires completion.Canceling? && state.ShutDown?
      modifies this
      ensures Reaches(Step, old(View()), View())
      ensures completion.Canceling? && threadTasks == [] && drain == old(drain)
    {
      ReachesRefl(Step, View());
      while threadTasks != []
        invariant completion.Canceling? && state.ShutDown? && drain == old(drain)
        invariant Reaches(Step, old(View()), View())
        decreases |threadTasks|
      {
        ghost var before := View();
        ChannelTaskRun(0, Canceled);
        assert View() == Next(before, CancelFront);
        ReachesStep(Step, old(View()), before, View());
        before := View();
        UserCode();
        ReachesTrans(Step, old(View()), before, View());
      }
    }

    /** The second half: what other threads queued is drained by running the scheduling task as canceled. */
    method CancelCrossTasks()
      requires completion.Canceling? && drain.NoDrain? && threadTasks == []
      requires WakeUpPending(View())
      modifies this
      ensures Reaches(Step, old(View()), View())
      ensures drain.NoDrain?
      ensures completion.DrainingCross? || (completion.Canceling? && threadTasks == [] && crossTasks == [])
    {
      if crossTasks == [] {
        ReachesRefl(Step, View());
        return;
      }
      schedulingTask, drain, completion := schedulingTask - 1, Starting(Canceled), DrainingCross;
      assert View() == Next(old(View()), CheckCross);
      StepReaches(old(View()), View());
      ghost var started := View();
      ScheduleCrossThreadTasks();
      ReachesTrans(Step, old(View()), started, View());
    }

    /** s_on_shutdown_completion_task: cancel everything that is left, then notify. */
    method OnShutdownCompletionTask()
      requires Inv(View()) && completion.Scheduled? && drain.NoDrain?
      modifies this
      ensures Reaches(Step, old(View()), View())
      ensures completion.Fired? && threadTasks == [] && crossTasks == [] && schedulingTask == 0
      ensures forall id: nat :: id < |tasks| && !tasks[id].path.Refused? ==> multiset(log)[id] == 1
    {
      completion := Canceling;
      assert View() == Next(old(View()), StartCompletion);
      StepReaches(old(View()), View());
      ghost var before := View();
      CancelThreadTasks();
      ReachesTrans(Step, old(View()), before, View());
      InvAlong(old(View()), View());
      before := View();
      CancelCrossTasks();
      ReachesTrans(Step, old(View()), before, View());
      before := View();
      completion := Fired;
      assert View() == Next(before, Fire);
      ReachesStep(Step, old(View()), before, View());
      FiredMeansAllCalled(old(View()), View());
    }
  }

  lemma {:induction false} StepReaches(c: Channel, d: Channel)
    requires Step(c, d)
    ensures Reaches(Step, c, d)
  {
    ReachesRefl(Step, c);
    ReachesStep(Step, c, c, d);
  }

  lemma {:induction false} InvAlong(c: Channel, d: Channel)
    requires Inv(c) && Reaches(Step, c, d)
    ensures Inv(d)
  {
    forall s, t | Inv(s) && Step(s, t) ensures Inv(t) {
      StepKeepsInv(s, t);
    }
    Invariance(Step, Inv, c, d);
  }

  lemma {:induction false} FiredMeansAllCalled(c: Channel, d: Channel)
    requires Inv(c) && Reaches(Step, c, d) && d.completion.Fired?
    ensures d.q.thread == [] && d.q.cross == [] && d.schedulingTask == 0
    ensures forall id: nat :: id < |d.q.tasks| && !d.q.tasks[id].path.Refused? ==> multiset(d.q.log)[id] == 1
  {
    InvAlong(c, d);
    forall id: nat | id < |d.q.tasks| && !d.q.tasks[id].path.Refused? ensures multiset(d.q.log)[id] == 1 {
      OnlyRefusedIsLeft(d, id);
    }
  }

  lemma {:induction false} TookStep(c: Channel, a: Action)
    requires Enabled(c, a)
    ensures Step(c, Next(c, a))
  {
  }

  predicate RunsRefused(c: Channel, a: Action, id: nat)
    requires Enabled(c, a)
  {
    a.CallRefused? && c.q.refused[a.index] == id
  }

  lemma {:induction false} OthersSpareRefused(c: Channel, a: Action, id: nat)
    requires Enabled(c, a) && id in c.q.refused && !RunsRefused(c, a, id)
    ensures id in Next(c, a).q.refused
  {
    var j :| 0 <= j < |c.q.refused| && c.q.refused[j] == id;
    if a.CallRefused? {
      var k := a.index;
      assert Next(c, a).q.refused[if j < k then j else j - 1] == id;
    } else if a.RegisterInLoop? || a.RegisterCross? {
      assert Next(c, a).q.refused[j] == id;
    }
  }

  /** One more step of a run. */
  lemma {:induction false} StepTaken(c: Channel, d: Channel, a: Action)
    requires Inv(c) && Reaches(Step, c, d) && Enabled(d, a)
    ensures Reaches(Step, c, Next(d, a)) && Inv(Next(d, a))
  {
    assert Step(d, Next(d, a));
    ReachesStep(Step, c, d, Next(d, a));
    InvAlong(c, Next(d, a));
  }
}
