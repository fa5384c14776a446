/** The two-direction shutdown handshake of a channel (source/channel.c).

Any thread may ask for a shutdown; only the first request is kept. The shutdown task asks the first slot's
handler to shut down in the read direction. Each handler reports when it is done, at once or much later, and
the report passes the request on: to the right in the read direction, then through one event-loop task to the
left in the write direction, and from the first slot to SHUT_DOWN and the user's notification.
*/
module ChannelShutdown {
  import opened Traces
  import opened Basics
  import opened ChannelTasks

  datatype Direction = Read | Write

  /** A handler asked to shut down. */
  datatype Visit = Visit(dir: Direction, slot: nat, code: int)

  /** `slots[i]` says whether slot `i`, counted from the left, has a handler. */
  datatype Handshake = Handshake(
    slots: seq<bool>,
    state: ChannelState,
    isShutDown: bool,
    request: Option<int>,          // the error code of the request that was kept
    claimed: bool,                 // that request has yet to schedule the shutdown task
    shutdownTask: nat,             // pending runs of the shutdown task
    busy: bool,                    // the handler visited last has yet to report
    writeTask: Option<Visit>,      // pending s_run_shutdown_write_direction
    notifyTask: Option<int>,       // pending s_on_shutdown_completion_task
    visits: seq<Visit>,
    reports: seq<int>,             // code reported for each visit that is over
    notified: seq<int>)

  datatype Move =
    | Request(code: int)
    | Schedule
    | RunShutdownTask
    | Report(code: int)
    | RunWriteTask
    | RunNotify

  predicate Start(h: Handshake) {
    && (h.state.SettingUp? || h.state.Active?)
    && h == Handshake(h.slots, h.state, false, None, false, 0, false, None, None, [], [], [])
    && (h.slots != [] ==> h.slots[0])
  }

  predicate Allowed(h: Handshake, m: Move) {
    match m
    case Request(_) => true
    case Schedule => h.claimed
    case RunShutdownTask => h.shutdownTask > 0
    case Report(_) => h.busy && h.visits != []
    case RunWriteTask => h.writeTask.Some?
    case RunNotify => h.notifyTask.Some?
  }

  function Ask(h: Handshake, v: Visit): Handshake {
    h.(busy := true, visits := h.visits + [v])
  }

  function Finish(h: Handshake, code: int): Handshake {
    h.(state := ShutDown, isShutDown := true, notifyTask := Some(code))
  }

  function HandlerAt(h: Handshake, i: int): bool {
    0 <= i < |h.slots| && h.slots[i]
  }

  function AfterRequest(h: Handshake, code: int): Handshake {
    if h.request.Some? then h else h.(request := Some(code), claimed := true)
  }

  function AfterShutdownTask(h: Handshake): Handshake
    requires h.shutdownTask > 0
  {
    var g := h.(shutdownTask := h.shutdownTask - 1);
    if (!h.state.SettingUp? && !h.state.Active?) || h.request.None? then g
    else if h.slots != [] then Ask(g.(state := ShuttingDown), Visit(Read, 0, h.request.value))
    else Finish(g, h.request.value)
  }

  function AfterReport(h: Handshake, code: int): Handshake
    requires h.visits != []
  {
    var v := h.visits[|h.visits| - 1];
    var g := h.(busy := false, reports := h.reports + [code]);
    if h.state.ShutDown? then g
    else if v.dir.Read? then
      if HandlerAt(h, v.slot + 1) then Ask(g, Visit(Read, v.slot + 1, code))
      else g.(writeTask := Some(Visit(Write, v.slot, code)))
    else
      if HandlerAt(h, v.slot - 1) then Ask(g, Visit(Write, v.slot - 1, code))
      else if v.slot == 0 then Finish(g, code)
      else g
  }

  function After(h: Handshake, m: Move): Handshake
    requires Allowed(h, m)
  {
    match m
    case Request(code) => AfterRequest(h, code)
    case Schedule => h.(claimed := false, shutdownTask := h.shutdownTask + 1)
    case RunShutdownTask => AfterShutdownTask(h)
    case Report(code) => AfterReport(h, code)
    case RunWriteTask => Ask(h.(writeTask := None), h.writeTask.value)
    case RunNotify => h.(notifyTask := None, notified := h.notified + [h.notifyTask.value])
  }

  ghost predicate Moves(h: Handshake, g: Handshake) {
    exists m :: Allowed(h, m) && g == After(h, m)
  }

  // ----- The script -----

  /** How many slots, from the left, have handlers without a gap: the chain that takes part. */
  function Chain(slots: seq<bool>): nat {
    if slots == [] || !slots[0] then 0 else 1 + Chain(slots[1..])
  }

  lemma ChainEnds(slots: seq<bool>)
    ensures Chain(slots) <= |slots|
    ensures forall i :: 0 <= i < Chain(slots) ==> slots[i]
    ensures Chain(slots) < |slots| ==> !slots[Chain(slots)]
  {
  }

  /** The k-th handler asked in a chain of `n`: left to right for reading, then right to left for writing. */
  function ScriptDir(n: nat, k: nat): Direction {
    if k < n then Read else Write
  }

  function ScriptSlot(n: nat, k: nat): int {
    if k < n then k else 2 * n - 1 - k
  }

  predicate OnScript(v: Visit, n: nat, k: nat) {
    v.dir == ScriptDir(n, k) && v.slot == ScriptSlot(n, k)
  }

  ghost predicate FollowsScript(h: Handshake) {
    var n := Chain(h.slots);
    && |h.visits| <= 2 * n
    && (forall k :: 0 <= k < |h.visits| ==> OnScript(h.visits[k], n, k))
  }

  /** Every visit carries the code reported for the one before, the first one the code requested. */
  ghost predicate CodesPassedOn(h: Handshake) {
    && |h.reports| == |h.visits| - (if h.busy then 1 else 0)
    && (h.visits != [] ==> h.request.Some? && h.visits[0].code == h.request.value)
    && (forall k :: 0 < k < |h.visits| ==> h.visits[k].code == h.reports[k - 1])
  }

  /** The code the handshake ends with. */
  function FinalCode(h: Handshake): int
    requires h.request.Some?
  {
    if h.reports == [] then h.request.value else h.reports[|h.reports| - 1]
  }

  ghost predicate ControlFits(h: Handshake) {
    var n := Chain(h.slots);
    && (h.request.None? ==> !h.claimed && h.shutdownTask == 0 && !h.state.ShuttingDown? && !h.state.ShutDown?)
    && h.isShutDown == h.state.ShutDown?
    && (match h.state
        case ShuttingDown =>
          && !h.claimed && h.shutdownTask == 0 && h.notifyTask.None? && h.notified == []
          && h.busy == h.writeTask.None? && h.visits != []
          && (h.writeTask.Some? ==>
            |h.visits| == n && OnScript(h.writeTask.value, n, n) && h.writeTask.value.code == FinalCode(h))
        case ShutDown =>
          && !h.claimed && h.shutdownTask == 0 && !h.busy && h.writeTask.None? && |h.visits| == 2 * n
          && (if h.notifyTask.Some? then [h.notifyTask.value] else []) + h.notified == [FinalCode(h)]
        case _ =>
          && (h.request.Some? ==> (if h.claimed then 1 else 0) + h.shutdownTask == 1)
          && !h.busy && h.writeTask.None? && h.notifyTask.None? && h.notified == [] && h.visits == [])
  }

  ghost predicate HandshakeInv(h: Handshake) {
    && (h.slots != [] ==> h.slots[0])
    && FollowsScript(h) && CodesPassedOn(h) && ControlFits(h)
  }

  lemma {:induction false} ReportFollowsScript(h: Handshake, code: int)
    requires HandshakeInv(h) && h.busy && h.visits != []
    ensures FollowsScript(AfterReport(h, code)) && CodesPassedOn(AfterReport(h, code))
  {
    ChainEnds(h.slots);
    var k := |h.visits| - 1;
    assert OnScript(h.visits[k], Chain(h.slots), k);
  }

  lemma {:induction false} ReportFitsControl(h: Handshake, code: int)
    requires HandshakeInv(h) && h.busy && h.visits != []
    ensures ControlFits(AfterReport(h, code))
  {
    ChainEnds(h.slots);
    var k := |h.visits| - 1;
    assert OnScript(h.visits[k], Chain(h.slots), k);
  }

  lemma {:induction false} ShutdownTaskKeepsInv(h: Handshake)
    requires HandshakeInv(h) && h.shutdownTask > 0
    ensures HandshakeInv(AfterShutdownTask(h))
  {
    ChainEnds(h.slots);
  }

  lemma {:induction false} WriteTaskKeepsInv(h: Handshake)
    requires HandshakeInv(h) && h.writeTask.Some?
    ensures HandshakeInv(After(h, RunWriteTask))
  {
  }

  lemma {:induction false} NotifyKeepsInv(h: Handshake)
    requires HandshakeInv(h) && h.notifyTask.Some?
    ensures HandshakeInv(After(h, RunNotify))
  {
  }

  lemma {:induction false} MoveKeepsInv(h: Handshake, g: Handshake)
    requires HandshakeInv(h) && Moves(h, g)
    ensures HandshakeInv(g)
  {
    var m :| Allowed(h, m) && g == After(h, m);
    match m {
      case Report(code) =>
        ReportFollowsScript(h, code);
        ReportFitsControl(h, code);
      case RunShutdownTask => ShutdownTaskKeepsInv(h);
      case RunWriteTask => WriteTaskKeepsInv(h);
      case RunNotify => NotifyKeepsInv(h);
      case _ =>
    }
  }

  lemma {:induction false} HandshakeReachableInv(h: Handshake)
    requires Reachable(Start, Moves, h)
    ensures HandshakeInv(h)
  {
    forall s, t | HandshakeInv(s) && Moves(s, t) ensures HandshakeInv(t) {
      MoveKeepsInv(s, t);
    }
    ReachableInvariant(Start, Moves, HandshakeInv, h);
  }

  /** Between the first request and the scheduling of its task there are only further requests, which change nothing. */
  lemma {:induction false} NothingElseMoves(h: Handshake, m: Move)
    requires HandshakeInv(h) && h.claimed && Allowed(h, m) && !m.Schedule?
    ensures After(h, m) == h
  {
  }

  // ----- What every run of the handshake does -----

  /** Handlers are asked once each from left to right to stop reading, then once each from right to left to
      stop writing; SHUT_DOWN is reached exactly when all of this is over. */
  lemma {:induction false} EverySlotShutDownOnceEachWay(h: Handshake, i: nat)
    requires Reachable(Start, Moves, h) && i < Chain(h.slots)
    ensures forall k :: 0 <= k < |h.visits| && h.visits[k].slot == i ==>
      h.visits[k].dir == (if k == i then Read else Write) && (k == i || k == 2 * Chain(h.slots) - 1 - i)
    ensures h.state.ShutDown? ==>
      |h.visits| == 2 * Chain(h.slots) && h.visits[i].slot == i && h.visits[2 * Chain(h.slots) - 1 - i].slot == i
  {
    HandshakeReachableInv(h);
    var n := Chain(h.slots);
    forall k | 0 <= k < |h.visits| && h.visits[k].slot == i
      ensures h.visits[k].dir == (if k == i then Read else Write) && (k == i || k == 2 * n - 1 - i)
    {
      assert OnScript(h.visits[k], n, k);
    }
    if h.state.ShutDown? {
      assert OnScript(h.visits[i], n, i) && OnScript(h.visits[2 * n - 1 - i], n, 2 * n - 1 - i);
    }
  }

  /** Handlers that report the code they were given. */
  ghost predicate PassThrough(h: Handshake) {
    forall k :: 0 <= k < |h.reports| && k < |h.visits| ==> h.reports[k] == h.visits[k].code
  }

  lemma {:induction false} SameCodeThroughout(h: Handshake, k: nat)
    requires CodesPassedOn(h) && PassThrough(h) && k < |h.visits|
    ensures h.request.Some? && h.visits[k].code == h.request.value
  {
    if k > 0 {
      SameCodeThroughout(h, k - 1);
    }
  }

  /** The user is notified at most once, only after SHUT_DOWN, with the code the last handler reported; when
      handlers pass the code through, that is the code of the first request ever made. */
  lemma {:induction false} NotifiedOnceWithFirstCode(h: Handshake)
    requires Reachable(Start, Moves, h)
    ensures |h.notified| <= 1
    ensures h.notified != [] ==> h.state.ShutDown? && h.request.Some? && h.notified == [FinalCode(h)]
    ensures h.notified != [] && PassThrough(h) ==> h.notified == [h.request.value]
  {
    HandshakeReachableInv(h);
    if h.notified != [] && PassThrough(h) && h.visits != [] {
      SameCodeThroughout(h, |h.visits| - 1);
    }
  }

  predicate KeepsRequest(h: Handshake, g: Handshake) {
    && (h.request.Some? ==> g.request == h.request)
    && h.visits <= g.visits && h.notified <= g.notified
  }

  lemma {:induction false} ReportKeepsRequest(h: Handshake, code: int)
    requires h.visits != []
    ensures KeepsRequest(h, AfterReport(h, code))
  {
  }

  lemma {:induction false} MoveKeepsRequest(h: Handshake, g: Handshake)
    requires Moves(h, g)
    ensures KeepsRequest(h, g)
  {
    var m :| Allowed(h, m) && g == After(h, m);
    match m {
      case Request(_) =>
      case Report(code) => ReportKeepsRequest(h, code);
      case RunNotify => assert g.visits == h.visits;
      case _ => assert g.notified == h.notified && g.request == h.request;
    }
  }

  /** The first request is never replaced, however many follow, and nothing that happened is undone. */
  lemma {:induction false} FirstRequestKept(h: Handshake, g: Handshake)
    requires Reachable(Start, Moves, h) && Reaches(Moves, h, g)
    ensures h.request.Some? ==> g.request == h.request
    ensures h.visits <= g.visits && h.notified <= g.notified
  {
    HandshakeReachableInv(h);
    forall s, t | HandshakeInv(s) && Moves(s, t) ensures HandshakeInv(t) {
      MoveKeepsInv(s, t);
    }
    forall s, t | HandshakeInv(s) && Moves(s, t) ensures KeepsRequest(s, t) {
      MoveKeepsRequest(s, t);
    }
    ReachesBound(Moves, HandshakeInv, KeepsRequest, h, g);
  }

  /** How many moves, other than further requests, a requested shutdown is away from its end. */
  function Distance(h: Handshake): nat {
    var n := Chain(h.slots);
    if h.notified != [] then 0
    else if h.notifyTask.Some? then 1
    else if h.state.ShuttingDown? then
      if |h.visits| > 2 * n then 0 else 2 * (2 * n - |h.visits|) + (if h.writeTask.Some? then 1 else 2)
    else 4 * n + 3 + (if h.claimed then 1 else 0)
  }

  /** A requested shutdown never stalls, and every move but another request brings it closer to its end; so
      it ends once each handler reports, after at most 4n + 4 moves for a chain of n handlers. */
  lemma {:induction false} ShutdownMakesProgress(h: Handshake)
    requires Reachable(Start, Moves, h) && h.request.Some?
    ensures Distance(h) <= 4 * Chain(h.slots) + 4
    ensures h.notified != [] <==> Distance(h) == 0
    ensures h.notified == [] ==> exists m :: Allowed(h, m) && !m.Request?
    ensures forall m :: Allowed(h, m) && !m.Request? ==> Distance(After(h, m)) < Distance(h)
    ensures forall code: int :: AfterRequest(h, code) == h
  {
    HandshakeReachableInv(h);
    ChainEnds(h.slots);
    if h.notified == [] {
      var m := if h.claimed then Schedule else if h.shutdownTask > 0 then RunShutdownTask
               else if h.busy then Report(0) else if h.writeTask.Some? then RunWriteTask else RunNotify;
      assert Allowed(h, m);
    }
    forall m | Allowed(h, m) && !m.Request? ensures Distance(After(h, m)) < Distance(h) {
      if m.Report? {
        ReportComesCloser(h, m.code);
      }
    }
  }

  lemma {:induction false} ReportComesCloser(h: Handshake, code: int)
    requires HandshakeInv(h) && h.busy && h.visits != []
    ensures Distance(AfterReport(h, code)) < Distance(h)
  {
    ChainEnds(h.slots);
    var k := |h.visits| - 1;
    assert OnScript(h.visits[k], Chain(h.slots), k);
  }

  /** The handshake changes what the task queues see of the channel only the way they allow: the state goes
      from live to SHUTTING_DOWN to SHUT_DOWN, the flag follows SHUT_DOWN, the notification follows the flag. */
  lemma {:induction false} QueuesSeeLegalChanges(h: Handshake, g: Handshake)
    requires Reachable(Start, Moves, h) && Moves(h, g)
    ensures g.state == h.state
      || ((h.state.SettingUp? || h.state.Active?) && (g.state.ShuttingDown? || (g.state.ShutDown? && h.slots == [])))
      || (h.state.ShuttingDown? && g.state.ShutDown?)
    ensures g.isShutDown == g.state.ShutDown?
    ensures h.notifyTask.None? && g.notifyTask.Some? ==> !h.state.ShutDown? && g.state.ShutDown?
  {
    HandshakeReachableInv(h);
    MoveKeepsInv(h, g);
  }

  // ----- The code -----

  class ShutdownChannel {
    const slots: seq<bool>
    var state: ChannelState
    var isShutDown: bool
    var request: Option<int>
    var claimed: bool
    var shutdownTask: nat
    var busy: bool
    var writeTask: Option<Visit>
    var notifyTask: Option<int>
    var visits: seq<Visit>
    var reports: seq<int>
    var notified: seq<int>

    function View(): Handshake
      reads this
    {
      Handshake(slots, state, isShutDown, request, claimed, shutdownTask, busy, writeTask, notifyTask,
                visits, reports, notified)
    }

    constructor (slots: seq<bool>)
      requires slots != [] ==> slots[0]
      ensures this.slots == slots && Start(View())
    {
      this.slots := slots;
      state, isShutDown, request, claimed, shutdownTask := SettingUp, false, None, false, 0;
      busy, writeTask, notifyTask, visits, reports, notified := false, None, None, [], [], [];
    }

    /** What everybody else may do before the first caller has scheduled the task: as long as they try, nothing
        changes. */
    method Others()
      requires HandshakeInv(View()) && claimed
      modifies this
      ensures View() == old(View())
    {
      var budget: nat := *;
      while budget > 0
        invariant View() == old(View())
      {
        var m: Move := *;
        if Allowed(View(), m) && !m.Schedule? {
          NothingElseMoves(View(), m);
          var h := After(View(), m);
          state, isShutDown, request, claimed := h.state, h.isShutDown, h.request, h.claimed;
          shutdownTask, busy, writeTask, notifyTask := h.shutdownTask, h.busy, h.writeTask, h.notifyTask;
          visits, reports, notified := h.visits, h.reports, h.notified;
        }
        budget := budget - 1;
      }
    }

    /** aws_channel_shutdown: the critical section keeps the first request, the caller that made it schedules
        the task after the lock is released; other callers and the event loop may come in between. */
    method ChannelShutdown(code: int)
      requires HandshakeInv(View())
      modifies this
      ensures Reaches(Moves, old(View()), View())
      ensures request == if old(request).Some? then old(request) else Some(code)
      ensures old(request).Some? ==> View() == old(View())
      ensures old(request).None? ==> shutdownTask == old(shutdownTask) + 1
    {
      ghost var start := View();
      var needToSchedule := true;
      if request.Some? {
        needToSchedule := false;
      } else {
        request := Some(code);
        claimed := true;
      }
      assert View() == After(start, Request(code));
      ReachesRefl(Moves, start);
      ReachesStep(Moves, start, start, View());
      if needToSchedule {
        MoveKeepsInv(start, View());
        Others();
        ghost var before := View();
        claimed := false;
        shutdownTask := shutdownTask + 1;
        assert View() == After(before, Schedule);
        ReachesStep(Moves, start, before, View());
      }
    }

    method AskHandler(v: Visit)
      modifies this`busy, this`visits
      ensures View() == Ask(old(View()), v)
    {
      busy := true;
      visits := visits + [v];
    }

    method ShutdownTask()
      requires shutdownTask > 0 && request.Some?
      modifies this
      ensures View() == AfterShutdownTask(old(View()))
    {
      shutdownTask := shutdownTask - 1;
      if state.SettingUp? || state.Active? {
        state := ShuttingDown;
        if |slots| > 0 {
          AskHandler(Visit(Read, 0, request.value));
          return;
        }
        state := ShutDown;
        isShutDown := true;
        notifyTask := Some(request.value);
      }
    }

    method OnHandlerShutdownComplete(code: int)
      requires busy && visits != []
      modifies this
      ensures View() == AfterReport(old(View()), code)
    {
      var slot, dir := visits[|visits| - 1].slot, visits[|visits| - 1].dir;
      busy := false;
      reports := reports + [code];
      if state.ShutDown? {
        return;
      }
      if dir.Read? {
        if slot + 1 < |slots| && slots[slot + 1] {
          AskHandler(Visit(Read, slot + 1, code));
          return;
        }
        writeTask := Some(Visit(Write, slot, code));
        return;
      }
      if 0 < slot <= |slots| && slots[slot - 1] {
        AskHandler(Visit(Write, slot - 1, code));
        return;
      }
      if slot == 0 {
        state := ShutDown;
        isShutDown := true;
        notifyTask := Some(code);
      }
    }

    method RunShutdownWriteDirection()
      requires writeTask.Some?
      modifies this
      ensures View() == After(old(View()), RunWriteTask)
    {
      var v := writeTask.value;
      writeTask := None;
      AskHandler(v);
    }
  }
}
