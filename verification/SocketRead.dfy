/** The read loop of the socket handler at the left end of a channel (source/socket_channel_handler.c).

The event loop tells the handler once that bytes have arrived; the handler then reads until the kernel has nothing
left, the window of its right neighbour is used up, or it has read its share for this turn. The bytes that have
arrived are part of the state, so that "no byte is forgotten" can be said.

When the handler on the right fails on a message, the loop takes whatever is the last error of the thread for the
reason. Two things can then go wrong: a failure on the last message of a turn is never looked at, and one whose error
is that of a read that would block is taken for a socket that has run dry.
*/
module SocketRead {
  import opened Basics
  import opened Traces
  import MessagePool

  const READ_WOULD_BLOCK: int := 1043
  const READ_WOULD_EXCEED_WINDOW: int := 1026

  type Byte = int

  /** What the handler on the right makes of a message; a failure leaves `error` as the last error of the thread. */
  datatype Answer = Accepted | Failed(error: int)

  /** A message that was not accepted; `last` if nothing more could have been read in its turn. */
  datatype Failure = Failure(error: int, last: bool)

  /** A turn of the read loop: how much may be read, and how much has been. */
  datatype Turn = Turn(limit: nat, total: nat)

  datatype Reader = Reader(
    backPressure: bool,
    maxRw: nat,                   // share of one turn
    pool: MessagePool.Config,
    window: Size,                 // window of the right neighbour
    credit: nat,                  // window at the start and everything added to it since
    arrived: seq<Byte>,           // all bytes that ever arrived
    incoming: seq<Byte>,          // those not read yet
    taken: seq<Byte>,             // those read and sent to the right neighbour
    notified: bool,               // the event loop is about to report readiness
    taskPending: bool,            // the re-read task is scheduled
    turn: Option<Turn>,
    shuttingDown: bool,           // the handler was told to shut down
    stopped: bool,                // the handler asked the channel to shut down
    rejected: nat,                // messages refused because they would exceed the window
    failures: seq<Failure>,       // messages that were not accepted
    readErrors: nat,              // reads that failed other than by having to block
    stalled: bool)                // the last turn was cut short by a failure that looked like a dry socket

  datatype Action =
    | Arrive(bytes: seq<Byte>)
    | WindowUpdate(amount: Size)
    | Readable
    | RunTask
    | CancelTask
    | Receive(k: Size, answer: Answer)
    | WouldBlock
    | Fail
    | EndOfTurn
    | HandlerShutdown

  predicate Init(r: Reader) {
    && 0 < r.maxRw <= SIZE_MAX && r.pool.appSize > 0 && r.pool.smallSize > 0
    && r == Reader(r.backPressure, r.maxRw, r.pool, r.window, r.window, [], [], [], false, false, None, false, false, 0,
                   [], 0, false)
  }

  function DownstreamWindow(r: Reader): nat {
    if r.backPressure then r.window else SIZE_MAX
  }

  /** The capacity of the message for the rest of this turn. */
  function Room(r: Reader): nat
    requires r.turn.Some? && r.turn.value.total <= r.turn.value.limit
  {
    MessagePool.CapacityFor(r.pool, r.turn.value.limit - r.turn.value.total)
  }

  predicate MayRead(r: Reader) {
    r.turn.Some? && r.turn.value.total < r.turn.value.limit
  }

  /** The kernel hands over at least one byte when there is one and room for it. */
  predicate Enabled(r: Reader, x: Action) {
    match x
    case Arrive(bytes) => bytes != []
    case WindowUpdate(_) => r.turn.None?
    case Readable => r.notified && r.turn.None?
    case RunTask => r.taskPending && r.turn.None?
    case CancelTask => r.taskPending && r.turn.None? && (r.stopped || r.shuttingDown)
    case Receive(k, _) => MayRead(r) && 0 < k <= |r.incoming| && k <= Room(r)
    case WouldBlock => MayRead(r) && r.incoming == []
    case Fail => MayRead(r)
    case EndOfTurn => r.turn.Some? && r.turn.value.total >= r.turn.value.limit
    case HandlerShutdown => r.turn.None?
  }

  /** The head of s_do_read */
  function StartTurn(r: Reader): Reader {
    var limit := Min(DownstreamWindow(r), r.maxRw);
    if r.shuttingDown || limit == 0 then r.(stalled := false) else r.(turn := Some(Turn(limit, 0)), stalled := false)
  }

  /** The tail of s_do_read */
  function FinishTurn(r: Reader): Reader
    requires r.turn.Some?
  {
    r.(turn := None, taskPending := r.taskPending || r.turn.value.total == r.maxRw)
  }

  /** The turn ends with a message that was not accepted. */
  function AfterFailure(r: Reader, error: int): Reader
    requires r.turn.Some?
  {
    var last := r.turn.value.total >= r.turn.value.limit;
    var f := r.(failures := r.failures + [Failure(error, last)]);
    if last then FinishTurn(f)
    else if error != READ_WOULD_BLOCK then f.(turn := None, stopped := true)
    else f.(turn := None, stalled := true)
  }

  predicate Exceeds(r: Reader, k: Size) {
    r.backPressure && r.window < k
  }

  /** `k` bytes were read into a message, which is charged to the window if it fits. */
  function AfterRead(r: Reader, k: Size): (s: Reader)
    requires MayRead(r) && k <= |r.incoming|
    ensures s.turn.Some? && s.stopped == r.stopped && s.failures == r.failures && s.readErrors == r.readErrors
  {
    r.(taken := r.taken + r.incoming[..k],
       incoming := r.incoming[k..],
       turn := Some(Turn(r.turn.value.limit, r.turn.value.total + k)),
       window := if Exceeds(r, k) then r.window else SubWrap(r.window, k),
       rejected := if Exceeds(r, k) then r.rejected + 1 else r.rejected)
  }

  function Outcome(r: Reader, k: Size, answer: Answer): Answer {
    if Exceeds(r, k) then Failed(READ_WOULD_EXCEED_WINDOW) else answer
  }

  function AfterReceive(r: Reader, k: Size, answer: Answer): Reader
    requires MayRead(r) && k <= |r.incoming|
  {
    match Outcome(r, k, answer)
    case Accepted => AfterRead(r, k)
    case Failed(error) => AfterFailure(AfterRead(r, k), error)
  }

  function Next(r: Reader, x: Action): Reader
    requires Enabled(r, x)
  {
    match x
    case Arrive(bytes) => r.(arrived := r.arrived + bytes, incoming := r.incoming + bytes, notified := true)
    case WindowUpdate(amount) =>
      r.(window := AddSaturating(r.window, amount),
         credit := r.credit + amount,
         taskPending := r.taskPending || !r.shuttingDown)
    case Readable => StartTurn(r.(notified := false))
    case RunTask => StartTurn(r.(taskPending := false))
    case CancelTask => r.(taskPending := false)
    case Receive(k, answer) => AfterReceive(r, k, answer)
    case WouldBlock => r.(turn := None)
    case Fail => r.(turn := None, stopped := true, readErrors := r.readErrors + 1)
    case EndOfTurn => FinishTurn(r)
    case HandlerShutdown => r.(shuttingDown := true)
  }

  ghost predicate Step(r: Reader, s: Reader) {
    exists x :: Enabled(r, x) && s == Next(r, x)
  }

  // ----- Invariant -----

  /** What is left of the turn fits in the window, and unless the share of the turn is the limit it is the whole
      window. */
  predicate TurnFits(r: Reader) {
    r.turn.Some? ==>
      var left := r.turn.value.limit - r.turn.value.total;
      && 0 <= left && 0 < r.turn.value.limit <= r.maxRw
      && (r.backPressure ==> left <= r.window)
      && (r.turn.value.limit < r.maxRw ==> r.backPressure && left == r.window)
  }

  predicate WithinCredit(r: Reader) {
    && (r.backPressure ==> |r.taken| + r.window <= r.credit)
    && (r.backPressure && r.credit <= SIZE_MAX ==> |r.taken| + r.window == r.credit)
    && r.rejected == 0
    && r.arrived == r.taken + r.incoming
  }

  /** Bytes that wait to be read have something that will get them read. */
  predicate Attended(r: Reader) {
    r.incoming != [] && r.turn.None? && !r.shuttingDown && !r.stopped ==>
      r.notified || r.taskPending || (r.backPressure && r.window == 0)
  }

  /** A failure that the channel is shut down for. */
  predicate Noticed(f: Failure) {
    !f.last && f.error != READ_WOULD_BLOCK
  }

  predicate StoppedForReason(r: Reader) {
    r.stopped <==> r.readErrors > 0 || exists i :: 0 <= i < |r.failures| && Noticed(r.failures[i])
  }

  predicate Inv(r: Reader) {
    0 < r.maxRw <= SIZE_MAX && TurnFits(r) && WithinCredit(r) && (Attended(r) || r.stalled) && StoppedForReason(r)
  }

  lemma {:induction false} FailureKeepsReason(r: Reader, error: int)
    requires r.turn.Some? && StoppedForReason(r)
    ensures StoppedForReason(AfterFailure(r, error))
  {
    var s := AfterFailure(r, error);
    var n := |r.failures|;
    assert s.failures[..n] == r.failures && s.failures[n].error == error;
    assert forall i :: 0 <= i < n ==> s.failures[i] == r.failures[i];
    if s.stopped && !r.stopped {
      assert Noticed(s.failures[n]);
    }
  }

  lemma {:induction false} ReadKeepsInv(r: Reader, k: Size)
    requires Inv(r) && Enabled(r, Receive(k, Accepted))
    ensures !Exceeds(r, k) && Inv(AfterRead(r, k))
  {
    MessagePool.CapacityIsWithinHint(r.pool, r.turn.value.limit - r.turn.value.total);
    assert r.taken + r.incoming[..k] + r.incoming[k..] == r.taken + r.incoming;
  }

  lemma {:induction false} FailureKeepsInv(r: Reader, error: int)
    requires Inv(r) && r.turn.Some?
    ensures Inv(AfterFailure(r, error))
  {
    FailureKeepsReason(r, error);
    FailureKeepsTurn(r, error);
  }

  lemma {:induction false} FailureKeepsTurn(r: Reader, error: int)
    requires r.turn.Some? && TurnFits(r) && WithinCredit(r)
    ensures var s := AfterFailure(r, error); TurnFits(s) && WithinCredit(s) && (Attended(s) || s.stalled)
  {
  }

  lemma {:induction false} ReceiveKeepsInv(r: Reader, k: Size, answer: Answer)
    requires Inv(r) && Enabled(r, Receive(k, answer))
    ensures Inv(AfterReceive(r, k, answer))
  {
    ReadKeepsInv(r, k);
    if answer.Failed? {
      FailureKeepsInv(AfterRead(r, k), answer.error);
    }
  }

  lemma {:induction false} StartKeepsInv(r: Reader)
    requires 0 < r.maxRw <= SIZE_MAX && r.turn.None? && WithinCredit(r) && StoppedForReason(r)
    ensures Inv(StartTurn(r))
  {
  }

  lemma {:induction false} ArriveKeepsInv(r: Reader, bytes: seq<Byte>)
    requires Inv(r) && bytes != []
    ensures Inv(Next(r, Arrive(bytes)))
  {
    assert r.arrived + bytes == r.taken + (r.incoming + bytes);
  }

  lemma {:induction false} EndKeepsInv(r: Reader)
    requires Inv(r) && r.turn.Some? && r.turn.value.total >= r.turn.value.limit
    ensures Inv(FinishTurn(r))
  {
  }

  lemma {:induction false} ReadFailureKeepsInv(r: Reader, x: Action)
    requires Inv(r) && Enabled(r, x) && (x.WouldBlock? || x.Fail?)
    ensures Inv(Next(r, x))
  {
  }

  lemma {:induction false} WindowUpdateKeepsInv(r: Reader, amount: Size)
    requires Inv(r) && r.turn.None?
    ensures Inv(Next(r, WindowUpdate(amount)))
  {
  }

  lemma {:induction false} ShutdownKeepsInv(r: Reader, x: Action)
    requires Inv(r) && Enabled(r, x) && (x.CancelTask? || x.HandlerShutdown?)
    ensures Inv(Next(r, x))
  {
  }

  lemma {:induction false} TurnKeepsInv(r: Reader, x: Action)
    requires Inv(r) && Enabled(r, x) && (x.Receive? || x.WouldBlock? || x.Fail? || x.EndOfTurn?)
    ensures Inv(Next(r, x))
  {
    match x
    case Receive(k, answer) => ReceiveKeepsInv(r, k, answer);
    case EndOfTurn => EndKeepsInv(r);
    case _ => ReadFailureKeepsInv(r, x);
  }

  lemma {:induction false} StartsKeepInv(r: Reader, x: Action)
    requires Inv(r) && Enabled(r, x) && (x.Readable? || x.RunTask?)
    ensures Inv(Next(r, x))
  {
    StartKeepsInv(r.(notified := false));
    StartKeepsInv(r.(taskPending := false));
  }

  lemma {:induction false} StepKeepsInv(r: Reader, s: Reader)
    requires Inv(r) && Step(r, s)
    ensures Inv(s)
  {
    var x :| Enabled(r, x) && s == Next(r, x);
    match x
    case Arrive(bytes) => ArriveKeepsInv(r, bytes);
    case WindowUpdate(amount) => WindowUpdateKeepsInv(r, amount);
    case Readable => StartsKeepInv(r, x);
    case RunTask => StartsKeepInv(r, x);
    case CancelTask => ShutdownKeepsInv(r, x);
    case HandlerShutdown => ShutdownKeepsInv(r, x);
    case _ => TurnKeepsInv(r, x);
  }

  lemma {:induction false} ReachableInv(r: Reader)
    requires Reachable(Init, Step, r)
    ensures Inv(r)
  {
    forall s, t | Inv(s) && Step(s, t) ensures Inv(t) {
      StepKeepsInv(s, t);
    }
    ReachableInvariant(Init, Step, Inv, r);
  }

  // ----- Main results -----

  /** In no run is a message refused for exceeding the window, a turn never reads more than its share, and with
      back-pressure the bytes sent downstream never exceed the credit granted. As long as that credit is a size, what
      was not sent is all in the window. */
  lemma {:induction false} ReadsStayWithinWindow(r: Reader)
    requires Reachable(Init, Step, r)
    ensures r.rejected == 0
    ensures r.backPressure ==> |r.taken| <= r.credit
    ensures r.backPressure && r.credit <= SIZE_MAX ==> r.window == r.credit - |r.taken|
    ensures r.turn.Some? ==> r.turn.value.total <= r.turn.value.limit <= r.maxRw
  {
    ReachableInv(r);
  }

  /** No read brings in more than the window has room for, and what it brings in is charged to the window in full. */
  lemma {:induction false} ReadIsCharged(r: Reader, k: Size, answer: Answer)
    requires Reachable(Init, Step, r) && Enabled(r, Receive(k, answer))
    ensures r.backPressure ==> k <= r.window && Next(r, Receive(k, answer)).window == r.window - k
    ensures Next(r, Receive(k, answer)).taken == r.taken + r.incoming[..k]
  {
    ReachableInv(r);
    ReadKeepsInv(r, k);
  }

  /** Every byte that arrived is sent downstream in the order of arrival, or still waits. */
  lemma {:induction false} BytesPassInOrder(r: Reader)
    requires Reachable(Init, Step, r)
    ensures r.arrived == r.taken + r.incoming
  {
    ReachableInv(r);
  }

  /** Between turns bytes wait only for a pending notification, a scheduled task, or an opening of the window, unless
      the last turn was cut short by a failure that looked like a dry socket; a window update always schedules a
      task. */
  lemma {:induction false} NoByteIsForgotten(r: Reader, amount: Size)
    requires Reachable(Init, Step, r) && r.incoming != [] && r.turn.None? && !r.shuttingDown && !r.stopped
    ensures r.notified || r.taskPending || (r.backPressure && r.window == 0) || r.stalled
    ensures Next(r, WindowUpdate(amount)).taskPending
  {
    ReachableInv(r);
  }

  /** A turn starts when the event loop reports readiness or the task runs, exactly if the handler was not told to shut
      down and the window is open; it may read as much as the window holds, and no more than its share. */
  lemma {:induction false} TurnStartsExactlyWhen(r: Reader, x: Action)
    requires Reachable(Init, Step, r) && Enabled(r, x) && r.turn.None?
    ensures var t := Next(r, x).turn;
            && (t.Some? <==> (x.Readable? || x.RunTask?) && !r.shuttingDown && (r.backPressure ==> r.window > 0))
            && (t.Some? ==> t == Some(Turn(if r.backPressure && r.window < r.maxRw then r.window else r.maxRw, 0)))
  {
    ReachableInv(r);
  }

  /** A turn ends when the kernel has nothing left, a read fails, the limit is reached or a message is not accepted; it
      is cut short in a way that looks like a dry socket exactly when a message in mid-turn fails with the error of a
      read that would block. */
  lemma {:induction false} TurnEndsExactlyWhen(r: Reader, x: Action)
    requires Reachable(Init, Step, r) && Enabled(r, x)
    ensures r.turn.Some? ==>
              (Next(r, x).turn.None? <==>
                 x.WouldBlock? || x.Fail? || x.EndOfTurn? || (x.Receive? && x.answer.Failed?))
    ensures Next(r, x).stalled <==>
              || (x.Receive? && x.answer == Failed(READ_WOULD_BLOCK) && r.turn.value.total + x.k < r.turn.value.limit)
              || (r.stalled && !x.Readable? && !x.RunTask?)
    ensures Next(r, x).readErrors == r.readErrors + if x.Fail? then 1 else 0
  {
    ReachableInv(r);
    if x.Receive? {
      MessageEndsTurn(r, x.k, x.answer);
    } else {
      OthersEndTurn(r, x);
    }
  }

  lemma {:induction false} OthersEndTurn(r: Reader, x: Action)
    requires Enabled(r, x) && !x.Receive?
    ensures var s := Next(r, x);
            && (r.turn.Some? ==> (s.turn.None? <==> x.WouldBlock? || x.Fail? || x.EndOfTurn?))
            && (s.stalled <==> r.stalled && !x.Readable? && !x.RunTask?)
            && s.readErrors == r.readErrors + if x.Fail? then 1 else 0
  {
  }

  /** What a message does to the turn. */
  lemma {:induction false} MessageEndsTurn(r: Reader, k: Size, answer: Answer)
    requires Inv(r) && Enabled(r, Receive(k, answer))
    ensures var s := AfterReceive(r, k, answer);
            && (s.turn.None? <==> answer.Failed?) && s.readErrors == r.readErrors
            && (s.stalled <==>
                  || (answer == Failed(READ_WOULD_BLOCK) && r.turn.value.total + k < r.turn.value.limit)
                  || r.stalled)
            && (s.taskPending <==>
                  || r.taskPending
                  || (answer.Failed? && r.turn.value.total + k == r.turn.value.limit == r.maxRw))
  {
    ReadKeepsInv(r, k);
    if answer.Failed? {
      assert AfterReceive(r, k, answer) == AfterFailure(AfterRead(r, k), answer.error);
    }
  }

  /** A step ends a turn that used up its limit. */
  predicate UsesUpTurn(r: Reader, x: Action)
    requires Enabled(r, x)
  {
    x.EndOfTurn? || (x.Receive? && x.answer.Failed? && r.turn.value.total + x.k == r.turn.value.limit)
  }

  /** Running or canceling the task uses it up. It is scheduled, unless it is already, by a window update of a handler
      that goes on, and at the end of a turn that read its whole share. */
  lemma {:induction false} TaskIsScheduledExactlyWhen(r: Reader, x: Action)
    requires Reachable(Init, Step, r) && Enabled(r, x)
    ensures Next(r, x).taskPending <==>
              || (r.taskPending && !x.RunTask? && !x.CancelTask?)
              || (x.WindowUpdate? && !r.shuttingDown)
              || (UsesUpTurn(r, x) && r.turn.value.limit == r.maxRw)
  {
    ReachableInv(r);
    if x.Receive? {
      MessageEndsTurn(r, x.k, x.answer);
    }
  }

  /** Bytes that have something to get them read lose it in exactly one way: the handler on the right fails on a
      message with the error of a read that would block, that message leaves the turn unfinished and bytes unread, and
      neither a notification nor a task is under way. */
  lemma {:induction false} BytesAreForgottenExactlyWhen(r: Reader, x: Action)
    requires Reachable(Init, Step, r) && Attended(r) && Enabled(r, x)
    ensures !Attended(Next(r, x)) <==>
              && x.Receive? && x.answer == Failed(READ_WOULD_BLOCK) && r.turn.value.total + x.k < r.turn.value.limit
              && x.k < |r.incoming| && !r.notified && !r.taskPending && !r.shuttingDown && !r.stopped
  {
    ReachableInv(r);
    if x.Receive? {
      ReadKeepsInv(r, x.k);
      ReceiveForgets(r, x.k, x.answer);
    } else {
      OthersRemember(r, x);
    }
  }

  lemma {:induction false} OthersRemember(r: Reader, x: Action)
    requires Inv(r) && Attended(r) && Enabled(r, x) && !x.Receive?
    ensures Attended(Next(r, x))
  {
  }

  lemma {:induction false} ReceiveForgets(r: Reader, k: Size, answer: Answer)
    requires Inv(r) && Enabled(r, Receive(k, answer)) && !Exceeds(r, k) && Inv(AfterRead(r, k))
    ensures !Attended(AfterReceive(r, k, answer)) <==>
              && answer == Failed(READ_WOULD_BLOCK) && r.turn.value.total + k < r.turn.value.limit
              && k < |r.incoming| && !r.notified && !r.taskPending && !r.shuttingDown && !r.stopped
  {
    if answer.Failed? {
      FailureForgets(AfterRead(r, k), answer.error);
    }
  }

  lemma {:induction false} FailureForgets(r: Reader, error: int)
    requires Inv(r) && r.turn.Some?
    ensures !Attended(AfterFailure(r, error)) <==>
              && error == READ_WOULD_BLOCK && r.turn.value.total < r.turn.value.limit
              && r.incoming != [] && !r.notified && !r.taskPending && !r.shuttingDown && !r.stopped
  {
  }

  /** A turn that starts while bytes wait and the window is open can read at least one of them. */
  lemma {:induction false} TurnMakesProgress(r: Reader)
    requires Reachable(Init, Step, r) && MayRead(r) && r.incoming != []
    requires r.pool.appSize > 0 && r.pool.smallSize > 0
    ensures Enabled(r, Receive(1, Accepted))
  {
    MessagePool.CapacityIsWithinHint(r.pool, r.turn.value.limit - r.turn.value.total);
  }

  /** When the handler on the right fails on a message, the channel is shut down for it unless that message used up the
      turn or the error is that of a read that would block. Over a whole run, the handler has asked for a shutdown
      exactly when a read failed or one of the failures downstream was of the kind that is noticed. */
  lemma {:induction false} DownstreamErrorIsReportedExactlyWhen(r: Reader, k: Size, error: int)
    requires Reachable(Init, Step, r)
    ensures r.stopped <==>
              r.readErrors > 0 ||
              exists i :: 0 <= i < |r.failures| && !r.failures[i].last && r.failures[i].error != READ_WOULD_BLOCK
    ensures !r.stopped && Enabled(r, Receive(k, Failed(error))) ==>
              (Next(r, Receive(k, Failed(error))).stopped <==>
                 r.turn.value.total + k < r.turn.value.limit && error != READ_WOULD_BLOCK)
  {
    ReachableInv(r);
    if MayRead(r) {
      MessagePool.CapacityIsWithinHint(r.pool, r.turn.value.limit - r.turn.value.total);
    }
    if r.stopped && r.readErrors == 0 {
      var i :| 0 <= i < |r.failures| && Noticed(r.failures[i]);
      assert !r.failures[i].last;
    }
    if i :| 0 <= i < |r.failures| && !r.failures[i].last && r.failures[i].error != READ_WOULD_BLOCK {
      assert Noticed(r.failures[i]);
    }
  }

  /** A turn on `window` bytes of window while the given bytes wait. */
  lemma {:induction false} TurnBegins(window: Size, bytes: seq<Byte>) returns (r: Reader)
    requires 0 < window <= 16 * 1024 && bytes != []
    ensures Reachable(Init, Step, r) && r.turn == Some(Turn(window, 0)) && r.incoming == bytes && r.window == window
    ensures !r.stopped && !r.shuttingDown && !r.notified && !r.taskPending && r.backPressure
    ensures r.pool == MessagePool.CHANNEL_CONFIG && r.failures == [] && r.maxRw == 16 * 1024
  {
    r := Reader(true, 16 * 1024, MessagePool.CHANNEL_CONFIG, window, window, [], [], [], false, false, None, false,
                false, 0, [], 0, false);
    assert Init(r);
    ReachesRefl(Step, r);
    var arrived := Next(r, Arrive(bytes));
    StepReaches(r, r, Arrive(bytes));
    StepReaches(r, arrived, Readable);
    r := Next(arrived, Readable);
  }

  lemma {:induction false} LastMessageErrorMayGoUnreported(error: int) returns (r: Reader)
    ensures Reachable(Init, Step, r) && r.failures == [Failure(error, true)] && !r.stopped && r.turn.None?
  {
    var start := TurnBegins(1, [7]);
    MessagePool.CapacityIsWithinHint(start.pool, 1);
    r := Next(start, Receive(1, Failed(error)));
    assert Step(start, r);
    ReachableStep(Init, Step, start, r);
  }

  /** A failure in mid-turn goes unreported as well if its error is that of a read that would block, and here a byte
      that has arrived is left without anything that would get it read. */
  lemma {:induction false} WouldBlockErrorMayGoUnreported() returns (r: Reader)
    ensures Reachable(Init, Step, r) && r.failures == [Failure(READ_WOULD_BLOCK, false)] && !r.stopped && r.turn.None?
    ensures r.incoming == [8] && !r.notified && !r.taskPending && r.window > 0 && !r.shuttingDown
  {
    var start := TurnBegins(3, [7, 8]);
    MessagePool.CapacityIsWithinHint(start.pool, 3);
    r := Next(start, Receive(1, Failed(READ_WOULD_BLOCK)));
    assert Step(start, r);
    ReachableStep(Init, Step, start, r);
  }

  lemma {:induction false} StepReaches(r: Reader, s: Reader, x: Action)
    requires Reaches(Step, r, s) && Enabled(s, x)
    ensures Reaches(Step, r, Next(s, x))
  {
    assert Step(s, Next(s, x));
    ReachesStep(Step, r, s, Next(s, x));
  }

  // ----- The loop of the code -----

  class SocketHandler {
    const backPressure: bool
    const maxRw: nat
    const pool: MessagePool.Config
    var window: Size
    var incoming: seq<Byte>
    var taken: seq<Byte>
    var taskPending: bool
    var shuttingDown: bool
    var stopped: bool
    ghost var credit: nat
    ghost var arrived: seq<Byte>
    ghost var notified: bool
    ghost var turn: Option<Turn>
    ghost var rejected: nat
    ghost var failures: seq<Failure>
    ghost var readErrors: nat
    ghost var stalled: bool

    ghost function View(): Reader
      reads this
    {
      Reader(backPressure, maxRw, pool, window, credit, arrived, incoming, taken, notified, taskPending, turn,
             shuttingDown, stopped, rejected, failures, readErrors, stalled)
    }

    ghost predicate Valid()
      reads this
    {
      Inv(View()) && pool.appSize > 0 && pool.smallSize > 0
    }

    constructor (backPressure: bool, window: Size, maxRw: nat, pool: MessagePool.Config)
      requires 0 < maxRw <= SIZE_MAX && pool.appSize > 0 && pool.smallSize > 0
      ensures Init(View()) && this.maxRw == maxRw && this.pool == pool
    {
      this.backPressure, this.maxRw, this.pool := backPressure, maxRw, pool;
      this.window, incoming, taken, taskPending, shuttingDown, stopped := window, [], [], false, false, false;
      credit, arrived, notified, turn, rejected := window, [], false, None, 0;
      failures, readErrors, stalled := [], 0, false;
    }

    /** Bytes may arrive at any time. */
    method LetBytesArrive()
      requires Valid()
      modifies this`incoming, this`arrived, this`notified
      ensures Valid() && Reaches(Step, old(View()), View())
    {
      ReachesRefl(Step, View());
      var bytes: seq<Byte> := *;
      if bytes != [] {
        StepTaken(View(), View(), Arrive(bytes));
        incoming := incoming + bytes;
        arrived, notified := arrived + bytes, true;
      }
    }

    /** aws_socket_read into a message of the given capacity: how many bytes, or none and an error. */
    method ReadSocket(capacity: nat) returns (k: nat, error: int)
      requires capacity > 0
      ensures k <= capacity && k <= |incoming|
      ensures k == 0 && error == READ_WOULD_BLOCK ==> incoming == []
    {
      k, error := 0, *;
      if incoming == [] {
        return;
      }
      var n: nat := *;
      if 0 < n <= capacity && n <= |incoming| {
        k := n;
      } else if error == READ_WOULD_BLOCK {
        error := 0;
      }
    }

    /** aws_channel_slot_send_message for `k` bytes just read: refused when they exceed the window, else the handler on
        the right may accept them or fail. A failure gives the error that aws_last_error finds. */
    method SendRead(k: Size, answer: Answer) returns (outcome: Answer)
      requires MayRead(View()) && k <= |incoming|
      modifies this`window, this`incoming, this`taken, this`rejected, this`turn
      ensures View() == AfterRead(old(View()), k) && outcome == Outcome(old(View()), k, answer)
      ensures old(window) >= k ==> window == old(window) - k && outcome == answer
      ensures backPressure && old(window) < k ==> window == old(window) && outcome.Failed?
    {
      taken := taken + incoming[..k];
      incoming := incoming[k..];
      turn := Some(Turn(turn.value.limit, turn.value.total + k));
      if !backPressure || window >= k {
        window := SubWrap(window, k);
        return answer;
      }
      rejected := rejected + 1;
      return Failed(READ_WOULD_EXCEED_WINDOW);
    }

    /** What follows the loop of s_do_read: shut down after an error that cut the turn short, or read again later. */
    method AfterLoop(totalRead: nat, maxToRead: nat, lastError: int)
      modifies this`stopped, this`taskPending, this`turn
      ensures turn == None
      ensures stopped == (old(stopped) || (totalRead < maxToRead && lastError != READ_WOULD_BLOCK))
      ensures taskPending == (old(taskPending) || (totalRead >= maxToRead && totalRead == maxRw))
    {
      turn := None;
      if totalRead < maxToRead {
        if lastError != READ_WOULD_BLOCK {
          stopped := true;
        }
        return;
      }
      if totalRead == maxRw && !taskPending {
        taskPending := true;
      }
    }

    /** A message was not accepted, which ends the turn. */
    method MessageFailed(error: int, totalRead: nat, maxToRead: nat)
      requires turn == Some(Turn(maxToRead, totalRead))
      modifies this`stopped, this`taskPending, this`turn, this`failures, this`stalled
      ensures View() == AfterFailure(old(View()), error) && turn == None
      ensures Reported(old(View()), View(), totalRead, maxToRead, Failed(error))
    {
      AfterLoop(totalRead, maxToRead, error);
      failures := failures + [Failure(error, totalRead >= maxToRead)];
      stalled := stalled || (totalRead < maxToRead && error == READ_WOULD_BLOCK);
    }

    /** A message of `k` bytes was filled: send it, and end the turn if that fails. */
    method SendMessage(k: Size, answer: Answer, totalRead: nat, maxToRead: nat) returns (outcome: Answer)
      requires turn == Some(Turn(maxToRead, totalRead)) && Enabled(View(), Receive(k, answer))
      modifies this`window, this`incoming, this`taken, this`rejected, this`stopped, this`taskPending, this`turn
      modifies this`failures, this`stalled
      ensures View() == Next(old(View()), Receive(k, answer))
      ensures taken == old(taken) + old(incoming)[..k]
      ensures turn == if outcome.Accepted? then Some(Turn(maxToRead, totalRead + k)) else None
      ensures Reported(old(View()), View(), totalRead + k, maxToRead, outcome)
    {
      outcome := SendRead(k, answer);
      if outcome.Failed? {
        MessageFailed(outcome.error, totalRead + k, maxToRead);
      }
    }

    /** Nothing could be read. */
    method ReadFailed(error: int, totalRead: nat, maxToRead: nat)
      requires turn == Some(Turn(maxToRead, totalRead))
      requires Enabled(View(), if error == READ_WOULD_BLOCK then WouldBlock else Fail)
      modifies this`stopped, this`taskPending, this`turn, this`readErrors
      ensures View() == Next(old(View()), if error == READ_WOULD_BLOCK then WouldBlock else Fail) && turn == None
      ensures stopped == (old(stopped) || error != READ_WOULD_BLOCK)
    {
      AfterLoop(totalRead, maxToRead, error);
      readErrors := readErrors + if error == READ_WOULD_BLOCK then 0 else 1;
    }

    /** One round of the loop: a message is acquired, filled and sent; an outcome other than `Accepted` ends the
        turn. */
    method ReadOnce(totalRead: nat, maxToRead: nat) returns (total: nat, outcome: Answer)
      requires Valid() && turn == Some(Turn(maxToRead, totalRead)) && totalRead < maxToRead
      modifies this
      ensures Valid() && Reaches(Step, old(View()), View())
      ensures totalRead <= total <= maxToRead && total - totalRead <= |old(incoming)|
      ensures taken == old(taken) + old(incoming)[..total - totalRead]
      ensures turn == if outcome.Accepted? then Some(Turn(maxToRead, total)) else None
      ensures outcome.Accepted? ==> totalRead < total
      ensures Reported(old(View()), View(), total, maxToRead, outcome)
    {
      MessagePool.CapacityIsWithinHint(pool, maxToRead - totalRead);
      var k, error := ReadSocket(MessagePool.CapacityFor(pool, maxToRead - totalRead));
      total := totalRead + k;
      ghost var x;
      if k == 0 {
        x := if error == READ_WOULD_BLOCK then WouldBlock else Fail;
        ReadFailed(error, totalRead, maxToRead);
        outcome := Failed(error);
      } else {
        var answer: Answer := *;
        x := Receive(k, answer);
        outcome := SendMessage(k, answer, totalRead, maxToRead);
      }
      ReachesRefl(Step, old(View()));
      StepTaken(old(View()), old(View()), x);
    }

    /** A round, before which bytes may arrive. */
    method Round(ghost start: Reader, totalRead: nat, maxToRead: nat) returns (total: nat, outcome: Answer)
      requires Valid() && turn == Some(Turn(maxToRead, totalRead)) && totalRead < maxToRead
      requires Reaches(Step, start, View()) && Reported(start, View(), totalRead, maxToRead, Accepted)
      modifies this
      ensures Valid() && Reaches(Step, start, View())
      ensures totalRead <= total <= maxToRead && old(taken) <= taken && |taken| == |old(taken)| + total - totalRead
      ensures turn == if outcome.Accepted? then Some(Turn(maxToRead, total)) else None
      ensures outcome.Accepted? ==> totalRead < total
      ensures Reported(start, View(), total, maxToRead, outcome)
    {
      ghost var before := View();
      LetBytesArrive();
      ReachesTrans(Step, start, before, View());
      before := View();
      total, outcome := ReadOnce(totalRead, maxToRead);
      ReachesTrans(Step, start, before, View());
    }

    /** The head of s_do_read: how much may be read in this turn; 0 means that there is none. */
    method BeginTurn(fromTask: bool) returns (maxToRead: nat)
      requires turn == None && maxRw > 0 && (if fromTask then taskPending else notified)
      modifies this`taskPending, this`notified, this`turn, this`stalled
      ensures View() == Next(old(View()), if fromTask then RunTask else Readable)
      ensures maxToRead == if shuttingDown then 0 else Min(DownstreamWindow(old(View())), maxRw)
      ensures turn == if maxToRead > 0 then Some(Turn(maxToRead, 0)) else None
    {
      taskPending := taskPending && !fromTask;
      notified := notified && fromTask;
      stalled := false;
      if shuttingDown {
        return 0;
      }
      var downstreamWindow := if backPressure then window else SIZE_MAX;
      maxToRead := if downstreamWindow > maxRw then maxRw else downstreamWindow;
      if maxToRead > 0 {
        turn := Some(Turn(maxToRead, 0));
      }
    }

    /** s_do_read, called for a notification or from the re-read task: the turn ends, having read at most the smaller
        of the downstream window and its share, in order. Whatever ended the loop early, be it a read or the handler
        on the right, shuts the channel down exactly when the turn was not used up and the error is not that of a read
        that would block. */
    method DoRead(fromTask: bool) returns (outcome: Answer)
      requires Valid() && turn == None && (if fromTask then taskPending else notified)
      modifies this
      ensures Valid() && Reaches(Step, old(View()), View()) && turn == None && rejected == 0
      ensures old(taken) <= taken
      ensures |taken| - |old(taken)| <= Min(DownstreamWindow(old(View())), maxRw)
      ensures old(shuttingDown) ==> taken == old(taken) && outcome == Accepted
      ensures Reported(old(View()), View(), |taken| - |old(taken)|, Min(DownstreamWindow(old(View())), maxRw), outcome)
    {
      ReachesRefl(Step, View());
      StepTaken(View(), View(), if fromTask then RunTask else Readable);
      var maxToRead := BeginTurn(fromTask);
      if maxToRead == 0 {
        return Accepted;
      }
      ghost var before := View();
      outcome := ReadLoop(maxToRead);
      ReachesTrans(Step, old(View()), before, View());
    }

    /** The loop of s_do_read and what follows it; bytes go on arriving meanwhile. */
    method ReadLoop(maxToRead: nat) returns (outcome: Answer)
      requires Valid() && turn == Some(Turn(maxToRead, 0)) && maxToRead > 0
      modifies this
      ensures Valid() && Reaches(Step, old(View()), View()) && turn == None
      ensures old(taken) <= taken && |taken| - |old(taken)| <= maxToRead
      ensures Reported(old(View()), View(), |taken| - |old(taken)|, maxToRead, outcome)
    {
      ReachesRefl(Step, View());
      var totalRead := 0;
      outcome := Accepted;
      while totalRead < maxToRead && outcome.Accepted?
        invariant Valid() && Reaches(Step, old(View()), View())
        invariant 0 <= totalRead <= maxToRead && old(taken) <= taken && |taken| == |old(taken)| + totalRead
        invariant if outcome.Accepted? then turn == Some(Turn(maxToRead, totalRead)) else turn == None
        invariant Reported(old(View()), View(), totalRead, maxToRead, outcome)
        decreases maxToRead - totalRead, outcome.Accepted?
      {
        totalRead, outcome := Round(old(View()), totalRead, maxToRead);
      }
      if outcome.Accepted? {
        StepTaken(old(View()), View(), EndOfTurn);
        AfterLoop(totalRead, maxToRead, 0);
      }
    }

    /** s_socket_increment_read_window: an opened window schedules another read. */
    method IncrementReadWindow(amount: Size)
      requires turn == None
      modifies this`window, this`credit, this`taskPending
      ensures View() == Next(old(View()), WindowUpdate(amount))
    {
      window := AddSaturating(window, amount);
      credit := credit + amount;
      if !shuttingDown && !taskPending {
        taskPending := true;
      }
    }
  }

  /** What a turn from `r` to `s` that read `total` of `limit` bytes made of its outcome: an error is answered by a
      shutdown exactly when the turn was not used up and the error is not that of a read that would block; without one
      nothing is shut down, and no failure of the handler on the right has been met. */
  predicate Reported(r: Reader, s: Reader, total: nat, limit: nat, outcome: Answer) {
    match outcome
    case Accepted => s.stopped == r.stopped && s.failures == r.failures
    case Failed(error) =>
      && s.stopped == (r.stopped || (total < limit && error != READ_WOULD_BLOCK))
      && (s.failures == r.failures || s.failures == r.failures + [Failure(error, total >= limit)])
  }

  /** One more step of a run. */
  lemma {:induction false} StepTaken(r: Reader, s: Reader, x: Action)
    requires Reaches(Step, r, s) && Inv(s) && Enabled(s, x)
    ensures Reaches(Step, r, Next(s, x)) && Inv(Next(s, x))
  {
    StepReaches(r, s, x);
    assert Step(s, Next(s, x));
    StepKeepsInv(s, Next(s, x));
  }
}
