/** The race of connection attempts behind a client channel (source/channel_bootstrap.c).

One reference-counted args object is shared by the host resolution, one attempt per address, the channel of
the first attempt that connects, and at times a task that carries the setup callback to the event loop the
user asked for. Attempts may fail, connect or be canceled in any order.

Reference counts are modelled as integers, so that "never released too often" is a theorem here, not an assumption.
The code guards the setup callback with a fatal assertion; a second call ends the process, which is the state
`crashed`. Whether that can happen is a theorem, too.
*/
module ClientBootstrap {
  import opened Basics
  import opened Traces

  const ERROR_UNKNOWN: int := 3

  /** A call of the user's setup callback: with an error, or with a channel. */
  datatype Setup = Setup(error: int, channel: bool)

  /** An attempt that came to nothing: its error, 0 if it connected too late, and the count of failures it left. */
  datatype Ended = Ended(error: int, failed: nat)

  /** The channel of the chosen attempt; `announced` once its setup has been reported. */
  datatype ChannelPhase = NoChannel | Live(announced: bool) | Gone

  datatype Args = Args(
    pinned: bool,                     // the user asked for a particular event loop
    refCount: int,
    destroyed: nat,                   // how many times the args were destroyed
    resolving: bool,
    total: nat,                       // addresses that came out of the resolution
    addressesCount: nat,              // the same as the code stores it, in 8 bits
    failedCount: nat,                 // 8 bits too
    tasks: nat,                       // attempts scheduled but not started
    connecting: nat,                  // attempts whose socket is connecting
    late: nat,                        // attempts that connected after another was chosen
    connectionChosen: bool,
    channel: ChannelPhase,
    channelsMade: nat,
    setupCalled: bool,
    hasShutdownCallback: bool,
    callbackTask: Option<int>,        // scheduled setup callback with this error
    taskCanceled: bool,               // such a task was canceled instead of run
    aborted: bool,                    // the call that created the args reported an error itself
    ends: seq<Ended>,                 // attempts that failed or came too late
    setups: seq<Setup>,
    shutdowns: nat,
    crashed: bool)                    // the assertion that setup is called once has failed

  datatype Action =
    | Abort
    | ResolveFailed(error: int, onPinnedLoop: bool)
    | Resolved(addresses: nat)
    | ConnectDirectly
    | AttemptStarts
    | AttemptFails(error: int)
    | ConnectResult(error: int)
    | ChannelReady
    | ChannelDown(error: int)
    | RunCallbackTask(ready: bool)

  predicate Init(a: Args) {
    a == Args(a.pinned, 1, 0, true, 0, 0, 0, 0, 0, 0, false, NoChannel, 0, false, true, None, false, false, [], [], 0,
              false)
  }

  predicate Enabled(a: Args, x: Action) {
    !a.crashed &&
    match x
    case Abort => a.resolving
    case ResolveFailed(error, _) => a.resolving && error != 0
    case Resolved(n) => a.resolving && n > 0
    case ConnectDirectly => a.resolving
    case AttemptStarts => a.tasks > 0
    case AttemptFails(_) => a.tasks > 0
    case ConnectResult(_) => a.connecting > 0
    case ChannelReady => a.channel == Live(false)
    case ChannelDown(_) => a.channel.Live?
    case RunCallbackTask(_) => a.callbackTask.Some?
  }

  /** The last release destroys the args. */
  function Release(a: Args): (r: Args)
    ensures r.total == a.total && r.resolving == a.resolving
  {
    if a.crashed then a
    else a.(refCount := a.refCount - 1, destroyed := if a.refCount == 1 then a.destroyed + 1 else a.destroyed)
  }

  /** s_connect_args_setup_callback_safe, with its fatal assertion that setup has not been called */
  function CallSetup(a: Args, error: int, channel: bool): (r: Args)
    ensures r.total == a.total && r.resolving == a.resolving
  {
    if a.setupCalled then a.(crashed := true)
    else
      Release(a.(setups := a.setups + [Setup(error, channel)],
                 setupCalled := true,
                 hasShutdownCallback := a.hasShutdownCallback && error == 0))
  }

  /** s_connection_args_setup_callback: straight away, or through a task on the loop the user asked for. */
  function SetupCallback(a: Args, error: int, inThread: bool): (r: Args)
    ensures r.total == a.total && r.resolving == a.resolving
  {
    if !a.pinned || inThread then CallSetup(a, error, false)
    else a.(refCount := a.refCount + 1, callbackTask := Some(error))
  }

  function FailIfLast(a: Args, error: int): (r: Args)
    ensures r.total == a.total && r.resolving == a.resolving
  {
    if a.failedCount == a.addressesCount then CallSetup(a, error, false) else a
  }

  function CountFailure(a: Args, error: int): (r: Args)
    ensures r.total == a.total && r.resolving == a.resolving
  {
    var failed := (a.failedCount + 1) % 256;
    a.(failedCount := failed, ends := a.ends + [Ended(error, failed)])
  }

  function AfterAttemptFails(a: Args, error: int): (r: Args)
    requires a.tasks > 0
    ensures r.total == a.total && r.resolving == a.resolving
  {
    Release(FailIfLast(CountFailure(a, error).(tasks := a.tasks - 1), error))
  }

  /** A connection that failed, or that came after another one had been chosen. */
  function WithoutSocket(a: Args, error: int): (r: Args)
    requires a.connecting > 0
    ensures r.total == a.total && r.resolving == a.resolving
  {
    if error != 0 then CountFailure(a, error).(connecting := a.connecting - 1)
    else a.(connecting := a.connecting - 1, late := a.late + 1, ends := a.ends + [Ended(0, a.failedCount)])
  }

  function AfterConnectResult(a: Args, error: int): (r: Args)
    requires a.connecting > 0
    ensures r.total == a.total && r.resolving == a.resolving
  {
    if error != 0 || a.connectionChosen then
      Release(FailIfLast(WithoutSocket(a, error), error))
    else
      a.(connecting := a.connecting - 1, connectionChosen := true, channel := Live(false),
         channelsMade := a.channelsMade + 1)
  }

  function AfterChannelDown(a: Args, error: int): (r: Args)
    ensures r.total == a.total && r.resolving == a.resolving
  {
    var told :=
      if !a.setupCalled then CallSetup(a, if error != 0 then error else ERROR_UNKNOWN, false)
      else if a.hasShutdownCallback then a.(shutdowns := a.shutdowns + 1)
      else a;
    Release(told.(channel := Gone))
  }

  function AfterCallbackTask(a: Args, ready: bool): (r: Args)
    requires a.callbackTask.Some?
    ensures r.total == a.total && r.resolving == a.resolving
  {
    var b := a.(callbackTask := None, taskCanceled := a.taskCanceled || !ready);
    Release(if ready then CallSetup(b, a.callbackTask.value, false) else b)
  }

  function AfterReady(a: Args): (r: Args)
    ensures r.total == a.total && r.resolving == a.resolving
  {
    var told := CallSetup(a, 0, true);
    if told.crashed then told else told.(channel := Live(true))
  }

  function AfterResolved(a: Args, n: nat): Args {
    a.(resolving := false, total := n, addressesCount := n % 256, refCount := a.refCount + n, tasks := n)
  }

  function Next(a: Args, x: Action): Args
    requires Enabled(a, x)
  {
    match x
    case Abort => Release(a.(resolving := false, aborted := true))
    case ResolveFailed(error, onPinnedLoop) => SetupCallback(a.(resolving := false), error, onPinnedLoop)
    case Resolved(n) => AfterResolved(a, n)
    case ConnectDirectly =>
      a.(resolving := false, total := 1, addressesCount := 1, refCount := a.refCount + 1, connecting := 1)
    case AttemptStarts => a.(tasks := a.tasks - 1, connecting := a.connecting + 1)
    case AttemptFails(error) => AfterAttemptFails(a, error)
    case ConnectResult(error) => AfterConnectResult(a, error)
    case ChannelReady => AfterReady(a)
    case ChannelDown(error) => AfterChannelDown(a, error)
    case RunCallbackTask(ready) => AfterCallbackTask(a, ready)
  }

  ghost predicate Step(a: Args, b: Args) {
    exists x :: Enabled(a, x) && b == Next(a, x)
  }

  // ----- The invariant -----

  function One(b: bool): nat {
    if b then 1 else 0
  }

  /** Who holds a reference: the setup callback that is still owed, each unfinished attempt, the channel, and a
      scheduled callback task. */
  function Owners(a: Args): nat {
    One(!a.setupCalled && !a.aborted) + a.tasks + a.connecting + One(a.channel.Live?) + One(a.callbackTask.Some?)
  }

  /** `extra` references are about to be given up. */
  predicate RefsMatchOwners(a: Args, extra: nat) {
    a.refCount == Owners(a) + extra && a.destroyed == One(a.refCount == 0)
  }

  /** Attempts that failed, as many as there are. */
  function Failed(a: Args): int {
    a.total - a.tasks - a.connecting - a.late - One(a.connectionChosen)
  }

  predicate AttemptsAddUp(a: Args) {
    && Failed(a) >= 0 && a.addressesCount == a.total % 256 && a.failedCount == Failed(a) % 256
    && (a.late > 0 ==> a.connectionChosen) && (a.total == 0 ==> a.ends == [])
  }

  predicate Once(a: Args) {
    && |a.setups| == One(a.setupCalled)
    && a.channelsMade == One(a.connectionChosen) && (a.channel.NoChannel? <==> !a.connectionChosen)
    && a.shutdowns <= 1
  }

  predicate CallbacksFit(a: Args) {
    && (a.resolving ==> !a.setupCalled && a.callbackTask.None? && a.total == 0 && !a.aborted && !a.taskCanceled)
    && (a.aborted ==> !a.setupCalled && a.callbackTask.None? && a.total == 0 && !a.taskCanceled)
    && (a.callbackTask.Some? || a.taskCanceled ==> !a.setupCalled && a.total == 0)
    && (a.callbackTask.Some? ==> a.callbackTask.value != 0 && !a.taskCanceled)
    && (!a.resolving && a.total == 0 ==> a.aborted || a.setupCalled || a.callbackTask.Some? || a.taskCanceled)
    && (a.channel == Live(true) || a.channel == Gone ==> a.setupCalled)
  }

  /** The last attempt to come to nothing has reported it. */
  predicate LastEndReported(a: Args) {
    a.total > 0 && !a.connectionChosen && a.tasks == 0 && a.connecting == 0 ==> a.setupCalled
  }

  /** What the shutdown callback depends on. */
  predicate ShutdownsFit(a: Args) {
    && (!a.setupCalled ==> a.hasShutdownCallback && a.shutdowns == 0)
    && (a.setupCalled ==> |a.setups| == 1 && a.hasShutdownCallback == (a.setups[0].error == 0))
    && (a.setupCalled ==> (a.shutdowns == 1 <==> a.channel == Gone && a.setups[0].error == 0))
    && (a.setupCalled && a.setups[0].channel ==>
          a.setups[0].error == 0 && (a.channel == Live(true) || a.channel == Gone))
  }

  /** An attempt that ends when the failures counted are those expected reports its error. */
  predicate EndsReported(a: Args) {
    && (forall k :: 0 <= k < |a.ends| && a.ends[k].failed == a.addressesCount ==>
          a.setups == [Setup(a.ends[k].error, false)])
    && (a.setups == [Setup(0, false)] ==> Ended(0, a.addressesCount) in a.ends)
  }

  /** What holds for any number of addresses, up to the moment the assertion fails. */
  predicate Sound(a: Args) {
    && Once(a)
    && (!a.crashed ==>
          && RefsMatchOwners(a, 0) && AttemptsAddUp(a) && CallbacksFit(a) && LastEndReported(a)
          && ShutdownsFit(a) && EndsReported(a))
  }

  predicate EndsResolution(x: Action) {
    x.Abort? || x.ResolveFailed? || x.Resolved? || x.ConnectDirectly?
  }

  lemma SameReport(told: seq<Setup>)
    ensures told == [Setup(0, false)] <==> |told| == 1 && told[0] == Setup(0, false)
  {
  }

  lemma {:induction false} StartKeepsSound(a: Args, x: Action)
    requires Sound(a) && Enabled(a, x) && (EndsResolution(x) || x.AttemptStarts?)
    ensures Sound(Next(a, x))
  {
    SameReport(Next(a, x).setups);
  }

  /** An attempt has come to nothing, and has yet to report it and to give up its reference. */
  predicate Ending(a: Args, error: int) {
    && Once(a) && !a.crashed && a.total > 0 && RefsMatchOwners(a, 1) && AttemptsAddUp(a) && CallbacksFit(a)
    && ShutdownsFit(a) && a.ends != [] && a.ends[|a.ends| - 1] == Ended(error, a.failedCount)
    && (a.connectionChosen || a.tasks > 0 || a.connecting > 0 || a.failedCount == a.addressesCount)
    && EndsReported(a.(ends := a.ends[..|a.ends| - 1]))
  }

  lemma {:induction false} ReleaseKeepsOnce(a: Args)
    requires Once(a)
    ensures Once(Release(a))
  {
  }

  lemma {:induction false} SetupKeepsOnce(a: Args, error: int)
    requires Once(a)
    ensures Once(CallSetup(a, error, false))
  {
  }

  lemma {:induction false} ReportKeepsOnce(a: Args, error: int)
    requires Once(a)
    ensures Once(Release(FailIfLast(a, error)))
  {
    SetupKeepsOnce(a, error);
    ReleaseKeepsOnce(FailIfLast(a, error));
  }

  lemma {:induction false} ReportKeepsRefs(a: Args, error: int)
    requires Ending(a, error)
    ensures var b := Release(FailIfLast(a, error)); !b.crashed ==>
              RefsMatchOwners(b, 0) && AttemptsAddUp(b) && CallbacksFit(b) && LastEndReported(b)
  {
  }

  lemma {:induction false} ReportKeepsShutdowns(a: Args, error: int)
    requires Ending(a, error)
    ensures var b := Release(FailIfLast(a, error)); !b.crashed ==> ShutdownsFit(b)
  {
  }

  lemma {:induction false} ReportIsEndsReport(a: Args, error: int)
    requires Ending(a, error)
    ensures var b := Release(FailIfLast(a, error)); !b.crashed ==> EndsReported(b)
  {
    var b, n := Release(FailIfLast(a, error)), |a.ends| - 1;
    var before := a.ends[..n];
    assert forall k :: 0 <= k < n ==> a.ends[k] == before[k];
    assert a.ends[n] in a.ends;
    if a.failedCount == a.addressesCount && !a.setupCalled {
      assert b.setups == [Setup(error, false)];
    }
    assert Ended(0, a.addressesCount) in before ==> Ended(0, a.addressesCount) in a.ends;
  }

  lemma {:induction false} ReportKeepsSound(a: Args, error: int)
    requires Ending(a, error)
    ensures Sound(Release(FailIfLast(a, error)))
  {
    ReportKeepsOnce(a, error);
    ReportKeepsRefs(a, error);
    ReportKeepsShutdowns(a, error);
    ReportIsEndsReport(a, error);
  }

  /** One more failure, as many as there are and as the code counts them. */
  lemma {:induction false} FailureAddsUp(a: Args, b: Args)
    requires AttemptsAddUp(a) && Failed(b) == Failed(a) + 1 && b.failedCount == (a.failedCount + 1) % 256
    requires b.total == a.total > 0 && b.addressesCount == a.addressesCount && (b.late > 0 ==> b.connectionChosen)
    ensures AttemptsAddUp(b)
    ensures Failed(b) == b.total ==> b.failedCount == b.addressesCount
  {
  }

  lemma {:induction false} EndsOneMore(a: Args, b: Args)
    requires EndsReported(a) && b.setups == a.setups && b.addressesCount == a.addressesCount
    requires |b.ends| == |a.ends| + 1 && b.ends[..|a.ends|] == a.ends
    ensures EndsReported(b.(ends := b.ends[..|b.ends| - 1]))
  {
  }

  lemma {:induction false} AttemptEnds(a: Args, error: int)
    requires Sound(a) && !a.crashed && a.tasks > 0
    ensures Ending(CountFailure(a, error).(tasks := a.tasks - 1), error)
  {
    var b := CountFailure(a, error).(tasks := a.tasks - 1);
    FailureAddsUp(a, b);
    EndsOneMore(a, b);
  }

  lemma {:induction false} SocketFails(a: Args, error: int)
    requires Sound(a) && !a.crashed && a.connecting > 0 && error != 0
    ensures Ending(WithoutSocket(a, error), error)
  {
    var b := WithoutSocket(a, error);
    FailureAddsUp(a, b);
    EndsOneMore(a, b);
  }

  lemma {:induction false} SocketIsLate(a: Args)
    requires Sound(a) && !a.crashed && a.connecting > 0 && a.connectionChosen
    ensures Ending(WithoutSocket(a, 0), 0)
  {
    EndsOneMore(a, WithoutSocket(a, 0));
  }

  lemma {:induction false} AttemptKeepsSound(a: Args, error: int)
    requires Sound(a) && !a.crashed && a.tasks > 0
    ensures Sound(AfterAttemptFails(a, error))
  {
    AttemptEnds(a, error);
    ReportKeepsSound(CountFailure(a, error).(tasks := a.tasks - 1), error);
  }

  lemma {:induction false} LosingSocketKeepsSound(a: Args, error: int)
    requires Sound(a) && !a.crashed && a.connecting > 0 && (error != 0 || a.connectionChosen)
    ensures Sound(AfterConnectResult(a, error))
  {
    if error != 0 {
      SocketFails(a, error);
    } else {
      SocketIsLate(a);
    }
    ReportKeepsSound(WithoutSocket(a, error), error);
  }

  lemma {:induction false} WinningSocketKeepsSound(a: Args)
    requires Sound(a) && !a.crashed && a.connecting > 0 && !a.connectionChosen
    ensures Sound(AfterConnectResult(a, 0))
  {
  }

  lemma {:induction false} SocketKeepsSound(a: Args, error: int)
    requires Sound(a) && !a.crashed && a.connecting > 0
    ensures Sound(AfterConnectResult(a, error))
  {
    if error != 0 || a.connectionChosen {
      LosingSocketKeepsSound(a, error);
    } else {
      WinningSocketKeepsSound(a);
    }
  }

  lemma {:induction false} ReadyKeepsSound(a: Args)
    requires Sound(a) && Enabled(a, ChannelReady)
    ensures Sound(AfterReady(a))
  {
    if !a.setupCalled {
      var b := AfterReady(a);
      assert b.setups == [Setup(0, true)] && b.setups[0].channel;
      SameReport(b.setups);
    }
  }

  lemma {:induction false} DownKeepsSound(a: Args, error: int)
    requires Sound(a) && Enabled(a, ChannelDown(error))
    ensures Sound(AfterChannelDown(a, error))
  {
    if !a.setupCalled {
      var b := AfterChannelDown(a, error);
      assert |b.setups| == 1 && b.setups[0].error != 0;
      SameReport(b.setups);
    }
  }

  lemma {:induction false} TaskKeepsSound(a: Args, ready: bool)
    requires Sound(a) && Enabled(a, RunCallbackTask(ready))
    ensures Sound(AfterCallbackTask(a, ready))
  {
    if ready {
      var b := AfterCallbackTask(a, ready);
      assert |b.setups| == 1 && b.setups[0].error != 0;
      SameReport(b.setups);
    }
  }

  lemma {:induction false} StepKeepsSound(a: Args, b: Args)
    requires Sound(a) && Step(a, b)
    ensures Sound(b)
  {
    var x :| Enabled(a, x) && b == Next(a, x);
    match x
    case AttemptFails(error) => AttemptKeepsSound(a, error);
    case ConnectResult(error) => SocketKeepsSound(a, error);
    case ChannelReady => ReadyKeepsSound(a);
    case ChannelDown(error) => DownKeepsSound(a, error);
    case RunCallbackTask(ready) => TaskKeepsSound(a, ready);
    case _ => StartKeepsSound(a, x);
  }

  lemma {:induction false} InitIsFit(a: Args)
    requires Init(a)
    ensures Once(a) && RefsMatchOwners(a, 0) && AttemptsAddUp(a)
    ensures CallbacksFit(a) && LastEndReported(a) && ShutdownsFit(a)
  {
  }

  lemma {:induction false} InitHasNoEnds(a: Args)
    requires Init(a)
    ensures EndsReported(a) && Exact(a)
  {
  }

  lemma {:induction false} InitIsSound(a: Args)
    requires Init(a)
    ensures Inv(a)
  {
    InitIsFit(a);
    InitHasNoEnds(a);
  }

  lemma {:induction false} ReachableSound(a: Args)
    requires Reachable(Init, Step, a)
    ensures Sound(a)
  {
    forall s | Init(s) ensures Sound(s) {
      InitIsSound(s);
    }
    forall s, t | Sound(s) && Step(s, t) ensures Sound(t) {
      StepKeepsSound(s, t);
    }
    ReachableInvariant(Init, Step, Sound, a);
  }

  // ----- What every order of events keeps -----

  /** For any number of addresses, up to the moment the assertion fails, the reference count is the number of owners;
      the args are destroyed once, when the last owner is gone, so nothing that could still run refers to destroyed
      args. */
  lemma {:induction false} RefCountIsNumberOfOwners(a: Args)
    requires Reachable(Init, Step, a) && !a.crashed
    ensures a.refCount == Owners(a)
    ensures a.destroyed <= 1 && (a.destroyed == 1 <==> Owners(a) == 0)
    ensures a.destroyed == 1 ==> a.tasks == 0 && a.connecting == 0 && !a.channel.Live? && a.callbackTask.None?
    ensures (exists x :: Enabled(a, x)) ==> a.refCount > 0
  {
    ReachableSound(a);
    if x :| Enabled(a, x) {
      assert Owners(a) > 0;
    }
  }

  /** Whatever the number of addresses, the setup callback is called at most once, at most one attempt becomes the
      channel, and the shutdown callback is called at most once. */
  lemma {:induction false} SetupCalledAtMostOnce(a: Args)
    requires Reachable(Init, Step, a)
    ensures |a.setups| <= 1 && a.channelsMade <= 1 && a.shutdowns <= 1
  {
    ReachableSound(a);
  }

  /** The shutdown callback is called exactly for a channel that is gone after setup was called without an error. */
  lemma {:induction false} ShutdownCalledExactlyWhen(a: Args)
    requires Reachable(Init, Step, a) && !a.crashed
    ensures a.shutdowns == 1 <==> a.channel == Gone && a.setups != [] && a.setups[0].error == 0
  {
    ReachableSound(a);
  }

  predicate Quiet(a: Args) {
    !a.resolving && a.tasks == 0 && a.connecting == 0 && !a.channel.Live? && a.callbackTask.None?
  }

  /** Once nothing is left to happen, for any number of addresses, setup was called exactly once and the args are
      destroyed, unless the call that made the args failed itself; the one other way out is a callback task canceled by
      its event loop, which leaves the callback uncalled and the args alive. */
  lemma {:induction false} SetupDeliveredInTheEnd(a: Args)
    requires Reachable(Init, Step, a) && !a.crashed && Quiet(a)
    ensures !a.aborted ==> (|a.setups| == 1 <==> !a.taskCanceled)
    ensures a.destroyed == 1 <==> !a.taskCanceled
    ensures a.aborted ==> a.setups == []
  {
    ReachableSound(a);
  }

  /** A callback task that is canceled is lost: nothing is left to happen, setup was never called, and the args are
      never destroyed. */
  lemma {:induction false} CanceledTaskLosesSetup(error: int) returns (a: Args)
    requires error != 0
    ensures Reachable(Init, Step, a) && Quiet(a) && !a.crashed && !a.aborted
    ensures a.taskCanceled && a.setups == [] && a.destroyed == 0 && a.refCount == 1
  {
    var start := FRESH.(pinned := true);
    ReachesRefl(Step, start);
    assert Init(start);
    var waiting := Next(start, ResolveFailed(error, false));
    StepReaches(start, start, ResolveFailed(error, false));
    StepReaches(start, waiting, RunCallbackTask(false));
    a := Next(waiting, RunCallbackTask(false));
  }

  /** For any number of addresses, the user is told of neither an error nor a channel exactly when some attempt failed
      without an error code, or connected too late, and left the count of failures equal to the count of addresses as
      the code keeps them. (Debug builds stop at this report: an assertion asks that no error and a channel go
      together.) */
  lemma {:induction false} NoErrorNoChannelExactlyWhen(a: Args)
    requires Reachable(Init, Step, a) && !a.crashed
    ensures a.setups == [Setup(0, false)] <==> Ended(0, a.addressesCount) in a.ends
  {
    ReachableSound(a);
    if Ended(0, a.addressesCount) in a.ends {
      var k :| 0 <= k < |a.ends| && a.ends[k] == Ended(0, a.addressesCount);
      assert a.ends[k].failed == a.addressesCount;
    }
  }

  /** Such a report is made by an attempt that fails without an error code, or by one that connects too late, and by
      nothing else. */
  lemma {:induction false} NoErrorNoChannelReportedBy(a: Args, x: Action)
    requires Reachable(Init, Step, a) && Enabled(a, x) && a.setups == []
    ensures Next(a, x).setups == [Setup(0, false)] <==>
            || (x == AttemptFails(0) && (a.failedCount + 1) % 256 == a.addressesCount)
            || (x == ConnectResult(0) && a.connectionChosen && a.failedCount == a.addressesCount)
  {
    ReachableSound(a);
    var told := Next(a, x).setups;
    match x
    case AttemptFails(error) => ReportOfAttempt(a, error);
    case ConnectResult(error) => ReportOfSocket(a, error);
    case _ => SameReport(told);
  }

  lemma {:induction false} ReportOfAttempt(a: Args, error: int)
    requires Sound(a) && !a.crashed && a.tasks > 0 && a.setups == []
    ensures var told := AfterAttemptFails(a, error).setups;
            told == [Setup(0, false)] <==> error == 0 && (a.failedCount + 1) % 256 == a.addressesCount
  {
    var told := AfterAttemptFails(a, error).setups;
    assert told == if (a.failedCount + 1) % 256 == a.addressesCount then [Setup(error, false)] else [];
    assert told != [] ==> told[0] == Setup(error, false);
  }

  lemma {:induction false} ReportOfSocket(a: Args, error: int)
    requires Sound(a) && !a.crashed && a.connecting > 0 && a.setups == []
    ensures AfterConnectResult(a, error).setups == [Setup(0, false)] <==>
            error == 0 && a.connectionChosen && a.failedCount == a.addressesCount
  {
    var told := AfterConnectResult(a, error).setups;
    var b := WithoutSocket(a, error);
    assert told == if (error != 0 || a.connectionChosen) && b.failedCount == a.addressesCount then [Setup(error, false)]
                   else [];
    assert told != [] ==> told[0] == Setup(error, false);
  }

  /** A channel that is ready is announced without an error; one that goes down before that is reported with its own
      error, or as an unknown one exactly if it had none. */
  lemma {:induction false} ChannelReportSaysWhy(a: Args, x: Action)
    requires Reachable(Init, Step, a) && Enabled(a, x) && a.setups == []
    ensures x.ChannelReady? ==> Next(a, x).setups == [Setup(0, true)]
    ensures x.ChannelDown? ==> Next(a, x).setups == [Setup(if x.error == 0 then ERROR_UNKNOWN else x.error, false)]
  {
    ReachableSound(a);
  }

  /** A failed resolution is reported with its error, at once, or by a task if the user asked for another loop. */
  lemma {:induction false} ResolutionReportSaysWhy(a: Args, x: Action)
    requires Reachable(Init, Step, a) && Enabled(a, x)
    ensures x.ResolveFailed? && (!a.pinned || x.onPinnedLoop) ==> Next(a, x).setups == [Setup(x.error, false)]
    ensures x.ResolveFailed? && a.pinned && !x.onPinnedLoop ==>
              Next(a, x).setups == [] && Next(a, x).callbackTask == Some(x.error)
    ensures x.RunCallbackTask? && x.ready ==> Next(a, x).setups == [Setup(a.callbackTask.value, false)]
    ensures x.RunCallbackTask? && !x.ready ==> Next(a, x).setups == []
  {
    ReachableSound(a);
  }

  /** Until setup was called, an attempt that ends reports exactly when it leaves as many failures as there are
      addresses, as the code counts them, and then with its own error. */
  lemma {:induction false} AttemptReportSaysWhy(a: Args, x: Action)
    requires Reachable(Init, Step, a) && Enabled(a, x) && a.setups == [] && (x.AttemptFails? || x.ConnectResult?)
    ensures var told, failed := Next(a, x).setups, (a.failedCount + 1) % 256;
            if x.AttemptFails? || x.error != 0 then
              told == if failed == a.addressesCount then [Setup(x.error, false)] else []
            else told == if a.connectionChosen && a.failedCount == a.addressesCount then [Setup(0, false)] else []
  {
    ReachableSound(a);
  }

  // ----- At most 255 addresses -----

  /** With counts that fit no attempt ends after setup was called for a failure, and the counts never fall. */
  predicate Exact(a: Args) {
    && !a.crashed
    && (a.total > 0 && a.setupCalled ==> a.failedCount == a.total || a.channel == Live(true) || a.channel == Gone)
    && (forall k :: 0 <= k < |a.ends| ==> a.ends[k].failed <= a.failedCount)
    && (a.total > 0 && a.failedCount == a.total ==> a.ends != [] && a.ends[|a.ends| - 1].failed == a.total)
  }

  predicate Inv(a: Args) {
    Sound(a) && Exact(a)
  }

  lemma {:induction false} CountsFit(a: Args)
    requires Inv(a) && a.total <= 255
    ensures a.addressesCount == a.total && a.failedCount == Failed(a) <= a.total
  {
  }

  lemma {:induction false} AttemptKeepsExact(a: Args, error: int)
    requires Inv(a) && a.total <= 255 && a.tasks > 0
    ensures Exact(AfterAttemptFails(a, error))
  {
    CountsFit(a);
  }

  lemma {:induction false} LosingSocketKeepsExact(a: Args, error: int)
    requires Inv(a) && a.total <= 255 && a.connecting > 0 && (error != 0 || a.connectionChosen)
    ensures Exact(AfterConnectResult(a, error))
  {
    CountsFit(a);
  }

  lemma {:induction false} OtherKeepsExact(a: Args, x: Action)
    requires Inv(a) && a.total <= 255 && Enabled(a, x) && !x.AttemptFails?
    requires x.ConnectResult? ==> x.error == 0 && !a.connectionChosen
    ensures Exact(Next(a, x))
  {
    CountsFit(a);
  }

  lemma {:induction false} StepKeepsInv(a: Args, b: Args)
    requires Inv(a) && Step(a, b) && a.total <= 255
    ensures Inv(b)
  {
    StepKeepsSound(a, b);
    var x :| Enabled(a, x) && b == Next(a, x);
    if x.AttemptFails? {
      AttemptKeepsExact(a, x.error);
    } else if x.ConnectResult? && (x.error != 0 || a.connectionChosen) {
      LosingSocketKeepsExact(a, x.error);
    } else {
      OtherKeepsExact(a, x);
    }
  }

  /** The end of the resolution settles the number of addresses for good. */
  lemma {:induction false} TotalIsSettled(a: Args, x: Action)
    requires Sound(a) && Enabled(a, x)
    ensures a.total <= Next(a, x).total
  {
    match x
    case AttemptFails(error) => assert Next(a, x) == AfterAttemptFails(a, error);
    case ConnectResult(error) => assert Next(a, x) == AfterConnectResult(a, error);
    case ChannelDown(error) => assert Next(a, x) == AfterChannelDown(a, error);
    case RunCallbackTask(ready) => assert Next(a, x) == AfterCallbackTask(a, ready);
    case _ =>
  }

  predicate InvIfCounted(a: Args) {
    Sound(a) && (a.total <= 255 ==> Inv(a))
  }

  lemma {:induction false} StepKeepsInvIfCounted(a: Args, b: Args)
    requires InvIfCounted(a) && Step(a, b)
    ensures InvIfCounted(b)
  {
    var x :| Enabled(a, x) && b == Next(a, x);
    TotalIsSettled(a, x);
    StepKeepsSound(a, b);
    if b.total <= 255 {
      StepKeepsInv(a, b);
    }
  }

  lemma {:induction false} ReachableInv(a: Args)
    requires Reachable(Init, Step, a) && a.total <= 255
    ensures Inv(a)
  {
    forall s, t | InvIfCounted(s) && Step(s, t) ensures InvIfCounted(t) {
      StepKeepsInvIfCounted(s, t);
    }
    forall s | Init(s) ensures InvIfCounted(s) {
      InitIsSound(s);
    }
    ReachableInvariant(Init, Step, InvIfCounted, a);
  }

  /** With at most 255 addresses the report of neither an error nor a channel means that every attempt failed, the last
      one without an error code. */
  lemma {:induction false} NoErrorNoChannelMeansAllFailed(a: Args)
    requires Reachable(Init, Step, a) && a.total <= 255
    ensures a.setups == [Setup(0, false)] <==>
            1 <= a.total && a.failedCount == a.total && a.ends != [] && a.ends[|a.ends| - 1].error == 0
  {
    ReachableInv(a);
    NoErrorNoChannelExactlyWhen(a);
    CountsFit(a);
    if a.setups == [Setup(0, false)] {
      var k :| 0 <= k < |a.ends| && a.ends[k] == Ended(0, a.addressesCount);
      assert a.ends[k].failed <= a.failedCount;
      assert a.total > 0;
      var last := a.ends[|a.ends| - 1];
      assert last.failed == a.addressesCount;
      assert [Setup(last.error, false)][0] == a.setups[0];
    } else if 1 <= a.total && a.failedCount == a.total {
      assert a.ends[|a.ends| - 1].failed == a.addressesCount;
    }
  }

  lemma {:induction false} ShutdownIsForAnnouncedChannel(a: Args)
    requires Reachable(Init, Step, a) && a.total <= 255
    ensures a.shutdowns == 1 <==> a.channel == Gone && a.setups == [Setup(0, true)]
  {
    ReachableInv(a);
    ShutdownCalledExactlyWhen(a);
    CountsFit(a);
    if a.channel == Gone && a.setups != [] && a.setups[0].error == 0 && !a.setups[0].channel {
      assert a.setups == [Setup(0, false)];
      NoErrorNoChannelMeansAllFailed(a);
      assert false;
    }
    if a.shutdowns == 1 {
      assert a.setups == [a.setups[0]];
    }
  }

  // ----- More than 255 addresses -----

  const FRESH: Args :=
    Args(false, 1, 0, true, 0, 0, 0, 0, 0, 0, false, NoChannel, 0, false, true, None, false, false, [], [], 0, false)

  /** All attempts scheduled, `k` of them failed. */
  function Failing(n: nat, k: nat): Args
    requires k <= n
  {
    FRESH.(resolving := false, total := n, addressesCount := n % 256, refCount := 1 + n - k, tasks := n - k,
           failedCount := k, ends := seq(k, (i: nat) => Ended(1, i + 1)))
  }

  lemma {:induction false} StepReaches(a: Args, b: Args, x: Action)
    requires Reaches(Step, a, b) && Enabled(b, x)
    ensures Reaches(Step, a, Next(b, x))
  {
    assert Step(b, Next(b, x));
    ReachesStep(Step, a, b, Next(b, x));
  }

  lemma {:induction false} FailuresReach(n: nat, k: nat)
    requires n > 0 && (k == 0 || k < n % 256)
    ensures Reaches(Step, FRESH, Failing(n, k))
  {
    if k == 0 {
      ReachesRefl(Step, FRESH);
      StepReaches(FRESH, FRESH, Resolved(n));
      assert Next(FRESH, Resolved(n)) == Failing(n, 0);
    } else {
      FailuresReach(n, k - 1);
      StepReaches(FRESH, Failing(n, k - 1), AttemptFails(1));
      assert Next(Failing(n, k - 1), AttemptFails(1)) == Failing(n, k);
    }
  }

  /** The count of addresses is cut to 8 bits: with more than 255 of them a failure, or a spurious report for a late
      socket, is reported while attempts are still under way, and the process is ended when one of them succeeds. It
      takes a host resolver of the user's own to hand out that many: the one of this library hands out at most two. */
  lemma {:induction false} CrashReachable(n: nat) returns (a: Args)
    requires n > 255
    ensures Reaches(Step, FRESH, a) && a.total == n && a.crashed
  {
    var c := n % 256;
    if c > 0 {
      FailuresReach(n, c - 1);
      a := Advance(Failing(n, c - 1), AttemptFails(1));
      assert a.setups == [Setup(1, false)];
      a := Advance(a, AttemptStarts);
      a := Advance(a, ConnectResult(0));
    } else {
      a := LateSocketReports(n);
    }
    a := Advance(a, ChannelReady);
  }

  lemma {:induction false} Advance(a: Args, x: Action) returns (b: Args)
    requires Reaches(Step, FRESH, a) && Enabled(a, x)
    ensures Reaches(Step, FRESH, b) && b == Next(a, x)
  {
    b := Next(a, x);
    StepReaches(FRESH, a, x);
  }

  /** The assertion that setup is called once holds in every run with a given number of addresses if and only if that
      number fits in 8 bits. */
  lemma {:induction false} NeverCrashesIffAddressesFitInByte(n: nat)
    ensures (forall a :: Reachable(Init, Step, a) && a.total == n ==> !a.crashed) <==> n <= 255
  {
    if n <= 255 {
      forall a | Reachable(Init, Step, a) && a.total == n ensures !a.crashed {
        ReachableInv(a);
      }
    } else {
      var a := CrashReachable(n);
      assert Init(FRESH);
      assert Reachable(Init, Step, a);
    }
  }

  /** Short of that, with more than 255 addresses the shutdown callback can be called for a channel that was never
      announced: the user was told of neither an error nor a channel while attempts were still under way. */
  lemma {:induction false} UnannouncedShutdownReachable(n: nat) returns (a: Args)
    requires n > 255
    ensures Reaches(Step, FRESH, a) && a.total == n && !a.crashed
    ensures a.shutdowns == 1 && a.channel == Gone && a.setups == [Setup(0, false)]
  {
    var c := n % 256;
    if c > 0 {
      FailuresReach(n, c - 1);
      a := Advance(Failing(n, c - 1), AttemptFails(0));
      assert a.setups == [Setup(0, false)];
      a := Advance(a, AttemptStarts);
      a := Advance(a, ConnectResult(0));
    } else {
      a := LateSocketReports(n);
    }
    a := Advance(a, ChannelDown(0));
  }

  lemma {:induction false} LateSocketReports(n: nat) returns (a: Args)
    requires n > 255 && n % 256 == 0
    ensures Reaches(Step, FRESH, a) && a.total == n && !a.crashed && a.setupCalled && a.hasShutdownCallback
    ensures a.setups == [Setup(0, false)] && a.channel == Live(false) && a.shutdowns == 0
  {
    FailuresReach(n, 0);
    a := Advance(Failing(n, 0), AttemptStarts);
    a := Advance(a, AttemptStarts);
    a := Advance(a, ConnectResult(0));
    a := Advance(a, ConnectResult(0));
  }

  predicate ShutdownMeansAnnounced(a: Args) {
    a.shutdowns == 1 <==> a.channel == Gone && a.setups == [Setup(0, true)]
  }

  /** The shutdown callback is called exactly for an announced channel that is gone, in every run with a given number of
      addresses, if and only if that number fits in 8 bits. */
  lemma {:induction false} ShutdownMeansAnnouncedIffAddressesFitInByte(n: nat)
    ensures (forall a :: Reachable(Init, Step, a) && a.total == n ==> ShutdownMeansAnnounced(a)) <==> n <= 255
  {
    if n <= 255 {
      forall a | Reachable(Init, Step, a) && a.total == n ensures ShutdownMeansAnnounced(a) {
        ShutdownIsForAnnouncedChannel(a);
      }
    } else {
      var a := UnannouncedShutdownReachable(n);
      assert Init(FRESH);
      assert Reachable(Init, Step, a) && !ShutdownMeansAnnounced(a);
    }
  }

  predicate NoErrorMeansAllFailed(a: Args) {
    a.setups == [Setup(0, false)] <==>
    1 <= a.total && a.failedCount == a.total && a.ends != [] && a.ends[|a.ends| - 1].error == 0
  }

  lemma {:induction false} NoErrorMeansAllFailedIffAddressesFitInByte(n: nat)
    ensures (forall a :: Reachable(Init, Step, a) && a.total == n ==> NoErrorMeansAllFailed(a)) <==> n <= 255
  {
    if n <= 255 {
      forall a | Reachable(Init, Step, a) && a.total == n ensures NoErrorMeansAllFailed(a) {
        NoErrorNoChannelMeansAllFailed(a);
      }
    } else {
      var a := UnannouncedShutdownReachable(n);
      assert Init(FRESH);
      ReachableSound(a);
      assert Reachable(Init, Step, a) && !NoErrorMeansAllFailed(a);
    }
  }

  /** An attempt task canceled before any error was raised reports "no error, no channel" to the user. */
  lemma {:induction false} CanceledAttemptMayReportNoError() returns (a: Args)
    ensures Reachable(Init, Step, a) && a.setups == [Setup(0, false)]
  {
    FailuresReach(1, 0);
    StepReaches(FRESH, Failing(1, 0), AttemptFails(0));
    a := Next(Failing(1, 0), AttemptFails(0));
    assert Init(FRESH);
  }

  // ----- The callbacks as the code runs them -----

  class ConnectionArgs {
    const pinned: bool
    var refCount: int
    var addressesCount: nat
    var failedCount: nat
    var connectionChosen: bool
    var channel: ChannelPhase
    var setupCalled: bool
    var hasShutdownCallback: bool
    var callbackTask: Option<int>
    ghost var destroyed: nat
    ghost var resolving: bool
    ghost var total: nat
    ghost var tasks: nat
    ghost var connecting: nat
    ghost var late: nat
    ghost var channelsMade: nat
    ghost var taskCanceled: bool
    ghost var aborted: bool
    ghost var ends: seq<Ended>
    ghost var setups: seq<Setup>
    ghost var shutdowns: nat

    ghost function View(): Args
      reads this
    {
      Args(pinned, refCount, destroyed, resolving, total, addressesCount, failedCount, tasks, connecting, late,
           connectionChosen, channel, channelsMade, setupCalled, hasShutdownCallback, callbackTask, taskCanceled,
           aborted, ends, setups, shutdowns, false)
    }

    constructor (pinned: bool)
      ensures Init(View()) && this.pinned == pinned
    {
      this.pinned := pinned;
      refCount, addressesCount, failedCount, connectionChosen, channel := 1, 0, 0, false, NoChannel;
      setupCalled, hasShutdownCallback, callbackTask := false, true, None;
      destroyed, resolving, total, tasks, connecting, late, channelsMade := 0, true, 0, 0, 0, 0, 0;
      taskCanceled, aborted, ends, setups, shutdowns := false, false, [], [], 0;
    }

    /** s_client_connection_args_release: allowed only while the args are alive. */
    method ReleaseRef()
      requires refCount > 0
      modifies this`refCount, this`destroyed
      ensures View() == Release(old(View()))
    {
      refCount := refCount - 1;
      if refCount == 0 {
        destroyed := destroyed + 1;
      }
    }

    /** s_connect_args_setup_callback_safe; callers show that its fatal assertion holds. */
    method SetupCallbackSafe(error: int, withChannel: bool)
      requires refCount > 0 && !setupCalled
      modifies this`refCount, this`destroyed, this`setups, this`setupCalled, this`hasShutdownCallback
      ensures View() == CallSetup(old(View()), error, withChannel)
    {
      setups, setupCalled := setups + [Setup(error, withChannel)], true;
      if error != 0 {
        hasShutdownCallback := false;
      }
      ReleaseRef();
    }

    /** What s_attempt_connection and s_on_client_connection_established have in common: the last failure is reported,
        and the attempt gives up its reference. The setup callback may drop one reference, but the attempt's own keeps
        the args alive up to the last statement. */
    method FinishAttempt(error: int)
      requires MayFinish(View(), failedCount)
      modifies this`refCount, this`destroyed, this`setups, this`setupCalled, this`hasShutdownCallback
      ensures View() == Release(FailIfLast(old(View()), error))
    {
      if failedCount == addressesCount {
        SetupCallbackSafe(error, false);
      }
      ReleaseRef();
    }

    method LoseSocket(error: int)
      requires connecting > 0 && (error != 0 || connectionChosen)
      requires MayFinish(View(), if error != 0 then (failedCount + 1) % 256 else failedCount)
      modifies this`refCount, this`destroyed, this`setups, this`setupCalled, this`hasShutdownCallback
      modifies this`connecting, this`failedCount, this`ends, this`late
      ensures View() == AfterConnectResult(old(View()), error)
    {
      if error != 0 {
        connecting, failedCount := connecting - 1, (failedCount + 1) % 256;
      } else {
        connecting, late := connecting - 1, late + 1;
      }
      ends := ends + [Ended(error, failedCount)];
      assert View() == WithoutSocket(old(View()), error);
      FinishAttempt(error);
    }

    /** s_on_client_connection_established */
    method OnConnectionEstablished(error: int)
      requires Inv(View()) && total <= 255 && connecting > 0
      modifies this
      ensures View() == AfterConnectResult(old(View()), error)
    {
      if error != 0 || connectionChosen {
        SocketMayFinish(View(), error);
        LoseSocket(error);
        return;
      }
      connecting, connectionChosen, channel, channelsMade := connecting - 1, true, Live(false), channelsMade + 1;
    }

    method LoseAttempt(error: int)
      requires tasks > 0 && MayFinish(View(), (failedCount + 1) % 256)
      modifies this`refCount, this`destroyed, this`setups, this`setupCalled, this`hasShutdownCallback
      modifies this`tasks, this`ends, this`failedCount
      ensures View() == AfterAttemptFails(old(View()), error)
    {
      tasks, failedCount := tasks - 1, (failedCount + 1) % 256;
      ends := ends + [Ended(error, failedCount)];
      assert View() == CountFailure(old(View()), error).(tasks := old(tasks) - 1);
      FinishAttempt(error);
    }

    /** s_attempt_connection when it does not get a socket going */
    method AttemptConnectionFailed(error: int)
      requires Inv(View()) && total <= 255 && tasks > 0
      modifies this
      ensures View() == AfterAttemptFails(old(View()), error)
    {
      AttemptMayFinish(View());
      LoseAttempt(error);
    }

    /** s_on_client_channel_on_shutdown */
    method OnChannelShutdown(error: int)
      requires Inv(View()) && channel.Live?
      modifies this
      ensures View() == AfterChannelDown(old(View()), error)
    {
      if !setupCalled {
        SetupCallbackSafe(if error != 0 then error else ERROR_UNKNOWN, false);
      } else if hasShutdownCallback {
        shutdowns := shutdowns + 1;
      }
      channel := Gone;
      ReleaseRef();
    }

    /** s_connection_args_setup_callback: on the event loop the user asked for, by way of a task if need be. */
    method SetupCallbackOnLoop(error: int, inThread: bool)
      requires refCount > 0 && !setupCalled
      modifies this
      ensures View() == SetupCallback(old(View()), error, inThread)
    {
      if !pinned || inThread {
        SetupCallbackSafe(error, false);
      } else {
        refCount := refCount + 1;
        callbackTask := Some(error);
      }
    }

    /** s_aws_connection_args_setup_callback_task_fn: a canceled task gives up its reference without a call. */
    method RunCallbackTask(ready: bool)
      requires Inv(View()) && callbackTask.Some?
      modifies this
      ensures View() == AfterCallbackTask(old(View()), ready)
    {
      var error := callbackTask.value;
      callbackTask := None;
      taskCanceled := taskCanceled || !ready;
      if ready {
        SetupCallbackSafe(error, false);
      }
      ReleaseRef();
    }

    method OnAddresses(addresses: nat)
      requires resolving && tasks == 0 && 0 < addresses
      modifies this`resolving, this`total, this`addressesCount, this`refCount, this`tasks
      ensures View() == AfterResolved(old(View()), addresses)
    {
      resolving, total, addressesCount := false, addresses, addresses % 256;
      TakeReferences(addresses);
      ScheduleAttempts(addresses);
    }

    /** s_on_host_resolved: all references are taken before the first attempt is scheduled. */
    method OnHostResolved(error: int, addresses: nat, onPinnedLoop: bool)
      requires resolving && refCount > 0 && !setupCalled && tasks == 0 && (error == 0 ==> 0 < addresses)
      modifies this
      ensures error == 0 ==> View() == AfterResolved(old(View()), addresses)
      ensures error != 0 ==> View() == SetupCallback(old(View()).(resolving := false), error, onPinnedLoop)
    {
      if error == 0 {
        OnAddresses(addresses);
        return;
      }
      resolving := false;
      SetupCallbackOnLoop(error, onPinnedLoop);
    }

    method TakeReferences(n: nat)
      modifies this`refCount
      ensures View() == old(View()).(refCount := old(refCount) + n)
    {
      for i := 0 to n
        invariant refCount == old(refCount) + i
      {
        refCount := refCount + 1;
      }
    }

    method ScheduleAttempts(n: nat)
      modifies this`tasks
      ensures View() == old(View()).(tasks := old(tasks) + n)
    {
      for i := 0 to n
        invariant tasks == old(tasks) + i
      {
        tasks := tasks + 1;
      }
    }
  }

  /** Enough references for an attempt to finish with the given count of failures, and no report of failure twice. */
  predicate MayFinish(a: Args, failed: nat) {
    a.refCount > 0 && (failed == a.addressesCount ==> !a.setupCalled && a.refCount > 1)
  }

  lemma {:induction false} SocketMayFinish(a: Args, error: int)
    requires Inv(a) && a.total <= 255 && a.connecting > 0 && (error != 0 || a.connectionChosen)
    ensures MayFinish(a, if error != 0 then (a.failedCount + 1) % 256 else a.failedCount)
  {
  }

  lemma {:induction false} AttemptMayFinish(a: Args)
    requires Inv(a) && a.total <= 255 && a.tasks > 0
    ensures MayFinish(a, (a.failedCount + 1) % 256)
  {
  }
}
