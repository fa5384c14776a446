# A verified model of aws-c-io

aws-c-io is an event-driven I/O framework. Its difficult parts are protocols between threads and callbacks: task queues
that several threads push to, credit-based flow control, a shutdown handshake, callbacks that must be called exactly
once, and references that must be released exactly once. This project models those parts in Dafny 4.11 and proves what
every run of them keeps.

    dafny verify dfyconfig.toml

## How the models are built

Each component has a module of its own. A protocol is a value type for its state, a type of actions, and a function
`Next` from states to states. A section that the code runs under a lock is one action, and so is everything another
thread or a user callback can do in between. `Traces` defines runs and reachable states of such a system; the theorems
speak about every reachable state, or about both ends of every run. Next to the protocol stands a class with the fields
and loops of the code, whose methods are proved to take the steps of the protocol, alone (`== Next(old(..), ..)`) or
with arbitrary steps of others in between (`Reaches(Step, old(..), ..)`).

| file | what it models |
|---|---|
| `ChannelTasks.dfy` | task lists of a channel, cross-thread scheduling, cancellation at shutdown |
| `ChannelShutdown.dfy` | the two-direction shutdown handshake along the slots |
| `ChannelSlots.dfy` | the doubly linked slot list and the cached message overheads |
| `ChannelWindow.dfy` | read windows, credit batches and the window update task |
| `ClientBootstrap.dfy` | the race of connection attempts and their shared, counted args |
| `HostCache.dfy` | good and failed addresses of a host, expiry and promotion |
| `HostResolver.dfy` | requests, entries, their threads, and the end of a resolver |
| `SocketWrite.dfy` | the write queue of a socket, completions, purge and close |
| `SocketRead.dfy`, `MessagePool.dfy` | the read loop of the socket handler and the pools its messages come from |
| `Future.dfy` | futures: completion, callbacks, ownership of results |
| `AsyncFill.dfy` | filling a buffer from an asynchronous stream |
| `RetryBucket.dfy` | the token bucket of the standard retry strategy |
| `Pem.dfy`, `PemSanitize.dfy` | parsing and cleaning up PEM text |
| `Der.dfy` | DER encoding of ECDSA signatures |
| `Traces.dfy`, `Basics.dfy` | runs of a transition system; small shared definitions |

## Where the code does not do what one would expect

Each of these is a lemma with the input or the run that shows it, and, where there is one, the exact condition.

- A channel task later in a batch can still run as ready after an earlier task of the batch shut the channel down
  (`ChannelTasks.OpenBatchMayRunReadyAfterShutDown`). After SHUT_DOWN exactly the tasks of a batch that was taken before
  by a scheduling task in good standing do so (`ChannelTasks.LateTaskIsCanceled`).
- Credit batched while a window is high stays in the batch when the window runs low later
  (`ChannelWindow.PendingCreditMayWaitForNextIncrement`), and so does credit granted to a slot that the update task has
  already passed (`ChannelWindow.GrantBehindSweepStays`). Between updates a slot has credit pending exactly when some was
  granted since its last sweep, all of it while the window was above the threshold and no update was scheduled
  (`ChannelWindow.CreditWaitsExactlyWhen`).
- Inserting a slot that already has a handler leaves stale overheads to its right, exactly when it adds something to a
  handler there (`ChannelSlots.OverheadsAfterInsertion`).
- Address counts are kept in 8 bits, which goes wrong from 256 addresses on. No run with n addresses fails the assertion
  that setup is called once (source/channel_bootstrap.c:194), which ends the process, if and only if n is at most 255
  (`ClientBootstrap.NeverCrashesIffAddressesFitInByte`). Short of that, the shutdown callback may be called for a channel
  that was never announced (`ClientBootstrap.UnannouncedShutdownReachable`); every run with n addresses is free of this,
  too, if and only if n is at most 255 (`ClientBootstrap.ShutdownMeansAnnouncedIffAddressesFitInByte`). It takes a host
  resolver of the user's own to hand out more: the default one hands out at most two addresses
  (source/host_resolver.c:986-1009, 1374-1408).
- The user can be told of neither an error nor a channel (`ClientBootstrap.CanceledAttemptMayReportNoError`): exactly when
  an attempt that was canceled without an error code, or that connected too late, left the count of failures equal to the
  count of addresses as the code keeps them (`ClientBootstrap.NoErrorNoChannelExactlyWhen`). That this means "all attempts
  failed, the last one without an error code" is true if and only if there are at most 255 addresses
  (`ClientBootstrap.NoErrorMeansAllFailedIffAddressesFitInByte`). Only debug builds check for such a report
  (source/channel_bootstrap.c:196).
- A task that carries the setup callback to the event loop the user asked for and is canceled there is lost: setup is
  never called, and the args are never destroyed (`ClientBootstrap.CanceledTaskLosesSetup`). In every other run that does
  not fail the assertion setup has been called once nothing is left to happen (`ClientBootstrap.SetupDeliveredInTheEnd`).
- A live entry of the host resolver can be out of its table. It is taken out exactly when the thread of another entry of
  the same host stops, be it one that was purged (`HostResolver.LiveEntryMayLeaveTable`) or one that went idle outside
  the table itself (`HostResolver.IdleEntryMayTakeOutAnother`); so a live entry is in the table exactly when no other
  entry of its host stopped since it was launched (`HostResolver.LiveEntryIsListedExactlyWhen`).
- The failed addresses of a host are consulted but never handed out (`HostCache.RecordCaches.GetLruAddress`).
- A write to a closed socket does not return. A close takes the event loop out of the socket
  (source/posix/socket.c:1416) before it calls completions, and a write asks that loop for its thread first
  (source/posix/socket.c:1863, source/event_loop.c:522-525), so that a completion that writes while the socket is being
  closed crashes the program (`SocketWrite.CompletionWritingAfterCloseCrashes`). A write returns if and only if the socket
  is open (`SocketWrite.WriteReturnsExactlyWhenOpen`). The socket handler of a channel checks before it writes
  (source/socket_channel_handler.c:96-98).
- An error of the downstream handler goes unreported on the message that uses up a read turn
  (`SocketRead.LastMessageErrorMayGoUnreported`), and in the middle of a turn if it is AWS_IO_READ_WOULD_BLOCK
  (`SocketRead.WouldBlockErrorMayGoUnreported`), and in no other case (`SocketRead.DownstreamErrorIsReportedExactlyWhen`).
  In the second case bytes that have arrived may be left with nothing to get them read
  (`SocketRead.BytesAreForgottenExactlyWhen`).
- Paying capacity back to a retry bucket wraps around: with the largest maximum the first success empties a full bucket
  (`RetryBucket.SuccessMayEmptyBucket`). No run lowers the capacity in this way if and only if the maximum is at most
  SIZE_MAX - 10 (`RetryBucket.PaysBackIffMaximumLeavesRoom`).
- The message pool mixes up its segments if small messages are configured larger than application messages and some are
  kept (`MessagePool.CapacityFitsExactlyWhen`).
- Cleaning up a PEM text loses closing dashes when blocks follow each other without a byte between them
  (`PemSanitize.AdjacentBlocksLoseDashes`). Something is lost if and only if in some block the number of blocks before it,
  less the bytes skipped so far, is at most the number of bytes left at a header of the block, but more than that number
  less the length of the header (`PemSanitize.SanitizePem`).
- A PEM text that ends inside an object is rejected with all the objects before it, although the code's own comment says
  that whatever was parsed is returned (source/pem.c:348-351); one with a malformed begin header after an object is not
  (`Pem.ParseFollowsLayout`).
- A signature is not encodable once the two numbers need more than 127 bytes together, which can happen from 61 bytes a
  number on (`Der.EncodePartSignature`, `Der.LargerCurvesMayFail`).

## Assumptions

- Memory allocation succeeds, and the event loop runs or cancels each pending task once.
- The cache of aws-c-common evicts its least recently used element, and looking an element up makes it the most recently
  used; its capacity is at least 1. Its byte buffer doubles when a single byte does not fit, and its string split yields
  one piece more than there are separators.
- Users respect reference counts: nothing is called on an object after its last reference is gone.
- A socket is assigned to an event loop before it is written to, and calls on it are made on the thread of that loop.
- In the model of read windows the slots of a channel and their handlers do not change during a run.
- Connection attempts run on the event loop the user asked for, if any, so that their last failure is reported in place.
- Each channel handler reports the end of a shutdown once per direction.
- `send` and `read` of the kernel return what they are documented to return; how much they take or give is arbitrary.
- `size_t` has 64 bits. Where wrap-around or saturation matters it is written out.

## Model

| member | source | states |
|---|---|---|
| `ChannelTasks.TaskCalledAtMostOnce` | source/channel.c:486-603 | in every interleaving no task function is called twice, and a task not yet called is on exactly one list, or with the thread that brought it if it was turned away |
| `ChannelTasks.AllTasksCalledWhenShutdownCompletes` | source/channel.c:902-935 | when on_shutdown_completed has fired the lists are empty and every task that was let in was called exactly once; a task that was turned away was called or is about to be, by the thread that brought it |
| `ChannelTasks.LateTaskIsCanceled` | source/channel.c:486-603 | a task registered after SHUT_DOWN is CANCELED; a call made after SHUT_DOWN is ready if and only if it comes from a batch taken before SHUT_DOWN by a scheduling task run as ready |
| `ChannelTasks.EveryCallIsAccountedFor` | source/channel.c:486-603 | in every run a call made out of a batch has the status the batch was settled on, and is canceled if its task is for the future; a call made by a wrapper has the status that was given, or canceled once the channel is shut down; a call made on the spot is canceled, and only for a task that was brought after SHUT_DOWN |
| `ChannelTasks.DrainDefersExactlyFutureTasks` | source/channel.c:518-529 | a turn of a drain in good standing takes the front task off the batch and schedules it, uncalled, exactly if it is for the future; otherwise, or in a canceled drain, it calls it |
| `ChannelTasks.RegistrationGoesWhere` | source/channel.c:543-603 | a task goes to the end of the list of the thread that brings it, or, on a channel that is shut down, to no list |
| `ChannelTasks.WrapperCallsItsTask` | source/channel.c:486-497 | a wrapper that is run or canceled takes its own task off the event-loop list and calls it, once |
| `ChannelTasks.OpenBatchMayRunReadyAfterShutDown` | source/channel.c:511-529 | a reachable state in which a task ran as ready after SHUT_DOWN, because its batch was open |
| `ChannelTasks.NoLostWakeUp` | source/channel.c:499-530 | the cross-thread list is non-empty exactly while the scheduling task is pending or about to take it, and it is never pending twice |
| `ChannelTasks.CrossThreadTasksRunInPushOrder` | source/channel.c:574-640 | "now" tasks of the cross-thread list are called in push order across any number of batches |
| `ChannelTasks.StepKeepsInv` | source/channel.c:486-640 | every action of any thread keeps all of the above |
| `ChannelTasks.TaskChannel.constructor` | source/channel.c:205-262 | a new channel is an initial state of the protocol |
| `ChannelTasks.TaskChannel.RegisterPendingTaskInEventLoop` | source/channel.c:543-572 | puts the task on the event-loop list, or calls it as canceled when the channel is shut down |
| `ChannelTasks.TaskChannel.RegisterPendingTaskCrossThread` | source/channel.c:574-603 | a task is appended to the cross-thread list with the scheduling task under way, or, on a channel that is shut down, called as canceled after the lock is released, whatever others do in between |
| `ChannelTasks.TaskChannel.EnterCrossThread` | source/channel.c:585-598 | the critical section appends to the list and schedules the scheduling task exactly when the list was empty, or turns the task away |
| `ChannelTasks.TaskChannel.ChannelTaskRun` | source/channel.c:486-497 | takes the task off the list and calls it, canceled if the channel is shut down |
| `ChannelTasks.TaskChannel.DrainFront` | source/channel.c:518-529 | one turn of a drain is a run of protocol steps that removes the front of the batch, whatever the task function does; `ChannelTasks.DrainDefersExactlyFutureTasks` says which task is called and which is scheduled |
| `ChannelTasks.TaskChannel.ScheduleCrossThreadTasks` | source/channel.c:499-530 | the whole drain is a run of the protocol and leaves no batch behind |
| `ChannelTasks.TaskChannel.CancelThreadTasks` | source/channel.c:909-920 | the event-loop list is emptied by protocol steps |
| `ChannelTasks.TaskChannel.CancelCrossTasks` | source/channel.c:922-929 | the cross-thread list is emptied by running the pending scheduling task |
| `ChannelTasks.TaskChannel.OnShutdownCompletionTask` | source/channel.c:902-935 | notifies with both lists empty and every task that was let in called exactly once |
| `ChannelShutdown.EverySlotShutDownOnceEachWay` | source/channel.c:949-1004 | each handler is asked once left to right in the read direction and once right to left in the write direction, in exactly these positions; SHUT_DOWN comes after all of them |
| `ChannelShutdown.NotifiedOnceWithFirstCode` | source/channel.c:345-413 | at most one notification, only after SHUT_DOWN, with the last reported code, which is the first requested one when handlers pass it through |
| `ChannelShutdown.FirstRequestKept` | source/channel.c:386-413 | later requests never replace the first one |
| `ChannelShutdown.ShutdownMakesProgress` | source/channel.c:345-413 | a requested shutdown is never stuck and every move but another request brings it closer to the notification, within 4n + 4 moves |
| `ChannelShutdown.QueuesSeeLegalChanges` | source/channel.c:937-1004 | what the task queues see of the state changes only in the order live, SHUTTING_DOWN, SHUT_DOWN |
| `ChannelShutdown.ShutdownChannel.ChannelShutdown` | source/channel.c:386-413 | keeps the first request and schedules the shutdown task once, whatever others try before it is scheduled |
| `ChannelShutdown.ShutdownChannel.ShutdownTask` | source/channel.c:345-384 | starts the read direction at the first slot, or finishes at once without slots |
| `ChannelShutdown.ShutdownChannel.OnHandlerShutdownComplete` | source/channel.c:949-1004 | passes the shutdown on in the same direction, turns around at the end of the chain, or finishes |
| `ChannelShutdown.ShutdownChannel.RunShutdownWriteDirection` | source/channel.c:937-947 | starts the write direction at the last slot |
| `ChannelSlots.SlotChannel.NewSlot` | source/channel.c:441-456 | the first slot made becomes the head; later ones are not linked yet |
| `ChannelSlots.SlotChannel.InsertRight` | source/channel.c:719-730 | inserts after the given slot in the sequence the links spell out; overheads stay right if and only if the insertion is safe |
| `ChannelSlots.SlotChannel.InsertLeft` | source/channel.c:749-764 | inserts before the given slot; overheads stay right if and only if the insertion is safe |
| `ChannelSlots.SlotChannel.InsertEnd` | source/channel.c:732-747 | appends, and fails exactly when there is no first slot or the slot is the first; overheads stay right if and only if the insertion is safe |
| `ChannelSlots.SlotChannel.UpdateOverheads` | source/channel.c:654-665 | every slot with a handler caches the sum of the overheads of the handlers to its left |
| `ChannelSlots.SlotChannel.SetHandler` | source/channel.c:667-673 | sets one handler and makes all overheads right |
| `ChannelSlots.SlotChannel.Remove` | source/channel.c:675-695 | removes the slot from the sequence, keeps the links mutually inverse and makes all overheads right; a slot never inserted changes nothing |
| `ChannelSlots.SlotChannel.Replace` | source/channel.c:697-717 | puts the new slot in the old one's place and makes all overheads right |
| `ChannelSlots.OverheadsAfterInsertion` | source/channel.c:654-764 | given right overheads, they are right after an insertion if and only if the new slot's cache is right and it adds nothing to a handler on its right |
| `ChannelWindow.DeliveredWithinCredit` | source/channel.c:766-882 | with back-pressure, in every run window + batch + bytes delivered is at most the credit accepted, equal exactly while no addition saturated; bytes delivered never exceed credit |
| `ChannelWindow.NoCreditIsLost` | source/channel.c:766-882 | in every run with back-pressure, while the credit granted to a slot is at most SIZE_MAX, window + batch + bytes delivered equals it, with no loss term, and the left neighbour was told of window + delivered |
| `ChannelWindow.SweepMovesWholeBatch` | source/channel.c:845-861 | with a handler on the left the window grows by the whole batch and the batch becomes 0; cut off, and booked as lost, is exactly what exceeds SIZE_MAX; without one, and in all other slots, nothing changes |
| `ChannelWindow.GrantJoinsBatch` | source/channel.c:866-882 | with back-pressure on a channel that goes on the batch grows by the whole amount, less exactly what exceeds SIZE_MAX; otherwise nothing changes |
| `ChannelWindow.MessageTakesItsLength` | source/channel.c:766-799 | with back-pressure a message gets through exactly when its length is at most the window, which it lowers by its length; otherwise nothing changes |
| `ChannelWindow.UpdateIsScheduledExactlyWhen` | source/channel.c:832-882 | an update gets scheduled exactly by a grant at or below the threshold, and starts at the last slot exactly when it was not canceled and the channel goes on |
| `ChannelWindow.BatchIsCreditSinceSweep` | source/channel.c:832-882 | the batch is exactly what was granted since the slot was last swept, cut off at SIZE_MAX |
| `ChannelWindow.CreditWaitsExactlyWhen` | source/channel.c:832-882 | with no update scheduled or running, a slot has credit pending exactly when some was granted since its last sweep, and all such grants came above the threshold with no update scheduled |
| `ChannelWindow.StepKeepsAttended` | source/channel.c:832-882 | credit granted to a low window, or while an update is scheduled, has an update on its way to the slot until it is swept |
| `ChannelWindow.PendingCreditMayWaitForNextIncrement` | source/channel.c:866-882 | a reachable state with pending credit, an empty window and no update scheduled |
| `ChannelWindow.GrantBehindSweepStays` | source/channel.c:844-862 | a reachable state after a complete update in which credit granted to a slot already swept is pending |
| `ChannelWindow.WindowChannel.SendMessage` | source/channel.c:766-799 | lets a message through exactly when it fits, then charges the window |
| `ChannelWindow.WindowChannel.IncrementReadWindow` | source/channel.c:866-882 | batches credit with saturation and schedules an update when the window is low |
| `ChannelWindow.WindowChannel.SweepSlot` | source/channel.c:845-861 | moves the whole batch of one slot into its window (`ChannelWindow.SweepMovesWholeBatch`) and tells the left neighbour, which may send, grant credit and start a shutdown |
| `ChannelWindow.WindowChannel.WindowUpdateTask` | source/channel.c:832-864 | after a sweep that ends normally a swept slot has an empty batch exactly when nothing was granted to it after its own turn, and all have if handlers grant only to slots the task has yet to come to |
| `ClientBootstrap.RefCountIsNumberOfOwners` | source/channel_bootstrap.c:185-301 | for any number of addresses, until the assertion fails, the count equals undelivered setup + unfinished attempts + live channel + callback task; destroyed once, exactly when that is 0, so nothing that can still run refers to destroyed args |
| `ClientBootstrap.SetupCalledAtMostOnce` | source/channel_bootstrap.c:185-690 | for any number of addresses setup and shutdown are called at most once each and at most one attempt becomes the channel |
| `ClientBootstrap.ShutdownCalledExactlyWhen` | source/channel_bootstrap.c:285-520 | for any number of addresses shutdown is called if and only if the channel is gone and setup was called without an error |
| `ClientBootstrap.StepKeepsSound` | source/channel_bootstrap.c:185-966 | every event keeps counts, attempts and callbacks consistent, for any number of addresses |
| `ClientBootstrap.SetupDeliveredInTheEnd` | source/channel_bootstrap.c:185-789 | for any number of addresses, when nothing is left to happen and the assertion has not failed, the args are destroyed, and setup was called exactly once unless the call that made them failed itself, if and only if no callback task was canceled |
| `ClientBootstrap.CanceledTaskLosesSetup` | source/channel_bootstrap.c:207-274 | a run that ends with setup never called and the args never destroyed, because the callback task was canceled |
| `ClientBootstrap.NeverCrashesIffAddressesFitInByte` | source/channel_bootstrap.c:185-205 | no run with n addresses fails the assertion that setup is called once if and only if n <= 255 |
| `ClientBootstrap.CrashReachable` | source/channel_bootstrap.c:526-690 | for every n > 255 a run that fails it |
| `ClientBootstrap.ShutdownMeansAnnouncedIffAddressesFitInByte` | source/channel_bootstrap.c:285-520 | "shutdown is called exactly for an announced channel that is gone" holds in every run with n addresses if and only if n <= 255 |
| `ClientBootstrap.UnannouncedShutdownReachable` | source/channel_bootstrap.c:526-690 | for every n > 255 a run without a failed assertion that calls shutdown for a channel never announced |
| `ClientBootstrap.CanceledAttemptMayReportNoError` | source/channel_bootstrap.c:632-690 | a run that reports error 0 and no channel |
| `ClientBootstrap.NoErrorNoChannelExactlyWhen` | source/channel_bootstrap.c:526-690 | for any number of addresses error 0 without a channel is reported if and only if an attempt that failed with error 0 or connected too late left failed and address counts equal |
| `ClientBootstrap.NoErrorNoChannelReportedBy` | source/channel_bootstrap.c:526-690 | for any number of addresses the step that reports it is such a failure or late connection, and no other |
| `ClientBootstrap.ChannelReportSaysWhy` | source/channel_bootstrap.c:285-520 | a channel that is ready is announced without an error; one that goes down before is reported with its own error, with AWS_ERROR_UNKNOWN exactly if that is 0 |
| `ClientBootstrap.ResolutionReportSaysWhy` | source/channel_bootstrap.c:207-274 | a failed resolution is reported with its own error, at once or by the task on the loop the user asked for |
| `ClientBootstrap.AttemptReportSaysWhy` | source/channel_bootstrap.c:526-690 | until setup was called an attempt that ends reports exactly when it leaves as many failures as addresses, in 8 bits, and then its own error |
| `ClientBootstrap.NoErrorMeansAllFailedIffAddressesFitInByte` | source/channel_bootstrap.c:526-690 | "error 0 without a channel means all attempts failed, the last one with error 0" holds in every run with n addresses if and only if n <= 255 |
| `ClientBootstrap.StepKeepsInv` | source/channel_bootstrap.c:185-966 | with at most 255 addresses every event also keeps the assertion and the counts exact |
| `ClientBootstrap.ConnectionArgs.ReleaseRef` | source/channel_bootstrap.c:166-171 | the last release destroys |
| `ClientBootstrap.ConnectionArgs.SetupCallbackSafe` | source/channel_bootstrap.c:185-205 | calls setup, drops the shutdown callback on an error and releases, on args that are alive |
| `ClientBootstrap.ConnectionArgs.OnConnectionEstablished` | source/channel_bootstrap.c:526-621 | with at most 255 addresses: counts failures, reports the last one, or makes the channel; the args are alive at every use |
| `ClientBootstrap.ConnectionArgs.AttemptConnectionFailed` | source/channel_bootstrap.c:632-690 | with at most 255 addresses: counts the failure, reports the last one and releases, on args that are alive |
| `ClientBootstrap.ConnectionArgs.OnChannelShutdown` | source/channel_bootstrap.c:285-520 | reports setup failure or shutdown, whichever is due, and releases |
| `ClientBootstrap.ConnectionArgs.OnHostResolved` | source/channel_bootstrap.c:692-789 | takes a reference for every address before the first attempt is scheduled, or reports the failure on the right event loop |
| `ClientBootstrap.ConnectionArgs.constructor` | source/channel_bootstrap.c:832-860 | new args hold one reference, for the setup callback that is owed |
| `ClientBootstrap.ConnectionArgs.FinishAttempt` | source/channel_bootstrap.c:572-585 | reports the last failure and gives up the attempt's reference, on args that stay alive to the last statement |
| `ClientBootstrap.ConnectionArgs.SetupCallbackOnLoop` | source/channel_bootstrap.c:262-274 | calls setup at once, or takes a reference for a task that will |
| `ClientBootstrap.ConnectionArgs.RunCallbackTask` | source/channel_bootstrap.c:228-238 | a task that runs calls setup; a canceled one only gives up its reference |
| `HostCache.GoodAndFailedAreDisjoint` | source/host_resolver.c:491-844 | in every reachable entry good and failed addresses are disjoint and distinct, caches within capacity, and every announced address is good or was withdrawn |
| `HostCache.KeptRecords` | source/host_resolver.c:499-518 | processing keeps exactly the unexpired records, or only the last when all have expired; nothing is lost or invented |
| `HostCache.KeptOrder` | source/host_resolver.c:499-518 | the kept records stand in the same least-recently-used order |
| `HostCache.FailedAddressReturnsExactlyByPromotion` | source/host_resolver.c:526-563 | a failed address becomes good if and only if records are processed without a good one, its record is unexpired, and all less recently used failed ones have expired |
| `HostCache.PromotionHappensExactlyWhen` | source/host_resolver.c:526-563 | without good records a promotion happens if and only if some failed record is unexpired: the least recently used such record is then the only good one, unchanged, alone leaves the failed ones and alone is announced; if all have expired nothing changes |
| `HostCache.ProcessingDropsExpired` | source/host_resolver.c:491-518 | with good records exactly the expired ones go, or all but the last if all have expired, in the same order; what goes is withdrawn and failed records are left alone |
| `HostCache.FailureIsRecorded` | source/host_resolver.c:646-684 | a failed address leaves the good ones and is the newest failed record with one more failure and the same expiry |
| `HostCache.FailureLeavesOthers` | source/host_resolver.c:646-700 | the records of all other addresses stay, except the least recently used failed one if that cache is full; the address is withdrawn exactly if it was good |
| `HostCache.RefreshOfOne` | source/host_resolver.c:770-844 | a known address gets the new expiry where it is and keeps its failures; an unknown one becomes good and is announced, and only a full cache loses its least recently used record for it |
| `HostCache.VendingTakesTurns` | source/host_resolver.c:740-768 | k requests hand out the k least recently used good addresses; a full round restores the order |
| `HostCache.RefreshRenewsAll` | source/host_resolver.c:770-844 | the last addresses a resolution lists, as many as the cache has room for, are cached with the new expiry, whatever was cached before |
| `HostCache.RefreshKeepsLatest` | source/host_resolver.c:770-844 | after any resolution the good cache holds, in order of last use, the latest of the good addresses and the listed ones that are not failed, as many as it has room for; listed failed ones stay failed and become the latest of those |
| `HostCache.StepKeepsInv` | source/host_resolver.c:491-844 | refresh, processing, failure and vending keep the caches consistent |
| `HostCache.RecordCaches.DropExpired` | source/host_resolver.c:499-518 | the rotation loop equals the simple filter, order and withdrawn addresses included |
| `HostCache.RecordCaches.Promote` | source/host_resolver.c:526-563 | without good records exactly the first unexpired failed record is promoted and announced (`HostCache.PromotionHappensExactlyWhen`) |
| `HostCache.RecordCaches.ProcessRecords` | source/host_resolver.c:491-564 | both halves together equal the specification |
| `HostCache.RecordCaches.UpdateAddressCache` | source/host_resolver.c:770-844 | renews or takes in each address in turn |
| `HostCache.RecordCaches.RecordConnectionFailure` | source/host_resolver.c:615-700 | moves a good address to the failed ones, or counts one more failure |
| `HostCache.RecordCaches.GetLruAddress` | source/host_resolver.c:740-768 | hands out the least recently used good address, never a failed one |
| `HostResolver.AnsweredAtMostOnce` | source/host_resolver.c:347-446 | in every interleaving each accepted request is answered at most once |
| `HostResolver.CleanedUpOnceAllAnswered` | source/host_resolver.c:426-446 | cleaned up at most once, exactly when released and every entry has completed; by then every request was answered once and nothing can happen any more |
| `HostResolver.AnswerSaysHowItFared` | source/host_resolver.c:992-1042 | a request answered from the cache gets addresses, one answered by its thread gets them exactly if the query succeeded, and one left behind by a thread that stopped gets an error |
| `HostResolver.RequestsWaitAtTheirHost` | source/host_resolver.c:1320-1444 | in every run a request waits only on an entry of the host it asked for |
| `HostResolver.NewRequestGoesWhere` | source/host_resolver.c:1320-1444 | a request is answered from the cache exactly if the table has an entry with addresses for its host; otherwise it is last in line on the entry in the table, new if there was none |
| `HostResolver.ThreadStopsExactlyWhen` | source/host_resolver.c:1099-1124 | a thread stops exactly if its entry was shut down or is idle without requests, and what waits stays in line |
| `HostResolver.TableEntriesAreLive` | source/host_resolver.c:1074-1119 | an entry found in the table is active and its thread has not stopped |
| `HostResolver.LiveEntryLeavesTableExactlyWhen` | source/host_resolver.c:1099-1118 | a step takes a live entry out of the table if and only if it is the thread of another entry of the host that stops |
| `HostResolver.LiveEntryIsListedExactlyWhen` | source/host_resolver.c:1099-1118 | in every run a live entry is in the table if and only if no other entry of its host stopped since it was launched |
| `HostResolver.LiveEntryMayLeaveTable` | source/host_resolver.c:1115-1118 | a run in which a live entry is no longer in the table |
| `HostResolver.IdleEntryMayTakeOutAnother` | source/host_resolver.c:1107-1118 | a run in which an entry that goes idle outside the table takes the entry launched in its place out of it |
| `HostResolver.ShuttingDownEntryFinishes` | source/host_resolver.c:885-1152 | each step of the thread of an entry that shuts down brings it closer to its end and no other step sets it back |
| `HostResolver.StepKeepsInv` | source/host_resolver.c:251-446 | every action keeps each request in exactly one place and the count equal to the unfinished entries |
| `HostResolver.ResolverImpl.ClearTable` | source/host_resolver.c:251-260 | shuts down exactly the entries in the table and empties it |
| `HostResolver.ResolverImpl.PurgeCache` | source/host_resolver.c:262-269 | shuts down every entry in the table and empties it |
| `HostResolver.ResolverImpl.ResolveHost` | source/host_resolver.c:1320-1444 | launches an entry, answers from the cache, or queues the request |
| `HostResolver.ResolverImpl.AnswerAll` | source/host_resolver.c:992-1042 | every request taken has been answered once when the loop ends, whatever other threads do |
| `HostResolver.ResolverImpl.ThreadPass` | source/host_resolver.c:977-1124 | after one pass every request that waited at its start has been answered, and the thread goes on or has left the table |
| `HostResolver.ResolverImpl.OnEntryShutdownCompletion` | source/host_resolver.c:384-446 | fails what is pending, completes the entry, and the last one cleans up |
| `HostResolver.ResolverImpl.Destroy` | source/host_resolver.c:347-366 | the release clears the table and cleans up at once if no entry is left |
| `HostResolver.ResolverImpl.PurgeHostCache` | source/host_resolver.c:566-613 | shuts down and removes the host's entry; an unknown host is no error |
| `HostResolver.ResolverImpl.DecideToGoOn` | source/host_resolver.c:1099-1124 | an idle entry without requests is shut down; a thread that stops removes its host name from the table |
| `HostResolver.ResolverImpl.CompleteEntry` | source/host_resolver.c:426-446 | the last entry of a released resolver cleans it up |
| `SocketWrite.CompletionsInOrder` | source/posix/socket.c:1436-1518 | completions are called in the order of the accepted writes, at most once each, never for a refused write |
| `SocketWrite.AllCompletedWhenQueuesAreEmpty` | source/posix/socket.c:1436-1454 | with both queues empty every accepted write has been completed |
| `SocketWrite.NoCompletionIsForgotten` | source/posix/socket.c:1640-1644 | outside a delivery, whatever waits for completion has its task scheduled |
| `SocketWrite.TaskIsScheduledExactlyWhen` | source/posix/socket.c:1640-1644 | the task is scheduled exactly when sending adds to the written queue, covers all of it when it starts, and is done without by a close |
| `SocketWrite.WireCarriesRequestsInOrder` | source/posix/socket.c:1547-1620 | until a send fails for good the wire carries completed and written requests in full, then a prefix of the front one |
| `SocketWrite.SuccessMeansSentInFull` | source/posix/socket.c:1601-1638 | a completion of a write with bytes reports success if and only if all were sent; until a send fails for good the only other report is that the socket was closed, made by a close |
| `SocketWrite.WriteRefusedExactlyWhen` | source/posix/socket.c:1571-1588 | a write to an open socket returns an error if and only if the write direction was shut down or, after answers that took bytes but left some, the kernel answers with an error other than EAGAIN |
| `SocketWrite.AnswersDecide` | source/posix/socket.c:1547-1620 | from sizes and answers alone: sending fails for good if and only if the first answer that takes nothing comes with something left and is EPIPE, reported as a closed socket, or another error, reported as it is; the requests whose bytes were all taken are written without an error, the others keep what is left, and the bytes on the wire and those waiting stay one line of bytes |
| `SocketWrite.FailureReachesAllUnsent` | source/posix/socket.c:1622-1644 | after such a failure on a writable socket every request is queued for completion in order, those sent in full without an error and all others with the error of the send |
| `SocketWrite.FailureDuringWrite` | source/posix/socket.c:1622-1653 | during a write the same holds for the requests before it; the write itself is refused |
| `SocketWrite.WritesAfterShutdownAreRefused` | source/posix/socket.c:1858-1892 | once the write direction was shut down every later write to the open socket is refused and changes nothing else |
| `SocketWrite.WriteReturnsExactlyWhenOpen` | source/posix/socket.c:1858-1865 | a write returns if and only if the socket is open; otherwise the program crashes, and nothing else makes it crash |
| `SocketWrite.CompletionWritingAfterCloseCrashes` | source/posix/socket.c:1416-1454 | for any number of accepted writes a run in which the first completion called by a close writes, and the others are never completed |
| `SocketWrite.StepKeepsInv` | source/posix/socket.c:1436-1653 | writes, writable events, completions and close keep order, bytes and wake-ups right |
| `SocketWrite.Socket.SendLoop` | source/posix/socket.c:1547-1620 | the sending loop equals the recursive specification for any answers of the kernel; `SocketWrite.AnswersDecide` says what that is |
| `SocketWrite.Socket.PurgeLoop` | source/posix/socket.c:1622-1638 | all unsent requests but the parent move to the written queue with the error |
| `SocketWrite.Socket.ProcessWriteRequests` | source/posix/socket.c:1524-1653 | sends, purges and schedules the task as specified, and says whether the parent failed |
| `SocketWrite.Socket.Write` | source/posix/socket.c:1858-1892 | queues and sends, or crashes on a closed socket; success exactly when the write is accepted |
| `SocketWrite.Socket.UserCallback` | source/posix/socket.c:1509-1509 | a callback that writes, shuts down or closes leaves more requests behind, or a closed socket with empty queues, or has crashed by writing to a closed one |
| `SocketWrite.Socket.WrittenTask` | source/posix/socket.c:1479-1518 | completes at least what was waiting at its start, also when a callback closes the socket, unless a callback crashes |
| `SocketWrite.Socket.DeliverCovered` | source/posix/socket.c:1503-1515 | the loop stops after the request that was last at the start, or with an emptied queue |
| `SocketWrite.Socket.Close` | source/posix/socket.c:1358-1458 | when close returns both queues are empty and every accepted write has been completed in order; a second close changes nothing; it does not return if a completion writes |
| `SocketWrite.Socket.SendFront` | source/posix/socket.c:1547-1620 | a partial send advances the front request; a full one moves it to the written queue |
| `SocketWrite.Socket.OnWritable` | source/posix/socket.c:1655-1684 | a writable event sends without a parent request |
| `SocketWrite.Socket.DeliverFront` | source/posix/socket.c:1506-1510 | calls one completion; behind it more requests were queued, or all were completed by a close, or the callback crashed |
| `SocketWrite.Socket.DeliverAll` | source/posix/socket.c:1440-1454 | both queues are emptied in order by completions, unless one of them crashes by writing |
| `SocketRead.ReadsStayWithinWindow` | source/socket_channel_handler.c:123-214 | no run has a message refused for exceeding the window; a turn stays within its share; with back-pressure bytes sent downstream never exceed the credit, and while that is at most SIZE_MAX the window is exactly the rest of it |
| `SocketRead.BytesPassInOrder` | source/socket_channel_handler.c:147-176 | every byte that arrived was sent downstream in order or still waits |
| `SocketRead.ReadIsCharged` | source/socket_channel_handler.c:147-176 | with back-pressure no read brings in more than the window, which it lowers by what it brings in |
| `SocketRead.TurnStartsExactlyWhen` | source/socket_channel_handler.c:125-142 | a turn starts on readiness or by the task exactly if the handler goes on and the window is open, with min(window, max_rw_size) to read |
| `SocketRead.TurnEndsExactlyWhen` | source/socket_channel_handler.c:147-201 | it ends exactly on a dry socket, a failed read, its limit, or a message not accepted |
| `SocketRead.TaskIsScheduledExactlyWhen` | source/socket_channel_handler.c:206-279 | running or canceling the task uses it up; it is scheduled exactly by a window update of a handler that goes on and by a turn that read its whole share |
| `SocketRead.NoByteIsForgotten` | source/socket_channel_handler.c:187-279 | between turns waiting bytes have a notification, a task, or a closed window, unless a downstream error that looks like a dry socket cut the last turn short; a window update schedules a task |
| `SocketRead.BytesAreForgottenExactlyWhen` | source/socket_channel_handler.c:171-201 | a step leaves waiting bytes with nothing to get them read if and only if it is a downstream AWS_IO_READ_WOULD_BLOCK in mid-turn with bytes left and no notification or task under way |
| `SocketRead.DownstreamErrorIsReportedExactlyWhen` | source/socket_channel_handler.c:171-201 | over whole runs a shutdown was asked for if and only if a read failed or a downstream error came before the last message of its turn and was not AWS_IO_READ_WOULD_BLOCK; the same for each step |
| `SocketRead.LastMessageErrorMayGoUnreported` | source/socket_channel_handler.c:171-201 | for any error a reachable state in which it was lost on the last message of a turn |
| `SocketRead.WouldBlockErrorMayGoUnreported` | source/socket_channel_handler.c:171-201 | a reachable state in which an error in mid-turn was lost and a byte that arrived is forgotten |
| `SocketRead.SocketHandler.ReadSocket` | source/posix/socket.c:1811-1828 | a successful read takes at least one byte and no more than fit; a read that would block found nothing |
| `SocketRead.SocketHandler.ReadOnce` | source/socket_channel_handler.c:147-176 | a round advances the turn by what it sent, or ends the turn |
| `SocketRead.SocketHandler.ReadLoop` | source/socket_channel_handler.c:147-176 | the loop ends, reads at most its limit, and reports its last error as above |
| `SocketRead.SocketHandler.MessageFailed` | source/socket_channel_handler.c:171-201 | a message that was not accepted ends the turn, with a shutdown exactly under that condition |
| `SocketRead.SocketHandler.DoRead` | source/socket_channel_handler.c:123-214 | one call reads at most min(downstream window, max_rw_size), never exceeds the window, and nothing once shutting down; what ended the turn shuts the channel down exactly when bytes of the turn were left and it is not AWS_IO_READ_WOULD_BLOCK |
| `SocketRead.SocketHandler.IncrementReadWindow` | source/socket_channel_handler.c:258-279 | an opened window schedules a read unless shutting down |
| `SocketRead.SocketHandler.SendRead` | source/channel.c:766-799 | a message is refused exactly when it exceeds the window, and charged to it otherwise |
| `SocketRead.SocketHandler.AfterLoop` | source/socket_channel_handler.c:187-213 | shuts down exactly after an error that cut the turn short, and schedules a read exactly after a full share |
| `SocketRead.SocketHandler.BeginTurn` | source/socket_channel_handler.c:125-142 | a turn may read min(downstream window, max_rw_size), and there is none while shutting down |
| `MessagePool.SegmentsAreNotShared` | source/message_pool.c:56-205 | in every run no segment is in two places, stacks stay within bounds, and segments are conserved |
| `MessagePool.AcquireReusesSegment` | source/message_pool.c:138-184 | a message takes the segment kept last of its kind, and one is allocated exactly if none is kept; its capacity is the smaller of the hint and the size of the kind |
| `MessagePool.ReleaseKeepsSegment` | source/message_pool.c:186-205 | a segment goes back on the stack for its capacity, and is freed exactly if that is full |
| `MessagePool.CapacityFitsExactlyWhen` | source/message_pool.c:138-205 | every message ever handed out fits its segment if and only if small <= application size or no small segments are kept |
| `MessagePool.UnsafeConfigOverflows` | source/message_pool.c:186-205 | for every other configuration a run with a message larger than its segment |
| `MessagePool.CapacityIsWithinHint` | source/message_pool.c:138-184 | capacity is at most the hint, and positive for a positive hint |
| `MessagePool.MemoryPool.constructor` | source/message_pool.c:10-40 | the stack starts with the ideal number of distinct segments |
| `MessagePool.MemoryPool.Acquire` | source/message_pool.c:56-67 | takes the top segment, or allocates exactly when the stack is empty |
| `MessagePool.MemoryPool.Release` | source/message_pool.c:69-78 | keeps the segment exactly when fewer than the ideal number are held |
| `MessagePool.Pools.AcquireMessage` | source/message_pool.c:138-184 | takes from the pool chosen by the hint; the capacity never exceeds it |
| `MessagePool.Pools.ReleaseMessage` | source/message_pool.c:186-205 | gives the segment back to the pool chosen by the capacity |
| `Future.FirstCompletionWins` | source/future.c:282-317 | the first completion stands in every continuation |
| `Future.AcceptedCallbackCalledOnce` | source/future.c:246-369 | an accepted callback is called at most once, only after completion, and has been called once nothing is on its way to it |
| `Future.ResultDisposedOnce` | source/future.c:84-208 | every result is moved out or destructed at most once, and exactly once when the last reference is gone |
| `Future.CompletionDecides` | source/future.c:282-317 | the first completion decides: a result without an error, or the error, AWS_ERROR_UNKNOWN exactly if it is 0; nothing changes it later |
| `Future.CallbackGoesWhere` | source/future.c:246-369 | a callback is turned away exactly if the future is done and it is not to be called then; an accepted one waits for completion, and is called on the spot or by a task according to its kind |
| `Future.ReferencesAreCounted` | source/future.c:84-92 | references are counted one by one, and the result still owned is destructed exactly with the last |
| `Future.StepKeepsInv` | source/future.c:84-369 | set, register, call, move-out and release keep every callback and result in one place |
| `Future.FutureImpl.SetDone` | source/future.c:282-317 | completes once and calls a waiting callback, or destructs a late result and changes nothing else |
| `Future.FutureImpl.RegisterCallback` | source/future.c:343-369 | accepts exactly when not done or asked to call at once; then waits or is called |
| `Future.FutureImpl.InvokeCallback` | source/future.c:246-280 | calls at once or schedules the task |
| `Future.FutureImpl.GetResultByMove` | source/future.c:191-208 | hands out the completing result and gives up ownership |
| `Future.FutureImpl.Release` | source/future.c:84-92 | the last release destructs a result still owned |
| `AsyncFill.FillMatchesPlainLoop` | source/async_stream.c:72-153 | for every schedule buffer and outcome equal those of the plain loop after as many reads; completion set once, job freed once |
| `AsyncFill.FillEndsExactlyWhen` | source/async_stream.c:72-119 | from stream and buffer alone: the buffer holds the bytes of the reads in order, cut off where it is full; a job that is over failed with e if and only if its last read did, reports the end if and only if that read did without an error, and a full buffer if and only if neither; no earlier read had an error or the end or left the buffer full |
| `AsyncFill.ScheduleDoesNotMatter` | source/async_stream.c:92-124 | two finished jobs over the same stream agree, however their reads completed |
| `AsyncFill.OneReadAtATime` | source/async_stream.c:92-124 | at most one read outstanding, none after the end, none into a full buffer |
| `AsyncFill.JobIsNeverStuck` | source/async_stream.c:92-124 | unless over or waiting for a read that is never answered the job can go on |
| `AsyncFill.FillTerminates` | source/async_stream.c:92-124 | if every read brings a byte, the end or an error, each step brings the job closer to its end |
| `AsyncFill.FillJob.Loop` | source/async_stream.c:92-124 | the loop ends with the job over or a callback registered, by protocol steps; the read under way may be completed by others before the loop looks at it, and later by way of CompletePending |
| `AsyncFill.FillJob.CompletePending` | source/async_stream.c:92-124 | completing a pending read resumes the loop |
| `AsyncFill.ReadToFill` | source/async_stream.c:126-153 | a full buffer is an error without a job; otherwise a job is started and runs as far as it can |
| `AsyncFill.FillJob.ProcessRead` | source/async_stream.c:96-119 | registers on an unfinished read, ends the job on an error, the end or a full buffer with the outcome `AsyncFill.FillEndsExactlyWhen` gives it, or goes on |
| `RetryBucket.CapacityIsConserved` | source/standard_retry_strategy.c:298-397 | capacity <= max and capacity + last costs + saved costs <= max + tokens acquired; the difference is exactly what was forfeited |
| `RetryBucket.OutageAdmitsBoundedRetries` | source/standard_retry_strategy.c:298-371 | without a success no more retries are admitted than the capacity pays for |
| `RetryBucket.RollbackUndoesSchedule` | source/standard_retry_strategy.c:342-368 | a refused schedule leaves the bucket as it was |
| `RetryBucket.ScheduleTakesItsCost` | source/standard_retry_strategy.c:304-345 | a schedule is denied, and changes nothing, exactly for a client error or an empty bucket; otherwise it takes 10 for a transient error and 5 for another, or all that is left if that is less |
| `RetryBucket.TokenOwes` | source/standard_retry_strategy.c:342-397 | an accepted retry keeps its cost, a refused one owes what it owed before, a success or a release leaves nothing to owe; other tokens are left alone |
| `RetryBucket.PaysBackExactlyWhen` | source/standard_retry_strategy.c:357-397 | a success or roll-back adds its cost, up to the maximum, if and only if the sum does not wrap around, and lowers the capacity if and only if it does |
| `RetryBucket.PaysBackIffMaximumLeavesRoom` | source/standard_retry_strategy.c:357-397 | no run with a given maximum lowers the capacity by paying back if and only if the maximum is at most SIZE_MAX - 10 |
| `RetryBucket.SuccessMayEmptyBucket` | source/standard_retry_strategy.c:373-397 | with the largest maximum the first success empties a full bucket |
| `RetryBucket.StepKeepsInv` | source/standard_retry_strategy.c:195-397 | acquire, schedule, accept, roll-back, success and release keep the balance |
| `RetryBucket.Strategy.TakeCapacity` | source/standard_retry_strategy.c:304-345 | takes the cost of the error or what is left, or is denied exactly for a client error or an empty bucket |
| `RetryBucket.Strategy.RollBack` | source/standard_retry_strategy.c:357-366 | gives back what the schedule took, by an addition that wraps around and is then capped, and restores the token's cost |
| `RetryBucket.Strategy.ScheduleRetry` | source/standard_retry_strategy.c:298-371 | an error leaves the token as it was whatever others did; success charges it at most the cost of the error |
| `RetryBucket.Strategy.RecordSuccess` | source/standard_retry_strategy.c:373-397 | pays back the last cost by an addition that wraps around and is then capped at the maximum |
| `RetryBucket.Strategy.constructor` | source/standard_retry_strategy.c:192-195 | a new bucket is full and without tokens |
| `RetryBucket.Strategy.AcquireToken` | source/standard_retry_strategy.c:130-274 | a new token starts with a last cost of one unit |
| `Pem.ParsePrinted` | source/pem.c:248-363 | parsing a printed document returns its types and base64 texts, for any line width and any explanatory lines around the objects |
| `Pem.PrintDeterminesObjects` | source/pem.c:248-363 | documents that print the same have the same objects |
| `Pem.ParseFollowsLayout` | source/pem.c:248-363 | for every text: its objects are those laid out one after the other up to the end, to a malformed begin header or to one without an end header; it is rejected if and only if there is none or the last of these is the case |
| `Pem.LayoutExists` | source/pem.c:274-346 | every text is laid out in this way |
| `Pem.HeadersAre` | source/pem.c:224-246 | a line is a begin or end header exactly by its first 10 or 8 characters; a begin header names a type exactly if a character, the type and five dashes follow |
| `Pem.TrimTakesSpacesOnly` | source/pem.c:283-288 | trimming takes all of the six space characters off both ends and nothing else |
| `Pem.ConvertLines` | source/pem.c:274-346 | the two-pass loop ends, its exactly sized buffer never overflows or underfills, and it equals the one-pass reading |
| `Pem.ConvertToRawBase64` | source/pem.c:248-363 | splitting, trimming and the loop together equal the specification; malformed texts are rejected |
| `Pem.CopyOn` | source/pem.c:304-342 | every append fits the computed length, and at the end header the buffer is full |
| `Pem.ExtractHeaderKind` | source/pem.c:228-246 | the cursor arithmetic with its wrap-around yields the type of a well-formed header and rejects all others |
| `Pem.TrimTwice` | source/pem.c:283-288 | visiting a trimmed line again changes nothing |
| `PemSanitize.SanitizePem` | source/pem.c:22-102 | the result is the blocks, each closed with a line feed, exactly when no block has a header at which the output is too far ahead, and shorter otherwise; empty input or result is an error |
| `PemSanitize.LossIsInBlocks` | source/pem.c:54-76 | following the output byte by byte, an append is lost if and only if some block has a header that does not fit, read off the gaps and positions of the blocks |
| `PemSanitize.AppendAll` | source/pem.c:34-85 | the loop makes exactly the appends of the specification, in order |
| `PemSanitize.CleaningKeepsBlocks` | source/pem.c:34-85 | byte-by-byte cleaning equals cutting out the blocks found one after the other; an incomplete last block is kept |
| `PemSanitize.CleanedTextIsStable` | source/pem.c:22-102 | cutting out the blocks is idempotent, and cleaning a text cleaned without loss changes and loses nothing |
| `PemSanitize.GapsPreventLoss` | source/pem.c:54-76 | with at least one byte between consecutive blocks no append is lost |
| `PemSanitize.AppendsKeepOrLose` | source/pem.c:54-76 | for any list of appends the buffer holds all of it if and only if no header straddles the initial capacity |
| `PemSanitize.AdjacentBlocksLoseDashes` | source/pem.c:67-76 | two complete blocks with nothing between or after lose the closing dashes of the second |
| `Der.SignatureRoundTrip` | source/pkcs11_lib.c:1263-1298 | an independent X.690 decoder returns exactly the two numbers |
| `Der.SignatureIsCanonical` | source/pkcs11_lib.c:1263-1298 | whatever decodes to those numbers is byte for byte what the encoder writes |
| `Der.IntegerRoundTrip` | source/pkcs11_lib.c:1191-1217 | an encoded INTEGER decodes to its value and leaves the rest |
| `Der.ContentDependsOnValueOnly` | source/pkcs11_lib.c:1193-1202 | the content depends on the number, not on its leading zeros |
| `Der.ContentIsShortest` | source/pkcs11_lib.c:1193-1202 | no content with fewer bytes stands for the same number |
| `Der.ByteBuf.Write` | source/pkcs11_lib.c:1178-1182 | all bytes are appended or none |
| `Der.ByteBuf.EncodePrefix` | source/pkcs11_lib.c:1170-1184 | succeeds exactly for low tags and lengths up to 127 that fit |
| `Der.ByteBuf.EncodeUbigint` | source/pkcs11_lib.c:1191-1217 | succeeds exactly when length and room allow, and then appends the minimal INTEGER |
| `Der.EncodePart` | source/pkcs11_lib.c:1271-1282 | n + 4 bytes are always enough for one number |
| `Der.EncodePair` | source/pkcs11_lib.c:1283-1297 | pair + 2 bytes are always enough; fails exactly above 127 |
| `Der.EncodePartSignature` | source/pkcs11_lib.c:1257-1298 | an empty or odd signature is an error; otherwise encoded exactly when the pair has a short length |
| `Der.SmallCurvesAlwaysEncode` | source/pkcs11_lib.c:1271-1287 | up to 60 bytes a number encoding always succeeds |
| `Der.LargerCurvesMayFail` | source/pkcs11_lib.c:1283-1287 | for every larger size there are numbers that cannot be encoded |

## Left out

- TLS handlers and PKI utilities: most of their behaviour is in libraries that are not part of this repository.
- Event loops, the task scheduler and pipes: represented by the assumption that a pending task is run or canceled once.
- PKCS#11 loading, sessions and signing calls: foreign calls; only the encoding of their result is modelled.
- Base64 decoding of PEM objects: belongs to aws-c-common; the model ends at the base64 text. The table of PEM type names is a plain mapping.
- DNS queries, address conversion, connecting, binding, listening, socket options and timeouts: operating-system plumbing; what they answer is arbitrary here.
- Server bootstrap, ALPN, statistics, tracing, error tables and stream seeking: thin, or simpler relatives of what is modelled.
- Failing allocations, among them a channel that cannot be created for a chosen connection.
- Backoff times of the retry strategy: the nested strategy accepts or refuses a schedule at will.
- Removal of an unused bucket from the table of buckets, and the partition names.
- Completion callbacks of a cache purge.
- Closing a socket from another thread, and cleaning a socket up inside one of its completion callbacks.
- Reads started again from inside a message handler while a read turn is in progress.
- Trace of who called whom: nested calls are modelled by the steps they take, and entries of the host resolver and requests of a socket are values in a sequence, not heap objects.
- SocketWrite.WireCarriesRequestsInOrder: ends at the first send that fails for good; later writes may still reach the wire after a refused request was cut short.
- HostResolver.ShuttingDownEntryFinishes: a live entry that was taken out of the table by another entry is not told to shut down, so it ends only when it has been idle.
- Pem.ConvertLines: lines are trimmed once before the loop instead of in place on each visit, which `Pem.TrimTwice` shows to be the same.
- PemSanitize.CleanedTextIsStable: says nothing about cleaning a result from which something was lost; what that does depends on which headers were dropped.
- PemSanitize.SanitizePem: a header that is cut off at the end of the text does not match, although the code compares bytes past the end.
