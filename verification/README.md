# Verified models of MCP Console

Dafny models of the logic that MCP Console relies on most, with proofs of what
it promises. `dafny verify dfyconfig.toml` checks the whole project.

Each subject has a specification of its state and steps as functions, theorems
about every input or every run of it, and, where the source changes state in
place, a class whose methods are proved to compute those functions.

| subject | files |
|---|---|
| Admission of `send` calls against responses that are still being written | `DeliveryModel`, `DeliveryInvariant`, `DeliverySteps`, `DeliverySafety`, `DeliveryOutcomes`, `DeliveryAssertions`, `DeliveryProgress`, `DeliverySettling`, `DeliveryEffects`, `ResponseDeliveries` |
| Ordered capture of calls, bounded backlog, close and drain | `RecordingQueue` |
| Interrupt and cancel handshake of the synchronous client | `CallHandshake`, `CallHandshakeSafety`, `CallHandshakeProgress`, `CallHandshakeEffects`, `SyncConsole` |
| Incremental JSONL framing against the blocking reader and writer | `Jsonl` |
| Transactional activation of a Python environment | `Activation`, `PythonEnvironment` |
| Interpreter lifetime and resumable setup | `InterpreterLifecycle`, `InterpreterEffects`, `PythonLibrary` |
| Dependency audit of a wheel | `DependencyAudit`, `DependencyLoading`, `DependencySearch` |
| Inline configuration values | `InlineGrammar`, `InlineRoundTrip`, `InlineParser` |
| Configuration layers | `ConfigLayers`, `ConfigLoading`, `ConfigPrecedence` |
| Python version constraints | `Versions`, `VersionClauses` |
| Canonical requirement manifests | `Manifests` |

## How concurrency is modelled

A section that holds a lock is one step. Unlocked accesses to shared state are
steps of their own: skipping a node when an admission is dropped, waiting for a
predecessor and clearing its link, settling a delivery after the lock is
released, and the callbacks of the event loop. Theorems quantify over every
sequence of enabled steps. Foreign calls, site hooks, timeouts and interrupts
are parameters that may take any value.

## Where the promises stop

- `begin_write` asserts that a response never meets a running call. That needs
  a client which does not reuse the id of an outstanding request, as JSON-RPC
  2.0 demands. `RespondPanicsIff` gives the exact condition and
  `ReusedIdPanics` a run that violates it. `DisciplinedClientsNeverPanic` counts
  a cancelled call as outstanding until it is answered, so a client that reuses
  the id of a cancelled call that is never answered is not covered by it.
- `close_and_settle` waits for the enrolled work only in its first caller;
  `ReturnMeansDoneExactlyWhen` is the exact condition. The program calls it in
  one place (src/server.rs:626), so it has no second caller today.
- Interrupts of two threads at once can let a send pass an unfinished
  cancellation. `GuardedExactlyOnFreeRuns` and `OvertakenExactlyUnlessFree` give
  the exact condition: an interrupt must not overwrite a cancellation that is
  still owed. A run that keeps to it is called free. Python raises
  `KeyboardInterrupt` in the main thread only, and every such run is free.
- Two interrupts in quick succession, the first before the start of a request
  is queued and the second before the request is cancelled, leave a connection
  whose `close` can never succeed. The class documentation says that
  interrupting before a request starts leaves the connection usable; one
  interrupt does. `MainThreadCleanupCloses` is the exact condition for interrupts
  in the main thread, `AbandonedCleanupCloses` for free runs. An interrupt of
  another waiting call could still reopen such a connection, so over all runs
  `GivingUpEndsConnection` asks also whether a call is in progress.
- An interrupt that arrives while the publication of an activation defers it is
  reported as an interruption although the candidate is committed
  (`ReportedExactlyWhen`). An interrupt between a failed attempt and the deferral
  around its roll back leaves the mutations in place; `UnchangedExactlyWhen` says
  when that is visible.
- `accept` looks for the canonical manifest. A pending candidate whose manifest
  is not canonical is refused, or replaced by a live candidate that has the
  canonical one. `resolve_import` rules this out; `prepare_packages` relies on
  the resolver to return what it was asked for.
- Merging layers is not associative: a leaf in a middle layer hides what is
  below it only if the layers are folded in order. `RegroupExactlyUnlessReopened`
  is the exact condition.
- A version constraint with fewer than three levels indexes the third component
  of the candidate, so a shorter numeric candidate panics
  (`PanicsExactlyOnShort`, `ShortReleasePanics`). It also zeroes that component,
  so releases of more components lose their order (`OrderKeptExactlyFor`).

## Model

| member | source | states |
|---|---|---|
| `DeliverySafety.WaitingNodesAreOnTheTail` | src/server_transport.rs:156-193 | In every reachable open state each waiting node is on the chain from the admission tail, and nothing lies behind a node that was ever admitted. |
| `DeliverySafety.NoOvertaking` | src/server_transport.rs:452-520 | When a queued reservation is admitted, every node that was waiting when it was reserved has finished or been skipped, whatever was cancelled or dropped in between. |
| `DeliverySafety.OnlyTheGateAdmits` | src/server_transport.rs:486-500 | A node becomes admitted only in the gate step of the admission that owns it, with no predecessor left and with the response gate open. |
| `DeliverySafety.SlotsBounded` | src/server_transport.rs:156-193 | On every run the slot counter is the number of nodes that were not dropped, never more than 64, and no node that can still be reached is dropped. |
| `DeliverySafety.SlotsAreReachableNodes` | src/server_transport.rs:650-655 | Once every due drop has happened, the counter is exactly the number of nodes reachable from the tail, live admissions and live calls through retained links. |
| `DeliverySafety.SlotsAreReturned` | src/server_transport.rs:539-552 | With every admission gone and no active call, the counter is back to 0. |
| `DeliverySafety.SettledAtMostOnce` | src/server_transport.rs:211-316 | On every run a delivery is settled at most once and only if it was registered, and no call outside `active` holds one. |
| `DeliverySafety.SettledExactlyOnce` | src/server_transport.rs:782-801 | Once no call is active and nobody is about to settle anything, each registered delivery has been settled exactly once. |
| `DeliverySafety.SettlementsAreFinal` | src/server_transport.rs:782-794 | A settlement keeps its position and its outcome on every continuation. |
| `DeliveryOutcomes.HandedOutIsUnclaimed` | src/server_transport.rs:211-234 | A delivery handed out by cancelling, replacing, dropping or closing is settled as unclaimed on every continuation that settles it. |
| `DeliveryOutcomes.TakenIsSettledSo` | src/server_transport.rs:782-801 | A delivery that a write took is settled with the outcome of that write. |
| `DeliverySafety.StaleStepsChangeNothingCurrent` | src/server_transport.rs:362-378 | A stale admission, operation or write never changes the newer reservation or call with its id. |
| `DeliverySafety.PendingWritesCountsGuards` | src/server_transport.rs:380-390 | `pending_writes` is the number of unsettled write guards, so it is positive whenever one of them settles. |
| `DeliverySafety.AwaitingClosesTheGate` | src/server_transport.rs:392-398 | From its completion until its own write is settled a call keeps the response gate closed. |
| `DeliverySafety.NoAdmissionBeforeAcknowledgment` | src/server_transport.rs:486-500 | From the normal completion of a current call until the acknowledgment of its own write is applied no queued call is admitted, unless the call is cancelled or replaced or the transport closes. |
| `DeliverySteps.StepKeeps` | src/server_transport.rs:156-801 | Every locked section and every unlocked step of the protocol keeps the whole invariant. |
| `DeliveryInvariant.PruneKeeps` | src/server_transport.rs:414-416 | Pruning the tail never loses a waiting node. |
| `DeliveryProgress.AdmittedIffHeldByActiveCall` | src/server_transport.rs:195-209 | A node is admitted exactly when the current call of some request id holds it. |
| `DeliveryProgress.ReachGate` | src/server_transport.rs:619-637 | The wait loop of an admission whose predecessors have settled reaches the gate by its own steps. |
| `DeliveryProgress.ServeOldest` | src/server_transport.rs:452-520 | In an idle open transport the oldest waiting reservation can be admitted, answered and settled, or skipped, by handler steps alone. |
| `DeliveryProgress.ChainDrains` | src/server_transport.rs:657-728 | From every idle state a finite sequence of handler steps empties the chain: uncancelled reservations finish, the others are skipped. |
| `DeliverySettling.EverythingDrains` | src/server_transport.rs:657-801 | From every reachable open state, with any calls running or cancelled and any writes under way, handler steps alone settle every write, end every call and empty the chain: uncancelled reservations finish, the others are skipped. |
| `DeliverySettling.AnsweredCallsHaveWrites` | src/server_transport.rs:282-296 | On every run an answered call that is still current has a write that has not taken its delivery. |
| `DeliveryAssertions.RegisterPanicsIff` | src/server_transport.rs:236-249 | A registration fails one of the two assertions of `register` exactly when its call is current and not cancelled and the handler has registered before or given up its operation. |
| `DeliveryAssertions.CompleteAssertionHolds` | src/server_transport.rs:695-707 | An operation completes once; a cancelled call has no delivery left then. |
| `DeliveryAssertions.CounterAssertionsHold` | src/server_transport.rs:380-390 | Neither counter is zero when it is decremented. |
| `DeliveryAssertions.RespondPanicsIff` | src/server_transport.rs:741-747 | The assertion in `begin_write` fails exactly when the current call with the id of the response still runs its operation. |
| `DeliveryAssertions.DisciplinedClientsNeverPanic` | src/server_transport.rs:741-747 | For clients that do not reuse an outstanding id (JSON-RPC 2.0, sections 4 and 5) it never fails on any run. |
| `DeliveryAssertions.ReusedIdPanics` | src/server_transport.rs:282-296 | A concrete run in which a reused id makes it fail. |
| `DeliveryEffects.GateClosedExactlyWhen` | src/server_transport.rs:392-398 | The gate is closed exactly while a response is not yet settled, or a current call has answered, holds a promised delivery, or was queued and is cancelled. |
| `DeliveryEffects.ReserveDecides` | src/server_transport.rs:156-193 | A reservation queues behind the youngest waiting one exactly while something holds it back or one waits, up to 64 undropped places; otherwise it may start without a place. |
| `DeliveryEffects.CheckDecides` | src/server_transport.rs:458-476 | An admission that starts to wait is refused when the transport is closed or its reservation is no longer pending. |
| `DeliveryEffects.WaitDecides` | src/server_transport.rs:606-637 | The wait goes past skipped nodes, stops at waiting and admitted ones, and gives up the link once what is ahead has finished. |
| `DeliveryEffects.GateDecides` | src/server_transport.rs:477-519 | At the gate a pending reservation is admitted exactly when it has no place or nothing holds it back; admitting makes its call current and hands out what the replaced call held. |
| `DeliveryEffects.DropDecides` | src/server_transport.rs:539-552 | Dropping an admission skips its waiting node and nothing else. |
| `DeliveryEffects.UnregisterDecides` | src/server_transport.rs:428-441 | It then leaves the pending entry only if that is its own. |
| `DeliveryEffects.RegisterDecides` | src/server_transport.rs:236-249 | A delivery is held by its call exactly if the call is current and not cancelled; otherwise it is handed back. |
| `DeliveryEffects.CompleteDecides` | src/server_transport.rs:251-280 | A completed operation keeps its call waiting for the response; a cancelled one ends it. |
| `DeliveryEffects.DropOperationDecides` | src/server_transport.rs:251-280 | A dropped operation ends its current call and hands out its delivery. |
| `DeliveryEffects.CancelDecides` | src/server_transport.rs:211-234 | Cancelling a pending reservation removes it and leaves everything else. Otherwise a current call becomes inactive, gives up its delivery, which is handed out, and leaves `active` exactly if its operation has finished. |
| `DeliveryEffects.CloseDecides` | src/server_transport.rs:298-318 | Closing leaves nothing active or pending, abandons every active call, and hands out every delivery that one held. |
| `DeliveryEffects.RespondDecides` | src/server_transport.rs:282-296 | A response gets a counted write exactly when its request is active and its operation has finished. |
| `DeliveryEffects.TakeDecides` | src/server_transport.rs:362-378 | A finished write ends its own call only if that is current, and takes its delivery. |
| `DeliveryEffects.AcknowledgeDecides` | src/server_transport.rs:782-794 | What it took is settled with the outcome of the write. |
| `DeliveryEffects.SettleDecides` | src/server_transport.rs:380-390 | Then the guard is uncounted. |
| `DeliveryEffects.HandBackDecides` | src/server_transport.rs:211-234 | A delivery that was handed out is settled as unclaimed. |
| `DeliveryEffects.ReleaseDecides` | src/server_transport.rs:650-655 | A dropped node gives its place back. |
| `DeliveryEffects.CancelledIsNeverAdmitted` | src/server_transport.rs:211-234 | On every run a reservation that was cancelled while pending is never admitted. |
| `DeliveryEffects.LateDeliveryIsHandedBack` | src/server_transport.rs:236-249 | A delivery registered after its call was cancelled is handed back at once. |
| `DeliveryEffects.LateDeliveryIsUnclaimed` | src/server_transport.rs:236-249 | Whenever it is settled afterwards, it is settled as unclaimed. |
| `DeliveryEffects.HeldDeliveryIsUnclaimed` | src/server_transport.rs:211-234 | So is a delivery that the call held when it was cancelled. |
| `ResponseDeliveriesState.ResponseDeliveries.PruneAdmissionTail` | src/server_transport.rs:414-416 | The loop leaves the last waiting node of the chain as the tail, or none. |
| `ResponseDeliveriesState.ResponseDeliveries.GateIsActive` | src/server_transport.rs:392-398 | The gate is active exactly when a write is pending or some active entry has finished its operation, holds a delivery, or was queued and is no longer active. |
| `ResponseDeliveriesState.ResponseDeliveries.Reserve` | src/server_transport.rs:156-193 | A reservation behind the gate gets a node behind the tail; an ungated one gets none; closed or full refuses; the whole new state is stated. |
| `ResponseDeliveriesState.ResponseDeliveries.TryAdmit` | src/server_transport.rs:477-519 | Closed, no longer owning the pending token, blocked, or admitted, with the whole new state. |
| `ResponseDeliveriesState.ResponseDeliveries.StartCallFor` | src/server_transport.rs:195-209 | The new call replaces and abandons the current call of its id. |
| `ResponseDeliveriesState.ResponseDeliveries.CancelRequest` | src/server_transport.rs:211-234 | Cancelling takes a pending reservation, or else releases the active call and hands out its delivery. |
| `ResponseDeliveriesState.ResponseDeliveries.RegisterDelivery` | src/server_transport.rs:236-249 | A delivery is stored in its current call, or handed back to be settled as unclaimed. |
| `ResponseDeliveriesState.ResponseDeliveries.FinishOperation` | src/server_transport.rs:251-280 | Completing or dropping an operation ends only its own call. |
| `ResponseDeliveriesState.ResponseDeliveries.BeginWrite` | src/server_transport.rs:282-296 | Only an active request gets a write guard, which is counted. |
| `ResponseDeliveriesState.ResponseDeliveries.TakeWriteDelivery` | src/server_transport.rs:362-378 | A write takes the delivery of its own call only, and ends that call. |
| `ResponseDeliveriesState.ResponseDeliveries.SettleWriteGuard` | src/server_transport.rs:380-390 | In every state of the invariant an acknowledged write is still counted, so the subtraction does not underflow, and the guard is uncounted. |
| `ResponseDeliveriesState.ResponseDeliveries.UnregisterPending` | src/server_transport.rs:428-441 | Only the token that owns the pending entry removes it. |
| `ResponseDeliveriesState.ResponseDeliveries.CloseTransport` | src/server_transport.rs:298-318 | Closing clears `active`, `pending` and the tail, finishes every held node and hands out every held delivery. |
| `ResponseDeliveriesState.ResponseDeliveries.FinishAdmissionOf` | src/server_transport.rs:724-728 | An admitted node that the call holds is finished, once. |
| `ResponseDeliveriesState.ResponseDeliveries.Abandon` | src/server_transport.rs:709-715 | Abandoning clears the flags, finishes the node and hands out the delivery. |
| `RecordingQueueModel.CapturesRunInReceiveOrder` | src/server_transport.rs:1098-1125 | On every run captures begin in receive order, each after all earlier ones ended. |
| `RecordingQueueModel.BacklogIsBounded` | src/server_transport.rs:1068-1086 | On every run at most 64 enrolled calls are unfinished. |
| `RecordingQueueModel.EnrollsExactlyWhen` | src/server_transport.rs:1048-1107 | On every run a call is enrolled if and only if the queue is open and fewer than 64 enrolled calls are unfinished, and its capture waits for the call enrolled before it. |
| `RecordingQueueModel.EverythingSettles` | src/server_transport.rs:889-903 | From every reachable state all captures can run in turn, all calls complete, and every `close_and_settle` returns, with nothing else enrolled or closed. |
| `RecordingQueueModel.NothingEnrolledAfterClose` | src/server_transport.rs:1048-1051 | Once the queue is closed nothing is enrolled and it stays closed. |
| `RecordingQueueModel.ClosingWaitsForEverything` | src/server_transport.rs:889-903 | When the call that closed the queue returns, every enrolled capture and every completion has ended. |
| `RecordingQueueModel.OnlyTheFirstCloserWaits` | src/server_transport.rs:889-903 | On every run the first call of `close_and_settle` is the one that waits, and every other may return at once. |
| `RecordingQueueModel.ReturnMeansDoneExactlyWhen` | src/server_transport.rs:889-903 | In every reachable state, whenever and however the run goes on, the return of a new closer means that all enrolled work has ended exactly when the queue was still open or all of it has ended already. |
| `RecordingQueueModel.SecondCloserReturnsEarly` | src/server_transport.rs:889-903 | With one call enrolled and the queue closed, a second closer returns before its capture has begun. |
| `RecordingQueueModel.RecordingQueue.EnrollCall` | src/server_transport.rs:1048-1107 | A `send` is refused exactly when the queue is closed or 64 enrolled calls are unfinished; otherwise it is linked behind the tail. The whole new state. |
| `RecordingQueueModel.RecordingQueue.RetainPending` | src/server_transport.rs:1068-1073 | The loop keeps exactly the completions that are still open, in order. |
| `RecordingQueueModel.RecordingQueue.CloseQueue` | src/server_transport.rs:889-903 | Closing takes the tail and the pending completions, and leaves none. |
| `CallHandshakeSafety.FinishedMeansRetired` | python/mcp_console/_sync.py:64-88 | In every interleaving a finished request has a finished task, or was cancelled before it got one; its future holds a result or a failure only if its task returned or raised one. |
| `CallHandshakeSafety.RequestsEvolve` | python/mcp_console/_sync.py:48-98 | On every continuation: a resolved future never changes, finished stays finished, and a request cancelled without a task never gets one. |
| `CallHandshakeSafety.NoInvalidState` | python/mcp_console/_sync.py:64-78 | The done callback resolves only a future that is pending or cancelled, so setting its result cannot fail. |
| `CallHandshakeSafety.InterruptedBeforeStartIsNeverSent` | python/mcp_console/_sync.py:80-88 | An interrupt before the start callback finishes the request at once, and it is never sent. |
| `CallHandshakeSafety.AbortCancelsAgain` | python/mcp_console/_sync.py:94-98 | When the cancellation of an abort runs, the first one is no longer queued or pending: the two do not coalesce. |
| `CallHandshakeSafety.NoSendDuringCancellation` | python/mcp_console/_sync.py:233-274 | In every interleaving of runs in which each interrupt is free, whichever threads it reaches: whenever a send is admitted or `close` completes, every interrupted request has finished and its caller is gone, also across failed cancellations and reconnection. |
| `CallHandshakeSafety.GuardedExactlyOnFreeRuns` | python/mcp_console/_sync.py:256-274 | All along a run every owed cancellation is the published one, if and only if no interrupt of the run overwrites one that is still owed. |
| `CallHandshakeSafety.MainThreadNeverOvertakes` | python/mcp_console/_sync.py:114-122 | With interrupts in the main thread only, as Python raises them, every run is free, so the documented guarantee holds. |
| `CallHandshakeSafety.PublishedExactlyWhenFree` | python/mcp_console/_sync.py:256-259 | One interrupt keeps every owed cancellation published exactly when it is free. |
| `CallHandshakeSafety.TwoInterruptsOvertake` | python/mcp_console/_sync.py:267-270 | With two interrupted threads a send is admitted while an interrupted request is unfinished (a concrete run). |
| `CallHandshakeProgress.OvertakenExactlyUnlessFree` | python/mcp_console/_sync.py:256-274 | In every state that a free run reaches without failing: after an interrupt, some continuation whose own interrupts are free admits a send while an interrupted request is still owed, if and only if the interrupt was not free. |
| `CallHandshakeProgress.AbandonedCleanupCloses` | python/mcp_console/_sync.py:206-225 | In every state that a free run reaches: after a cleanup is given up some free continuation lets `close` complete, if and only if the request had a task, had finished, or had its start callback queued; otherwise no free continuation admits a send either. |
| `CallHandshakeProgress.GivingUpEndsConnection` | python/mcp_console/_sync.py:206-225 | In every reachable state, with interrupts in any threads and any continuation: giving up ends the connection for good, for `close` as for sends, if and only if it was the only call in progress and the published request had no task, no start callback and was not finished. |
| `CallHandshakeProgress.CanEverCloseExactlyWhen` | python/mcp_console/_sync.py:206-225 | Over all continuations, an open connection can still be closed if and only if no published request is stranded or some call is in progress, which can overwrite or withdraw the cancellation. |
| `CallHandshakeProgress.MainThreadCleanupCloses` | python/mcp_console/_sync.py:206-225 | The same exact condition for interrupts in the main thread only. |
| `CallHandshakeProgress.ClosesExactlyUnlessStranded` | python/mcp_console/_sync.py:206-225 | Where every owed cancellation is published, some free continuation closes an open connection if and only if no published request is stranded: without a task, without a start callback, unfinished, and its caller gone. |
| `CallHandshakeProgress.GivingUpStrands` | python/mcp_console/_sync.py:267-273 | Giving up strands its own request exactly under that condition, and no other. |
| `CallHandshakeProgress.CalmsToClose` | python/mcp_console/_sync.py:206-225 | Without a stranded request, unwinding callers, running the loop dry and letting tasks return leads to a `close`, after which connecting and sending work again in every thread. |
| `CallHandshakeProgress.StrandedForever` | python/mcp_console/_sync.py:206-225 | A stranded request stays so on every free continuation: no `close` and no send. |
| `CallHandshakeProgress.InterruptsBeforeStartAndCancelStrand` | python/mcp_console/_sync.py:206-225 | A concrete run of two interrupts that strands the connection. |
| `CallHandshakeEffects.FinishedMeansAnswered` | python/mcp_console/_sync.py:64-78 | In every reachable state, for a request that was not interrupted: it has finished exactly when its future is resolved; a task that returned gives a result, one that raised a failure, and a cancelled future means that its task was cancelled. |
| `CallHandshakeEffects.SendReturnsItsResult` | python/mcp_console/_sync.py:233-274 | In every reachable state a send that waits uninterrupted can return the result of its task, by the loop and its tasks alone. |
| `CallHandshakeEffects.SendsExactlyWhen` | python/mcp_console/_sync.py:233-249 | A send is admitted exactly while the connection is open and sound, no cancellation is published, and its thread is in no other send. |
| `CallHandshakeEffects.SendDecides` | python/mcp_console/_sync.py:233-259 | It adds a pending request and queues its start; interrupted, it publishes itself. |
| `CallHandshakeEffects.WaitDecides` | python/mcp_console/_sync.py:246-263 | A waiting caller can be interrupted, which publishes its request, or returns once the future is resolved. |
| `CallHandshakeEffects.CancelDecides` | python/mcp_console/_sync.py:80-92 | Cancelling resolves a pending future and finishes a request without a task; otherwise the cancellation of its task is queued. |
| `CallHandshakeEffects.CleanupDecides` | python/mcp_console/_sync.py:260-274 | A cleanup that saw the request finish withdraws the cancellation; one that gives up fails the connection and queues the abort. |
| `CallHandshakeEffects.ConnectionDecides` | python/mcp_console/_sync.py:206-225 | Connecting needs a sound connection without a published cancellation. Closing completes exactly when no send is in progress, what is published has finished and the loop is idle, and resets every flag. |
| `CallHandshakeEffects.StartDecides` | python/mcp_console/_sync.py:51-62 | The start callback creates a task, or finishes a request that was cancelled before. |
| `CallHandshakeEffects.StepDecides` | python/mcp_console/_sync.py:51-62 | A task that is cancelled before its first step does not start; otherwise it waits again or ends. |
| `CallHandshakeEffects.FinishDecides` | python/mcp_console/_sync.py:64-78 | The done callback gives a pending future the outcome of its task, leaves a cancelled one, and finishes the request. |
| `CallHandshakeEffects.CancellationDecides` | python/mcp_console/_sync.py:80-98 | A cancellation reaches every task that has not ended, and wakes one that waits. |
| `CallHandshakeEffects.AbortDecides` | python/mcp_console/_sync.py:94-98 | The abort queues one more cancellation behind the first. |
| `CallHandshakeEffects.WakeDecides` | python/mcp_console/_sync.py:59-62 | What a waiting task awaits queues its next step. |
| `CallHandshake.CallbackKeeps` | python/mcp_console/_sync.py:51-92 | Each callback of one request keeps its future, event, task and queued callbacks consistent. |
| `SyncConsole.MCPConsole.CallSend` | python/mcp_console/_sync.py:233-259 | Which of the three errors is raised, and the request, callback and published cancellation otherwise. |
| `SyncConsole.MCPConsole.EndCleanup` | python/mcp_console/_sync.py:267-273 | A finished cleanup withdraws the cancellation; any other end marks the connection failed and queues the abort. |
| `SyncConsole.MCPConsole.FinishRequest` | python/mcp_console/_sync.py:64-78 | The done callback maps the outcome to the future and sets the event: a pending future gets the result of a task that returned and the exception of one that raised. |
| `SyncConsole.MCPConsole.RunOldest` | python/mcp_console/_sync.py:48-98 | The event loop runs its callbacks first in, first out. |
| `SyncConsole.MCPConsole.Close` | python/mcp_console/_sync.py:206-225 | Closing succeeds exactly when a published cancellation has finished; then every flag is reset. |
| `Jsonl.Interleave` | src/jsonl.rs:14-66 | For any interleaving of appends and reads: the frames returned and the lines still buffered are the newline split of everything appended, and what the blocking reader receives from the same bytes. |
| `Jsonl.Drain` | src/jsonl.rs:36-66 | Reading on yields every complete line and leaves exactly the partial one. |
| `Jsonl.JsonlBuffer.Append` | src/jsonl.rs:14-16 | Appending extends the unread bytes by the chunk and changes nothing else. |
| `Jsonl.JsonlBuffer.HasBufferedData` | src/jsonl.rs:18-20 | There is buffered data exactly when a byte is unread. |
| `Jsonl.JsonlBuffer.DecodeNext` | src/jsonl.rs:36-66 | The first line of the unread bytes is returned, with its newline or without it and without a carriage return before it (bytes 10 and 13), and consumed; without one nothing is lost and the consumed prefix is dropped. |
| `Jsonl.FrameMeans` | src/jsonl.rs:52-61 | A frame keeps its newline when asked to; otherwise it is the line, without one final carriage return. |
| `Jsonl.JsonlBuffer.WorkIsLinear` | src/jsonl.rs:40-58 | Over any run the search examines, and compaction moves, each byte at most once; together at most twice the bytes appended. |
| `Jsonl.ReaderAgreesWithBuffer` | src/relay_protocol.rs:239-259 | The blocking reader receives the frames of the newline split. |
| `Jsonl.JsonlReader.ReceiveNext` | src/relay_protocol.rs:239-259 | One message, the end of the stream, or an error for a partial frame, and what stays unread. |
| `Jsonl.ReceiveMeans` | src/relay_protocol.rs:239-259 | Nothing is the end of the stream, bytes without a newline are an error, and otherwise the first line, without its newline or CRLF, is the message. |
| `Jsonl.JsonlWriter.Send` | src/relay_protocol.rs:270-274 | The stream grows by the message and byte 10. |
| `Jsonl.WrittenMessagesComeBack` | src/relay_protocol.rs:270-274 | Written messages are read back, in order and with nothing left, by the buffer and by the reader, exactly when none contains byte 10 or ends in byte 13, which RFC 8259, section 7, promises of JSON text. |
| `Jsonl.LinesOfWritten` | src/jsonl.rs:36-66 | Complete lines in front of any bytes are the first lines of the split. |
| `Activation.AllOrNothing` | src/python/environment.py:100-163 | With a failure or an interrupt anywhere: a committed attempt publishes the environment in both places; any other restores path, identity and the three variables and changes no view, unless an interrupt arrives before the roll back begins; nothing stays pending. |
| `Activation.ReportedExactlyWhen` | src/python/requirements.rs:411-440 | Each of the four reports, exactly: rejected when incompatible, which changes nothing; interrupted when an interrupt arrives anywhere, even after a commit; failed when something else raises or the publication finds no candidate; prepared otherwise. |
| `Activation.PreparationReports` | src/python/requirements.rs:228-288 | The same for a package preparation: it is rejected, without effect, exactly when nothing was resolved, another Python library is needed, or the environment is incompatible. |
| `Activation.CommitDescribesExactlyCanonical` | src/python/requirements.rs:389-409 | A commit describes the pending candidate in every view, even if a hook replaced `resolved`, exactly when its manifest is canonical. |
| `Activation.RepeatedPackageIsNotDescribed` | src/python/requirements.rs:389-409 | A candidate that lists one package twice is refused, or replaced by the live candidate that lists it once. |
| `Activation.TryCommits` | src/python/environment.py:113-139 | The `try` block commits exactly when nothing raises before the publication and `accept` finds a candidate. |
| `Activation.HooksObserveCandidate` | src/python/environment.py:114-128 | The site hooks see the identity of the candidate, PATH without the old executables, and a path without the entries of the old environment unless both share site packages. |
| `Activation.CommitTracksAdditions` | src/python/environment.py:129-139 | A commit keeps what the hooks left and tracks as its own exactly the entries kept from the old environment and those that the hooks added. |
| `Activation.InterruptedAfterCommit` | src/python/environment.py:135-139 | An interrupt deferred by the publication is reported although the candidate is committed. |
| `Activation.UnchangedExactlyWhen` | src/python/environment.py:100-163 | An attempt that does not commit leaves everything as it was if and only if no interrupt slips in before the roll back, or it was refused before its first mutation, or each mutation that it made wrote what was there already. |
| `Activation.InterruptedBeforeRollBack` | src/python/environment.py:142-148 | An interrupt between the failure and the deferral, after the first mutation, changes the state whenever the two prefixes differ. |
| `Activation.RestoreUndoes` | src/python/environment.py:146-159 | The roll back restores the path, four identity fields and three environment variables, absent ones included. |
| `Activation.PreparationKeepsAgreement` | src/python/requirements.rs:228-288 | A preparation keeps both sides describing one environment; exactly if it commits, the live candidate is the resolved one with the extended manifest, and its environment is active. |
| `Activation.LiveIsGrown` | src/python/requirements.rs:497-548 | Over any run of preparations the live manifest is the initial one grown by exactly the committed package lists. |
| `Activation.PackagesStay` | src/python/requirements.rs:229-231 | No package is ever lost from the live manifest. |
| `PythonEnvironment.Interpreter.Mutate` | src/python/environment.py:114-131 | The mutations in order, stopped after any number of them. |
| `PythonEnvironment.Interpreter.Accept` | src/python/requirements.rs:389-409 | The resolved candidate with the canonical manifest, else the live one, else a refusal without effect. |
| `PythonEnvironment.Interpreter.PublishActivation` | src/python/requirements.rs:455-477 | Publication takes the pending slot, checks the manifest, and changes every view or none. |
| `PythonEnvironment.Interpreter.RollBack` | src/python/environment.py:146-159 | The loop over the saved variables restores or removes each of them. |
| `PythonEnvironment.Interpreter.TryActivate` | src/python/environment.py:113-141 | Mutations, publication and commit flag, with what is raised. |
| `PythonEnvironment.Interpreter.PrepareEnvironment` | src/python/environment.py:166-181 | The outcome and the state of one preparation in Python. |
| `PythonEnvironment.Interpreter.PreparePackageList` | src/python/requirements.rs:228-288 | One package preparation for a live interpreter computes that result and state. |
| `InterpreterLifecycle.StartedAtMostOnce` | src/python/library.rs:230-313 | Over any call sequence CPython is started at most once, and never when it is external. |
| `InterpreterLifecycle.ThreadStateAlternates` | src/python/library.rs:149-176 | Saves and restores of the main thread state alternate, beginning with a save, and the state is saved exactly while detached. |
| `InterpreterLifecycle.OwnershipSettles` | src/python/library.rs:133-140 | External and owned interpreters stay so, a stuck initialization stays stuck, and no flag is cleared. |
| `InterpreterLifecycle.SetupNeverRepeats` | src/python/library.rs:74-92 | A flagged setup step never runs or is flagged again, and a configured runtime has every flag. |
| `InterpreterLifecycle.SetupCompletesExactlyWhen` | src/python/startup.rs:77-120 | Setup completes exactly when nothing that is still missing fails; marking it configured never fails. |
| `InterpreterLifecycle.EarlyChoiceAppliedOnce` | src/python/library.rs:455-466 | An early choice of R for SQL is replayed exactly once, when SQL is installed, and is pending until then. |
| `InterpreterLifecycle.CallKeeps` | src/python/library.rs:149-351 | Every call keeps the record, the thread state, the flags and the pending choice consistent with the log of foreign calls. |
| `InterpreterEffects.StartedExactlyWhen` | src/python/library.rs:230-313 | Over any call sequence CPython is started, and then once, exactly if some call initializes a usable selection while no interpreter runs and none was started or taken over before. |
| `InterpreterEffects.InitializeDecides` | src/python/library.rs:230-313 | Initialization succeeds exactly when the running interpreter has or takes this selection, or when CPython starts, completes and takes its arguments; which start is logged. |
| `InterpreterEffects.InitializeLeaves` | src/python/library.rs:230-313 | The owner and the configuration that it leaves: ours, external, or initializing for good. |
| `InterpreterEffects.LoadDecides` | src/python/library.rs:896-1006 | Loading succeeds exactly for the loaded path and a running interpreter, which becomes external if nobody owns it. |
| `InterpreterEffects.FinishDecides` | src/python/library.rs:855-894 | The thread state is saved exactly for our running interpreter that is attached, and restored before the process exits exactly if it is saved and the interpreter still runs. |
| `InterpreterEffects.StepDecides` | src/python/library.rs:415-435 | A flagged step does nothing; another one is attempted, and flagged exactly if its call succeeds in a running interpreter. |
| `InterpreterEffects.SiteDecides` | src/python/library.rs:315-351 | The site hooks of an external interpreter are flagged without running. |
| `InterpreterEffects.SqlDecides` | src/python/library.rs:437-469 | The SQL runtime is flagged exactly after it and a pending choice have succeeded; a replay that stops leaves the choice pending. |
| `InterpreterEffects.ChooseDecides` | src/python/library.rs:768-774 | A choice of R before SQL is installed is remembered; afterwards it is passed on. |
| `InterpreterEffects.EnvironmentDecides` | src/python/library.rs:353-380 | The environment step needs a configuration. |
| `InterpreterEffects.MarkDecides` | src/python/library.rs:84-91 | Setup is marked configured exactly when all five steps are flagged. |
| `InterpreterEffects.ServicesDecide` | src/python/startup.rs:65-70 | Installing the services needs the running interpreter of this path, and flags them when they are. |
| `InterpreterEffects.InstallReports` | src/python/startup.rs:77-95 | Services, site hooks and evaluator: which are flagged and what is reported. The evaluator is installed even after interrupted hooks. |
| `InterpreterEffects.SetupReports` | src/python/startup.rs:77-120 | What one call of setup reports, step by step, in every state: done, paused or failed. |
| `PythonLibrary.PythonSlot.AttachLibrary` | src/python/library.rs:997-1006 | Attaching needs the same path and a running interpreter, and makes an unclaimed one external. |
| `PythonLibrary.PythonSlot.InitializeInterpreter` | src/python/library.rs:230-313 | Every early return of `initialize`, and the two writes of the interpreter state around the start, compute that outcome and record. |
| `PythonLibrary.PythonSlot.Finish` | src/python/library.rs:855-894 | Detaching happens once per attachment and only for an owned, live interpreter. |
| `PythonLibrary.PythonSlot.RunSql` | src/python/library.rs:437-469 | The SQL step is flagged only after a pending choice has been replayed. |
| `PythonLibrary.PythonSlot.Setup` | src/python/startup.rs:77-120 | The resumable sequence of steps with its early returns. |
| `DependencyAudit.LoadMeets` | scripts/release.py:635-679 | Members are mapped breadth first, also around cycles; on success every needed name is a system library or bound to a mapped member by the first match where it was first needed; otherwise the failing member and name are exact and everything before is met. |
| `DependencyLoading.LoadSucceedsExactlyWhen` | scripts/release.py:635-679 | A load succeeds if and only if the wheel admits a complete mapping, stated without the queue: breadth first, each name bound by the first member that needs it to the first match there, members in the order of those needs, nothing unmet; what it finds is one. |
| `DependencySearch.LoadSucceedsAlongChain` | scripts/release.py:635-679 | The same told by the paths of the ELF files alone: each name is bound by the first member that needs it to the first match in its RUNPATH, or without one along its own paths, its parent's, and so on to the entry. |
| `DependencySearch.BoundAlongChain` | scripts/release.py:644-671 | Every name that a load binds, also one that fails later, was found in the first path that holds it: of RUNPATH alone if its user has one, otherwise of that chain. |
| `DependencySearch.FailsAlongChain` | scripts/release.py:650-674 | A load that fails stops at a needed name that has a slash, or that is no system library, is not loaded, and is in none of those paths; all members before need nothing more. |
| `DependencySearch.SearchesAlong` | scripts/release.py:644-649 | Where a member looks: its first match, or none, is that of RUNPATH alone if it has one, and otherwise that of its chain. |
| `DependencySearch.UniqueKeepsOrder` | scripts/release.py:646 | Paths that are kept stay in the order of their first occurrences. |
| `DependencySearch.FirstOfUnique` | scripts/release.py:646 | Leaving out repeated paths changes no match. |
| `DependencySearch.AuditStartsExactlyFrom` | scripts/release.py:681-693 | The loads start from the commands, the executables and the files whose name no ELF needs, in the order of the wheel, and then from exactly those that no load before has mapped. |
| `DependencyAudit.CheckDependencies` | scripts/release.py:635-679 | The queue and set loops terminate on every graph and map exactly those members, or report that failure. |
| `DependencyAudit.LoadMember` | scripts/release.py:641-679 | One turn of the queue: skipped names, bindings and failures, along RUNPATH or the chain. |
| `DependencyAudit.Find` | scripts/release.py:659-671 | The first search path that holds the name. |
| `DependencyAudit.FirstIs` | scripts/release.py:659-671 | A match is the first one, and there is none exactly when no path holds the name. |
| `DependencyAudit.UniqueIs` | scripts/release.py:646 | Inherited search paths keep each path once. |
| `DependencyAudit.LoadedIsCovered` | scripts/release.py:650-679 | Everything that a mapped member needs is a system library, or is bound to the mapped member that the first search path of its first user holds. |
| `DependencyAudit.CheckMembers` | scripts/release.py:683-693 | One of the two outer loops: what its loads map, or the first failure among them. |
| `DependencyAudit.AuditPassesExactlyWhen` | scripts/release.py:626-694 | The audit passes if and only if every command is an ELF of the wheel and every load succeeds: one from each entry, and one from each ELF not mapped before it; then some load covers what any ELF needs. |
| `DependencyAudit.AuditBlames` | scripts/release.py:631-694 | Otherwise the failure is a command that is missing, or names the ELF and the library at which the first failing load stops, with everything before it met. |
| `DependencyAudit.AuditReachesAll` | scripts/release.py:681-694 | Every entry starts a load, and every ELF of the wheel is mapped by some load. |
| `DependencyAudit.Audit` | scripts/release.py:626-694 | The loops compute that verdict and, when it is a pass, have looked at exactly the ELFs of the wheel. |
| `InlineRoundTrip.AcceptsExactlyDocuments` | src/config/inline.rs:8-18 | Text is accepted with a value exactly when it prints a document that means it: either separator, any spacing, optional trailing comma, quoted or plain tokens, nothing left over. |
| `InlineRoundTrip.EveryTreeRoundTrips` | src/config/inline.rs:23-66 | Every value tree whose scalars and keys the YAML library reads back has a printed form that parses to this tree. |
| `InlineRoundTrip.ShownIsParsed` | src/config/inline.rs:23-66 | A printed document is parsed to its meaning and exactly what follows it is left. |
| `InlineRoundTrip.ParsedIsShown` | src/config/inline.rs:23-66 | Whatever is parsed was the printed form of a document with that meaning. |
| `InlineRoundTrip.TokenIsShown` | src/config/inline.rs:87-124 | A token is read to its closing quote or to the delimiter, without the space around it. |
| `InlineRoundTrip.TokenSplits` | src/config/inline.rs:87-124 | What is read as a token is one, and only space after it is skipped. |
| `InlineRoundTrip.QuotedTokens` | src/config/inline.rs:87-106 | Quoted tokens are exactly the double-quoted form with backslash escapes and the single-quoted form with doubled quotes (YAML 1.2.2, sections 7.3.1 and 7.3.2). |
| `InlineRoundTrip.SpacesAre` | src/config/inline.rs:8-18 | White space is that of the Unicode Standard. |
| `InlineGrammar.ParseValue` | src/config/inline.rs:23-66 | Parsing a value shortens the remaining text, so the parser terminates on every input. |
| `InlineParser.Parser.ParseOne` | src/config/inline.rs:23-66 | The mutually recursive methods agree with the grammar, errors included. |
| `InlineParser.Parser.ParseTable` | src/config/inline.rs:25-46 | The loop that fills the map. |
| `InlineParser.Parser.ParseList` | src/config/inline.rs:47-57 | The loop that fills the vector. |
| `InlineParser.Parser.TakeToken` | src/config/inline.rs:87-124 | The token and the remaining text, or the error with its place. |
| `InlineParser.Parser.EndCollection` | src/config/inline.rs:77-85 | The closing delimiter, an optional comma before it, or an error. |
| `InlineParser.Parser.TakeDelimiter` | src/config/inline.rs:68-75 | A delimiter and the space after it are taken together. |
| `InlineParser.ParseInline` | src/config/inline.rs:8-18 | One inline value and nothing else. |
| `ConfigLayers.LeafFromLastLayer` | src/config.rs:66-77 | A leaf is at a path exactly when the last layer with a value there, or a leaf above it, holds it there. |
| `ConfigLayers.LastLayerDecides` | src/config.rs:155-164 | The last layer that speaks at a path decides what is there, leaf, object or nothing. |
| `ConfigLayers.MergeAt` | src/config.rs:155-164 | Where the overlay speaks it decides; everywhere else the base stays. |
| `ConfigLayers.SpeaksMeans` | src/config.rs:155-164 | Speaking at a path means holding something there or a leaf above it. |
| `ConfigLayers.MergeAgain` | src/config.rs:155-164 | Merging the last layer again changes nothing. |
| `ConfigLayers.RegroupExactlyUnlessReopened` | src/config.rs:155-164 | Two layers may be merged with each other first, over every base, if and only if the later one nowhere has an object where the earlier one has a leaf. |
| `ConfigLayers.LayersDoNotRegroup` | src/config.rs:155-164 | The smallest pair of layers that may not. |
| `ConfigLayers.OverrideIsUpdate` | src/config.rs:96-103 | A nested override is exactly the update of its path and leaves every path apart from it alone. |
| `ConfigLoading.OverrideUpdatesTarget` | src/config.rs:84-106 | A command line override, shorthands included, is exactly the update at the path that it names. |
| `ConfigLoading.ArgumentMeans` | src/config.rs:86-99 | A KEY=VALUE argument, with spaces around its dotted key, means its parsed value at that key, or the error of its value. |
| `ConfigLoading.ExpandingSettles` | src/config.rs:132-151 | Expanding removes every shorthand, twice is once, and other values are untouched. |
| `ConfigLoading.ExpandedMeans` | src/config.rs:132-151 | The expanded forms hold the same content under the full names. |
| `ConfigLoading.MergeInto` | src/config.rs:155-164 | The loop over the overlay merges every key once. |
| `ConfigLoading.ExpandShorthands` | src/config.rs:132-151 | The two in-place rewrites. |
| `ConfigLoading.ReadArgument` | src/config.rs:86-99 | A KEY=VALUE argument becomes its layer or its error. |
| `ConfigLoading.ApplyValues` | src/config.rs:84-106 | The arguments are merged in order, up to the first error. |
| `ConfigLoading.LoadConfiguration` | src/config.rs:21-82 | Defaults, documents and overrides are applied in this order, which gives that result. |
| `ConfigPrecedence.PrecedenceDecides` | src/config.rs:21-82 | At each path of the result the last override that speaks decides, else the last document, expanded, else the last default; there is no result exactly without any input. |
| `ConfigPrecedence.LoadFailsAtFirst` | src/config.rs:29-77 | Loading fails exactly if an argument is refused, with the error of the first default, or else of the first override, that is. |
| `ConfigPrecedence.EmptyDocumentIsEmpty` | src/config.rs:17-19 | An empty document alone makes an empty configuration; no input makes none. |
| `ConfigPrecedence.ExpandsExactly` | src/config.rs:132-151 | Which R and Python forms are shorthands, key by key, and what they become. |
| `ConfigPrecedence.ArgumentReads` | src/config.rs:86-99 | Every argument: without "=" it is refused; otherwise the text before the first one is cut at its dots and each part trimmed, a part of spaces alone is refused, then the error of the value, then its layer. |
| `ConfigPrecedence.TrimSplits` | src/config.rs:90-92 | Trimmed text is what is left without the spaces at both ends. |
| `Versions.OperatorsPartition` | src/python_requirement.rs:153-161 | Exactly one of less, equal and greater holds, and the other operators are their complements. |
| `Versions.OperatorsAreClosed` | src/python_requirement.rs:140-161 | Matches of at-least and greater are upward closed, those of at-most and less downward closed, for releases of three components or constraints of three levels or more. |
| `Versions.OrderKeptExactlyFor` | src/python_requirement.rs:140-152 | Comparing with a constraint keeps the order of all releases of one length if and only if the constraint has three levels or the releases three components. |
| `Versions.EqualMatches` | src/python_requirement.rs:140-155 | Equality asks for the same components, zero where one is missing, except those of the first three that the constraint leaves open. |
| `Versions.EqualMatchesPrefix` | src/python_requirement.rs:140-155 | For releases of three components, equality with up to three levels matches exactly those with that prefix. |
| `Versions.ComparedIsMonotone` | src/python_requirement.rs:140-152 | Truncating and padding keep the order of these releases. |
| `Versions.WrittenIsParsed` | src/python_requirement.rs:89-121 | A written constraint, with or without an operator, with spaces and any number of trailing ".*", is read as its operator and numbers; without one it asks for equality. |
| `Versions.WrittenMatches` | src/python_requirement.rs:123-162 | From text to text, for every written constraint and release: the numbers are compared, and the match panics exactly when both have fewer than three. |
| `Versions.PanicsExactlyOnShort` | src/python/requirements/r.rs:592-611 | For any texts: the version check panics if and only if the constraints are valid, the text parses as a version, it is a number of fewer than three components, and so is the first clause that does not match. |
| `Versions.ShortReleasePanics` | src/python_requirement.rs:144-149 | The check of the version 3.12 against the constraint >=3.11 panics. |
| `Versions.NumberIsShown` | src/python_requirement.rs:165-175 | Decimal digits are read back. |
| `Versions.MatchNumeric` | src/python_requirement.rs:137-162 | The two vectors, zeroed, padded and compared, or the index that is out of range. |
| `Versions.Compare` | src/python_requirement.rs:153 | The comparison loop finds the first difference. |
| `VersionClauses.AcceptsExactlyWhen` | src/python/requirements/r.rs:592-611 | A version is accepted if and only if the library parses it, no constraint is empty, and every clause of every constraint is a version or a supported specifier and matches. |
| `VersionClauses.ClausesAre` | src/python/requirements/r.rs:600-606 | The clauses are the parts between commas of all constraints, in order. |
| `VersionClauses.OperatorClauseDecides` | src/python_requirement.rs:123-139 | A clause with an operator compares numbers if both sides are numeric; otherwise it asks its specifier; without one it matches only its own text, and nothing if it is numeric. |
| `VersionClauses.PlainClauseDecides` | src/python_requirement.rs:123-139 | A clause without an operator compares numbers, refuses other versions if it is numeric, and otherwise asks for that version or that text. |
| `VersionClauses.OperatorReads` | src/python_requirement.rs:89-106 | Each of the six operators is read from the beginning of a clause. |
| `VersionClauses.NoOperatorReads` | src/python_requirement.rs:104-106 | Without one the whole clause is the version. |
| `VersionClauses.StarsAreDropped` | src/python_requirement.rs:107 | All ".*" at the end are dropped, and nothing else. |
| `VersionClauses.NumberReads` | src/python_requirement.rs:165-175 | A part is a number exactly if it is digits, after an optional plus sign, of a value below 2 to the 64th; leading zeros do not count. |
| `VersionClauses.NumbersRead` | src/python_requirement.rs:165-175 | A version is numeric exactly if all of its parts are numbers. |
| `Manifests.NormalizedAlike` | src/worker_protocol.rs:86-101 | Two manifests normalize to the same value exactly when their package sets, version sets and cutoff agree. |
| `Manifests.NormalizedIdempotent` | src/worker_protocol.rs:86-101 | Normalizing twice is normalizing once. |
| `Manifests.NormalizedOrder` | src/worker_protocol.rs:86-101 | No duplicates; the default packages first, in their fixed order; the rest and the versions in ascending order. |
| `Manifests.LessMeans` | src/worker_protocol.rs:86-101 | The order of texts: the first character that differs decides, and a proper prefix comes first. |
| `Manifests.GrownInAnyOrder` | src/python/requirements.rs:229-231 | Adding the same packages in any order and grouping gives one manifest. |
| `Manifests.GrownElements` | src/python/requirements.rs:506-508 | A grown manifest has exactly the initial and the added packages, and is canonical. |
| `Manifests.Normalize` | src/worker_protocol.rs:86-101 | The set that the defaults are removed from, and the rewritten fields. |
| `Manifests.TakeDefaults` | src/worker_protocol.rs:87-93 | The loop over the defaults keeps those present and removes them from the set. |

## Left out

- Transport I/O, pipes, sockets, processes and the wakeups of waiting futures: platform calls; readiness, failure and interruption are steps that may happen at any time.
- Real time: the five-second waits and the shutdown deadline become a "gave up" step, and `settle_before_close` with its counters is not part of this model.
- `DeliveryModel`: short-lived `Arc` clones inside one call appear as later drops of a node; protocol writes that are not responses, and the bootstrap flags, are not modelled.
- `DeliveryModel`: `start_response` is not modelled, because it bypasses the reservation bound and is not used by the transport.
- `DeliveryModel`: a run ends where an assertion of `register` fails; what unwinding the handler does to the delivery that it replaced is not modelled.
- `RecordingQueueModel`: capture futures are assumed to end normally; aborting them is not modelled, and neither is what is written to the journal.
- `CallHandshake`: an interrupt inside a section that holds the lock, or inside the final block that withdraws or fails a cancellation, is not modelled. What the SDK does with a delivered cancellation is arbitrary.
- `CallHandshake`: `close` is modelled at the point where it returns, with no other call in progress as its documentation demands, and with the loop drained.
- `Jsonl`: a frame is the byte sequence given to the JSON decoder; decoding and the release of buffer capacity are not modelled.
- `Activation`: a publication that fails half way through its I/O, and a roll back that itself fails, are fatal to the worker and not modelled. The R projection path depends on `requirements/r.rs` and is not part of this model.
- `Activation`: site hooks may change path, identity, variables and the resolved candidate; other side effects are neither undone by the source nor modelled. The final acknowledgment of an interrupt in `prepare`, after the state is settled, only changes the reported outcome and is not modelled.
- `InterpreterLifecycle`: each call is one step. Calls that site hooks make into the console while `initialize_site` has released the library lock (src/python/library.rs:326-346) would nest, and are not modelled.
- `InterpreterLifecycle`: calls come from the one interpreter thread. The bodies of the foreign calls, and the Windows paths, are not modelled. A null thread state from `PyEval_SaveThread`, which CPython treats as fatal, is not modelled. An activation may later replace the selected environment of the configuration; that belongs to `Activation`.
- `DependencyAudit`: reading ELF headers, symbol versions and search paths is not modelled; joining and normalizing a path is a parameter.
- `InlineGrammar`: what a YAML scalar or quoted string means is a parameter. The recursion of the source is not limited by the size of a stack here.
- `ConfigLoading`: finding, deduplicating and reading files is not modelled; documents are given in order. Numbers are opaque text.
- `Versions`: PEP 440 specifiers and versions, used for candidates or constraints that are not purely numeric, are opaque predicates; the validators that only ask whether they parse are left out. Candidates are the numeric components of their text.
- `ConfigLayers`, `Manifests` and `PythonLibrary` replace values inside trees, lists and records instead of mutating shared storage; the source owns each of these exclusively, so no aliasing is lost.
- Transcripts, Markdown projections, the command line, client registration files, wheel building and framework adapters: mostly I/O or thin wrappers.
