# A verified model of the Fitz TypeScript client

This project models the asynchronous core of the Fitz broker client and proves what it keeps under every
interleaving of callers, timers, signals, the transport and the broker. Check it with
`dafny verify dfyconfig.toml`.

## How it is built

The client is single-threaded and asynchronous: what runs between two `await`s is one step, and so is a
promise settling together with the local continuations that waited for it. Each protocol is therefore a state
machine on values (`MuxModel`, `Lanes`, `InventoryModel`, `SubscriptionModel`, `LeaseModel`, `RpcModel`,
`ConnectionModel`) whose events may come in any order, and its theorems are about all runs. Beside it stands a
class that keeps the source's variables as fields and updates them in place. Its `Valid()` is the invariant
proved of every run; every event is a method that requires and ensures it and takes exactly the step of the
state machine, so what is proved about runs holds of the object. The theorems go both ways: what no run may do
(invariants, safety), and what each event must do, in every run, to the call, handle, attempt or lease it concerns
(`MuxModel.OutcomeIff`, `EndingTakesEffect`, `NextAnswers` and the `...Progress` modules). The algorithms (heap, glob, validator, ring
buffer, reassembly, codecs, scan) are loops proved against recursive definitions.

| file | models |
|---|---|
| `Requests`, `TimeoutHeap`, `MuxModel`, `Multiplexer` | correlated requests, tombstones, the indexed heap of deadlines with its timer |
| `RingQueue`, `PendingQueue` | the growing ring buffer of the uncorrelated path |
| `Lane`, `LaneProgress`, `UncorrelatedLane` | the lane over it: chains of promises, the map entry, withdrawn calls, disconnects |
| `InventoryModel`, `InventoryHealing`, `InventoryObserver` | the race-safe inventory view, with the broker as a versioned set and a channel of notifications |
| `SubscriptionModel`, `LeaseSubscriptions` | subscribe and unsubscribe bookkeeping within one session |
| `LeaseModel`, `LeaseProgress`, `ManagedLease` | the serialized lease handle with its rotating token, and `withLease` |
| `Routes`, `Patterns`, `RpcSelection` | the glob, the pattern validator, the choice of an RPC worker |
| `RpcModel`, `RpcAnswers`, `RpcCalls` | response iterators, cancellation, pooled correlation buffers |
| `ConnectionModel`, `ConnectionProgress`, `Connection` | connect, HELLO, receive loop, loss, reconnect, close |
| `AttemptOverlap`, `HelloAnswers` | what a call of connect and the reconnect loop can do to each other |
| `SessionRequests` | the multiplexer's requests over the life of the connection |
| `BigEndian`, `Frames`, `TcpTransport`, `Extensions` | wire formats |
| `KvScan` | key order and paged scans |

## What the proofs found

Where the code does not do what it promises, a lemma gives a run that shows it and another the exact condition.

- `docs/PUBLIC_CONTRACT.md:22` says that `close()` permanently transitions the client to `CLOSED`. The code
  returns early when it finds the state closed and no transport open (`src/client/connection.ts:278-281`), as
  after rejected credentials, and then sets no flag; a later `connect()`, or a reconnect loop still asleep, opens
  the connection again, and because the promise of `close()` is memoized no later call closes it
  (`EarlyCloseIsReached`). Closing is permanent if and only if it does not return early (`CloseIsAbsorbingIff`).
- The lane promises one uncorrelated request of a type in flight at a time (`src/client/multiplexer.ts:285-292`).
  A disconnect clears the lane's map entry while calls are still chained behind it, and each of those starts when
  the one before it is rejected. If the next session has no correlation either, a new call finds no lane. One
  call at a time survives if and only if no call waited behind a running one (`DisconnectKeepsSoleIff`); the
  order of the ring buffer survives if and only if no two did (`DisconnectKeepsOneIff`,
  `ThreeCallsThenDisconnect`). This concerns the multiplexer's own operations: the connection never negotiates a
  version without correlation (`src/client/connection.ts:936-943`).
- The teardown of an attempt that was lost and replaced can mark the session of the newer one disconnected
  (`StaleTeardownUndoesReconnect`). Such an attempt was under way already when the newer session was authenticated
  (`StaleAttemptPredatesSession`). What is under way can end a session by itself if and only if something other
  than a restore is (`SessionExposedIff`).
- An attempt resolves whichever outcome is current, so the success of a stale attempt can authenticate the
  connection on a transport from which nothing came (`StaleSuccessIsUnconfirmed`). A run is free of this if and
  only if the reconnect loop never dials while another attempt has its answer already (`AlwaysConfirmedIff`), and
  the sessions nothing was heard from are exactly those dialed in that way and silent since
  (`SessionUnconfirmedIff`).
- The failure of a stale attempt drops the outcome and ends the receive loop of a newer one, which is then left to
  its timeout (`StaleCatchStrands`). `AnswerableIff` says exactly when a waiting attempt can still be answered. An
  attempt that nothing disturbs succeeds if and only if no negotiated version is held from before
  (`UndisturbedConnect`, `UndisturbedReconnect`).
- Connecting over a request that still waits hands out its correlation id again and loses it
  (`ConnectOverWaitingCallLosesIt`): all waiting requests stay reachable, and will be settled by a disconnect, if
  and only if none waits when connecting (`ConnectSafeIffNoneLive`). The connection does not always see to that,
  since a stale success and the newer attempt each connect the multiplexer (`StaleSuccessConnectsTwice`); its runs
  that do are exactly those in which no connect follows a moment at which requests pass the readiness check without
  a disconnect in between (`AlwaysOrderlyIff`).
- The in-flight gauge counts, besides the waiting requests, each send rejected since the last disconnect.
- A LIST pass that throws has already cleared the request a notification made, so the observer can rest, ready,
  on a stale view (`FailedPassLeavesStaleView`). At rest the view is current if and only if no pass failed, since
  the install, at a version later than the one shown (`ViewIsCurrentIff`); the step that loses a change is a pass
  that threw with no other asked for (`StaleByUnrequestedFailure`), and any later request heals it
  (`RequestHeals`). From every state some continuation heals it, if and only if the observer is neither closed nor
  aborted (`CanHealIff`).
- A subscription handle that failed on overflow and whose UNSUBSCRIBE the broker refused leaves its handler
  registered for the rest of the session (`OverflowThenRefusal`, `StuckForGood`), and a handler is stranded in no
  other way (`StrandedIff`).
- `withLease` takes a callback that rejects with `undefined` for one that returned (`ThrowHidden`, `ResolvesIff`).
- The greedy glob is right for every pattern if and only if the route has no `**` segment
  (`GreedyRightIffRouteHasNoDouble`).
- Of the four counts the RPC pattern comparison looks at, the last never decides: the number of segments is the sum of
  the other three (`LengthNeverDecides`).
- In the ring buffer, taking out a request between the first and the last makes the next one overwrite a waiting
  slot (`HoleLosesFirst`, `UnregisterDenseIff`); the lane prevents it as far as it holds.
- The extension decoder accepts extension ids in any order, although the encoder insists that they ascend
  (`OutOfOrderAccepted`). Of the payloads accepted, the encoder produces exactly those whose ids ascend in a
  block that fits (`AcceptedIsProducedIff`).

## Model

| member | source | states |
|---|---|---|
| `MuxModel.SettlesAtMostOnce` | src/client/multiplexer.ts:457-491 | over every run of requests, frames, timeouts, aborts, send failures, connects and disconnects, an outcome once decided never changes, and no call is forgotten |
| `MuxModel.IdsNeverRepeat` | src/client/multiplexer.ts:273-283 | two calls of one session never share a correlation id, in every run, exhaustion included |
| `MuxModel.ResolvedByItsOwnFrame` | src/client/multiplexer.ts:669-699 | a resolved call holds the payload of a final frame that bore its own id and found it waiting, in its own session when every connect found no call waiting |
| `MuxModel.FailureLeavesTombstone` | src/client/multiplexer.ts:471-496 | of all the ways a waiting call can settle, exactly timeout, abort, a throwing send and a send resolved while disconnected leave its table entry |
| `MuxModel.OutcomeIff` | src/client/multiplexer.ts:457-496 | in every run the outcome of a call is what the first event that decides anything for it says: the payload of a final frame the table leads to it, or the failure of its timeout, abort, send or disconnect; and no other |
| `MuxModel.FinalFrameResolves` | src/client/multiplexer.ts:688-697 | in every run a final frame with the identifier of a waiting call that the table leads to resolves it with its payload, removes the entry and touches no other call; one that is not final changes nothing |
| `MuxModel.EntryIff` | src/client/multiplexer.ts:512-552 | in every run the table leads an identifier to a call exactly when the call was issued under it and nothing took the entry since |
| `MuxModel.NextIdCounts` | src/client/multiplexer.ts:273-283 | in every run the next identifier is one more than were handed out since the last connect, and none once they are used up |
| `MuxModel.OnlineIff` | src/client/multiplexer.ts:242-245 | in every run the multiplexer is connected exactly if the last connect came after the last disconnect |
| `MuxModel.IssueRegisters` | src/client/multiplexer.ts:509-552 | in every run a request is issued whenever an identifier is left: it waits under the next one and the table leads to it |
| `MuxModel.RunWellFormed` | src/client/multiplexer.ts:273-283 | every run keeps table entries pointing at the call with that id, ids in range and increasing within a session |
| `MuxModel.RunCovered` | src/client/multiplexer.ts:545-552 | when every connect finds no call waiting, each waiting call owns its table entry |
| `MuxModel.DisconnectSettlesAll` | src/client/multiplexer.ts:776-817 | after a disconnect no call waits and the table is empty |
| `MuxModel.ConnectSafeIffNoneLive` | src/client/multiplexer.ts:242-245 | after a connect every waiting call stays reachable by its own id however the session goes on, and a disconnect will always settle all of them, if and only if no call waits when connecting |
| `MuxModel.ConnectOverWaitingCallLosesIt` | src/client/multiplexer.ts:242-245 | a run in which a connect over a waiting call reuses its id, so that not even a disconnect settles it |
| `MuxModel.FailThose` | src/client/multiplexer.ts:344-366 | exactly the waiting calls of the given set fail, the others are as before |
| `TimeoutHeaps.RootIsLeast` | src/client/multiplexer.ts:144-146 | in a heap the root is a minimum |
| `TimeoutHeaps.HeapIsOrderedAround` | src/client/multiplexer.ts:688-697 | overwriting any key with any value leaves the rest of the heap ordered around it |
| `TimeoutHeaps.LiftStep` | src/client/multiplexer.ts:106-115 | one swap of the upward pass moves the only possible disorder to the parent |
| `TimeoutHeaps.SinkStep` | src/client/multiplexer.ts:117-142 | one swap of the downward pass moves the only possible disorder to the child |
| `TimeoutHeaps.TimeoutHeap.Swap` | src/client/multiplexer.ts:97-104 | the two entries change places and their back-pointers follow |
| `TimeoutHeaps.TimeoutHeap.HeapifyUp` | src/client/multiplexer.ts:106-115 | an entry that may be too early is lifted: a heap again, same members, back-pointers right |
| `TimeoutHeaps.TimeoutHeap.HeapifyDown` | src/client/multiplexer.ts:117-142 | an entry that may be too late is sunk; what remains is at most its place towards the root |
| `TimeoutHeaps.TimeoutHeap.Insert` | src/client/multiplexer.ts:541-542 | the request is added, nothing else changes, and the heap is a heap |
| `TimeoutHeaps.TimeoutHeap.Overwrite` | src/client/multiplexer.ts:691-691 | the deadline becomes -1 while the entry is still in the heap, which stays ordered around it |
| `TimeoutHeaps.TimeoutHeap.Remove` | src/client/multiplexer.ts:148-164 | exactly the given request leaves, from any position and whatever its key was overwritten with; a heap again |
| `TimeoutHeaps.TimeoutHeap.Vacate` | src/client/multiplexer.ts:148-164 | the last entry takes the place of the one removed |
| `Multiplexers.Multiplexer.Issue` | src/client/multiplexer.ts:420-552 | issues as the state machine does and keeps heap = waiting calls, timer no later than the least deadline, marks and gauge |
| `Multiplexers.Multiplexer.Push` | src/client/multiplexer.ts:509-547 | the new record is in the heap at its deadline and the timer covers it |
| `Multiplexers.Multiplexer.AllocateCorrelationId` | src/client/multiplexer.ts:273-283 | the ids of a session in order, and none once they are used up |
| `Multiplexers.Multiplexer.ScheduleTimeout` | src/client/multiplexer.ts:329-342 | the timer ends up armed no later than the deadline, and never later than before |
| `Multiplexers.Multiplexer.Dispatch` | src/client/multiplexer.ts:669-699 | a frame without entry is reported and changes nothing; one that is not final changes nothing; a final one removes its entry and resolves the call it led to with the payload, if that still waits |
| `Multiplexers.Multiplexer.HandleTimeouts` | src/client/multiplexer.ts:344-366 | rejects exactly the waiting calls with deadline at or before now, leaves them as tombstones and rearms |
| `Multiplexers.Multiplexer.ExpireDue` | src/client/multiplexer.ts:344-360 | afterwards the heap is empty or its least deadline is after now |
| `Multiplexers.Multiplexer.Abort` | src/client/multiplexer.ts:544-549 | an abort fails the call and leaves its tombstone |
| `Multiplexers.Multiplexer.SendThrew` | src/client/multiplexer.ts:566-572 | a send that throws does the same |
| `Multiplexers.Multiplexer.SendResolved` | src/client/multiplexer.ts:575-583 | a send that resolves while disconnected fails the call |
| `Multiplexers.Multiplexer.SendRejected` | src/client/multiplexer.ts:584-623 | a rejected send unregisters a waiting call, which the gauge keeps counting |
| `Multiplexers.Multiplexer.SetDisconnected` | src/client/multiplexer.ts:316-327 | rejects every waiting call in the table and empties table, heap and gauge; all invariants hold again if the table held every waiting call |
| `Multiplexers.Multiplexer.CancelAll` | src/client/multiplexer.ts:776-817 | the loop over the table rejects exactly its waiting calls |
| `Multiplexers.Multiplexer.SetConnected` | src/client/multiplexer.ts:242-245 | a session begins and ids start again at one |
| `Lanes.RingRefinesFifo` | src/client/multiplexer.ts:200-327 | over every run of calls, withdrawals, responses, timeouts, rejected sends and disconnects, each disconnect with at most one call waiting behind a running one: the ring buffer has no hole, holds what a plain queue would, matches responses in order of issue, and its one waiting request is the last |
| `Lanes.DisconnectKeepsOneIff` | src/client/multiplexer.ts:293-327 | a disconnect, which clears the lanes but not the calls chained behind them, keeps the ring in order for whatever the next session brings if and only if no two calls wait behind one running call |
| `Lanes.DisconnectKeepsSoleIff` | src/client/multiplexer.ts:285-327 | it keeps one call in flight at a time, as the lane promises, if and only if no call waits behind a running one |
| `Lanes.ThreeCallsThenDisconnect` | src/client/multiplexer.ts:293-327 | a run of the multiplexer that breaks it: three calls, a disconnect, and a next session without correlation |
| `Lanes.TwoWaitTogether` | src/client/multiplexer.ts:293-327 | with two calls waiting behind a running one, the second and a new call of the next session end up in the ring together |
| `Lanes.NextRunsBesideWaiter` | src/client/multiplexer.ts:293-327 | with one call waiting, it and a new call run at the same time |
| `LaneProgress.NoCallIsForgotten` | src/client/multiplexer.ts:293-327 | in every run, disconnects included, a call made without correlation runs, waits behind one that does, ran until an event settled it, or was withdrawn before its turn |
| `LaneProgress.ChainAdvances` | src/client/multiplexer.ts:293-314 | a chain goes on to the first call that was not withdrawn exactly when an event settles its running call, and otherwise only grows at its end |
| `LaneProgress.ResponseSettlesOldest` | src/client/multiplexer.ts:228-240 | while the ring stays in order, a response settles the chain whose call has waited longest, and no other |
| `LaneProgress.WithdrawnIff` | src/client/multiplexer.ts:299-313 | in every run a call counts as withdrawn exactly if it was withdrawn after it was made |
| `Lanes.StepGood` | src/client/multiplexer.ts:293-327 | one step keeps the chains of promises, the map entry and the ring consistent, a disconnect under that condition |
| `Lanes.LaunchGood` | src/client/multiplexer.ts:293-314 | when a promise settles, the next call that was not withdrawn begins, alone in the ring |
| `Lanes.RespondGood` | src/client/multiplexer.ts:228-240 | a response goes to the oldest request, whose settlement starts the next call, or is swallowed by one given up |
| `Lanes.SendRejectedGood` | src/client/multiplexer.ts:629-667 | a rejected send takes the last request out of the ring, and the next call begins |
| `Lanes.DisconnectGood` | src/client/multiplexer.ts:316-327 | what the ring and the chains are after a disconnect that finds at most one call waiting behind each running one |
| `UncorrelatedLanes.UncorrelatedLane.Request` | src/client/multiplexer.ts:405-418 | a call of a type without correlation waits behind the promise in the map or runs at once, and the invariant of the lane holds again |
| `UncorrelatedLanes.UncorrelatedLane.Dispatch` | src/client/multiplexer.ts:228-240 | a response is matched if and only if a request waits, with the oldest one |
| `UncorrelatedLanes.UncorrelatedLane.Settled` | src/client/multiplexer.ts:293-314 | a timeout, an abort or a correlated answer leaves the slot and lets the next call begin |
| `UncorrelatedLanes.UncorrelatedLane.SendRejected` | src/client/multiplexer.ts:629-667 | a rejected send empties the slot, drops an empty queue and lets the next call begin |
| `UncorrelatedLanes.UncorrelatedLane.SetDisconnected` | src/client/multiplexer.ts:316-327 | the entry and the ring go, the running calls are rejected and the ones behind them start; the invariant survives if at most one waited behind each |
| `UncorrelatedLanes.UncorrelatedLane.Continue` | src/client/multiplexer.ts:299-313 | withdrawn calls are passed over, the next one runs, and an emptied lane leaves the map |
| `RingQueues.EnqueueAppends` | src/client/multiplexer.ts:217-226 | a request is appended, overwriting none, also when the buffer had to grow |
| `RingQueues.GrowDense` | src/client/multiplexer.ts:200-215 | growing keeps the contents and moves the back-pointers along |
| `RingQueues.DequeueTakesFirst` | src/client/multiplexer.ts:228-240 | the first request is taken and the rest stays in order |
| `RingQueues.DequeueFindsFirst` | src/client/multiplexer.ts:228-240 | holes or not, the request taken is the first from the head on, its slot is emptied, and the head goes past it |
| `RingQueues.UnregisterDenseIff` | src/client/multiplexer.ts:629-667 | taking a request out leaves no hole if and only if it is the first or the last |
| `RingQueues.UnregisterLast` | src/client/multiplexer.ts:654-660 | taking out the last leaves the others as they were |
| `RingQueues.UnregisterFirst` | src/client/multiplexer.ts:650-653 | taking out the first of several moves the head to the next |
| `RingQueues.SkipFindsFirst` | src/client/multiplexer.ts:650-653 | holes or not, the head then moves to the first slot that holds a request |
| `RingQueues.HoleLosesFirst` | src/client/multiplexer.ts:629-667 | from a full buffer, a hole in the middle makes the next request overwrite the first one |
| `RingQueues.FirstMatched` | src/client/multiplexer.ts:228-240 | the request taken is the first of the contents, and a queue emptied and made anew goes on in order |
| `RingQueues.LastTakenOut` | src/client/multiplexer.ts:629-667 | taking out the last request leaves the contents without it, and the buffer dense |
| `PendingQueues.PendingQueue.GrowPendingQueue` | src/client/multiplexer.ts:200-215 | the array version of growing |
| `PendingQueues.PendingQueue.MoveInto` | src/client/multiplexer.ts:203-210 | the loop copies the requests in order to the front and points their records there |
| `PendingQueues.PendingQueue.EnqueuePendingRequest` | src/client/multiplexer.ts:217-226 | the array version of enqueueing, with modular indices |
| `PendingQueues.PendingQueue.DequeuePendingRequest` | src/client/multiplexer.ts:228-240 | the array version of dequeueing, skipping empty slots |
| `PendingQueues.PendingQueue.UnregisterRequest` | src/client/multiplexer.ts:629-667 | the array version of taking a request out wherever its back-pointer says |
| `InventoryModel.Agreement` | src/domains/lease/client.ts:809-987 | in every reachable state at rest (connected, subscribed, no notification under way, no pass requested or active) without failed pass since the install, the observer is ready and its view is the broker's set |
| `InventoryModel.ViewIsCurrentIff` | src/domains/lease/client.ts:809-987 | in every reachable state at rest the view shows the present version if and only if no pass failed, since the install, at a version later than the one shown |
| `InventoryModel.StaleByUnrequestedFailure` | src/domains/lease/client.ts:836-889 | a view that is out of date at rest was left so by one step: a pass that threw, with no other asked for, when the broker already was at its present version |
| `InventoryModel.RequestHeals` | src/domains/lease/client.ts:824-835 | whatever happens after a notification, a periodic request, a failed subscription or a reconnect: once the observer is at rest again and no pass failed since, it is ready and shows the broker's set |
| `InventoryHealing.CanHealIff` | src/domains/lease/client.ts:824-987 | in every run, whatever failed or raced before, some continuation brings the observer to rest on what the broker holds if and only if it is neither closed nor aborted |
| `InventoryHealing.RunAtWork` | src/domains/lease/client.ts:932-987 | in every run a started observer without a subscription has a recovery at work unless it is closed or aborted, so a failed resubscription is tried again |
| `InventoryHealing.RequestsAreTakenUp` | src/domains/lease/client.ts:824-835 | in every run a pass that was asked for is under way or follows the one under way, unless none may begin |
| `InventoryModel.RestingView` | src/domains/lease/client.ts:809-987 | the same of any state that keeps the invariant |
| `InventoryModel.RunInvariant` | src/domains/lease/client.ts:824-889 | in every run each change after the view was listed is under way, will be seen by the pass, is requested, was lost to a failed pass, or falls in a period nothing is claimed for |
| `InventoryModel.StepCovered` | src/domains/lease/client.ts:824-889 | one step of broker, observer or connection keeps that |
| `InventoryModel.StepInvariant` | src/domains/lease/client.ts:824-987 | one step keeps the flags consistent and the view equal to the set at the version it was listed |
| `InventoryModel.InstallsAreIsolated` | src/domains/lease/client.ts:836-876 | when a view is installed, no invalidation, subscription failure, resubscription, reconnect or close happened since that pass began |
| `InventoryModel.OnlyInstallsPublish` | src/domains/lease/client.ts:869-876 | the view changes, and ready becomes true, only at an install |
| `InventoryModel.ReadyAgainOnlyByInstall` | src/domains/lease/client.ts:824-835 | after bootstrap, a failed subscription, a reconnect or an abort, the observer is ready only if a view was installed since, in every run |
| `InventoryModel.PassGoesOn` | src/domains/lease/client.ts:836-868 | a pass bound to be discarded stays so until it ends |
| `InventoryModel.FailedPassLeavesStaleView` | src/domains/lease/client.ts:836-889 | a run that reaches it: the observer is ready and at rest with a view that misses a change |
| `InventoryObservers.InventoryObserver.ListReturned` | src/domains/lease/client.ts:842-876 | a LIST that returned is discarded after a close or a gap, repeated after a race and installed otherwise; the account of changes holds again |
| `InventoryObservers.InventoryObserver.ReconcileSettled` | src/domains/lease/client.ts:878-888 | the end of a pass starts the one requested meanwhile, so no request is forgotten |
| `InventoryObservers.InventoryObserver.SubscriptionFailed` | src/domains/lease/client.ts:918-930 | the failure of the subscription declares a gap, asks for a pass and starts a recovery that is not running yet |
| `InventoryObservers.InventoryObserver.Resubscribed` | src/domains/lease/client.ts:942-953 | a new subscription is kept unless closed or aborted, and a pass begins under it |
| `InventoryObservers.InventoryObserver.Reconnected` | src/domains/lease/client.ts:1002-1005 | a reconnect declares a gap and asks for a pass unless closed |
| `InventoryObservers.InventoryObserver.Snapshot` | src/domains/lease/client.ts:1060-1066 | what a caller reads at rest is the broker's set, unless a pass failed at a version later than the one shown |
| `InventoryObservers.InventoryObserver.Bootstrapped` | src/domains/lease/client.ts:986-999 | the first subscription opens a gap that only an install closes |
| `InventoryObservers.InventoryObserver.Invalidated` | src/domains/lease/client.ts:824-835 | a notification asks for a pass, and the change it tells of is under way or seen by that pass |
| `InventoryObservers.InventoryObserver.PeriodicReconcile` | src/domains/lease/client.ts:1018-1040 | the timer asks for a pass without declaring a gap |
| `InventoryObservers.InventoryObserver.ListThrew` | src/domains/lease/client.ts:836-889 | the one step by which a change can be lost: the pass is over and nothing was asked for |
| `InventoryObservers.InventoryObserver.RecoveryPassOver` | src/domains/lease/client.ts:959-968 | a recovery ends exactly when the subscription stands and a view was installed |
| `SubscriptionModel.RunSound` | src/domains/lease/client.ts:555-698 | in every interleaving of calls and answers the two maps are inverse, every active handle has its handler in the live entry, and the entries are exactly what the broker last acknowledged |
| `SubscriptionModel.StepSound` | src/domains/lease/client.ts:555-698 | one call or answer keeps that |
| `SubscriptionModel.ConfirmedEntryIsEmpty` | src/domains/internal/subscription-handle.ts:41-47 | the re-check before an entry is deleted never finds it repopulated |
| `SubscriptionModel.RefuseSound` | src/domains/lease/client.ts:680-687 | a refused UNSUBSCRIBE keeps the entry, lets the handle try again and lets the held-back calls join |
| `SubscriptionModel.ConfirmSound` | src/domains/lease/client.ts:689-697 | a confirmed one removes the entry from both maps and lets the held-back calls subscribe anew |
| `SubscriptionModel.SubscribeAckedSound` | src/domains/lease/client.ts:583-589 | the calls that shared a SUBSCRIBE all register under the acknowledged id |
| `SubscriptionModel.CallIsCounted` | src/domains/lease/client.ts:555-589 | a call of subscribe waits for its route or gets a handler at once: one more, never none |
| `SubscriptionModel.AnswerLosesNoCall` | src/domains/internal/keyed-single-flight.ts:1-16 | every call that shared the request gets a handler of its own |
| `SubscriptionModel.WithdrawalLosesNoCall` | src/domains/internal/subscription-handle.ts:94-102 | no call held back behind an UNSUBSCRIBE is lost, however the broker answers |
| `SubscriptionModel.AddAllAdds` | src/domains/lease/client.ts:621-646 | as many active handles as calls, each with its handler in the entry |
| `SubscriptionModel.NotificationReachesActiveHandles` | src/domains/lease/client.ts:706-722 | a notification reaches every active handle of its route, none of another, and of the inactive ones only those leaving or failed |
| `SubscriptionModel.NoActiveHandleIsForgotten` | src/domains/lease/client.ts:555-698 | a route with an active handle is subscribed at the broker |
| `SubscriptionModel.EndingTakesEffect` | src/domains/internal/subscription-handle.ts:134-148 | in every run an unsubscribe or a failure leaves an active handle inactive: nothing is delivered to it any more if others share the entry, and its UNSUBSCRIBE is under way if it was the last |
| `SubscriptionModel.ConfirmationTakesEffect` | src/domains/lease/client.ts:680-697 | in every run, once its UNSUBSCRIBE is confirmed, nothing is delivered to the handle under any subscription id |
| `SubscriptionModel.InactiveIff` | src/domains/internal/subscription-handle.ts:134-173 | in every run a handle is inactive exactly if it ended since it was made and no refused UNSUBSCRIBE has given it back since |
| `SubscriptionModel.DeliveredUnlessLeft` | src/domains/lease/client.ts:648-722 | in every run notifications are delivered to a handler from the start until it leaves with others in its entry or with a confirmation |
| `SubscriptionModel.RefusalStrandsIff` | src/domains/internal/subscription-handle.ts:162-173 | a refused UNSUBSCRIBE leaves a handler no handle owns if and only if its handle had failed |
| `SubscriptionModel.StrandedIff` | src/domains/internal/subscription-handle.ts:134-173 | in every run, a handler is stranded if and only if some earlier answer refused its UNSUBSCRIBE after its handle had failed |
| `SubscriptionModel.OverflowThenRefusal` | src/domains/internal/subscription-handle.ts:162-173 | a run that strands one: subscribe, overflow, refusal |
| `SubscriptionModel.OnlyRefusalStrands` | src/domains/internal/subscription-handle.ts:134-173 | no other call or answer strands a handler |
| `SubscriptionModel.StuckForGood` | src/domains/internal/subscription-handle.ts:162-173 | such a handler stays, and the broker subscribed, for the rest of the session, whatever happens |
| `LeaseSubscriptions.Subscriptions.AddLocalSubscription` | src/domains/lease/client.ts:621-646 | the handler joins the live entry of its route, or a new entry under the acknowledged id |
| `LeaseSubscriptions.Subscriptions.ResumeSubscribers` | src/domains/lease/client.ts:583-589 | each of the waiting calls gets a handler of its own |
| `LeaseSubscriptions.Subscriptions.Subscribe` | src/domains/lease/client.ts:555-589 | the call waits, joins or sends, and maps, handlers and acknowledgements agree again |
| `LeaseSubscriptions.Subscriptions.SubscribeAcknowledged` | src/domains/lease/client.ts:583-589 | every call that shared the request registers under the acknowledged id |
| `LeaseSubscriptions.Subscriptions.End` | src/domains/internal/subscription-handle.ts:134-173 | an active handle is inactive afterwards, and failed exactly if it ended by failure; its UNSUBSCRIBE is under way if it was the last of its route, and otherwise its handler is gone; no other handle changes |
| `LeaseSubscriptions.Subscriptions.UnsubscribeConfirmed` | src/domains/lease/client.ts:680-697 | the entry leaves both maps with its last handler, and the calls held back subscribe anew |
| `LeaseSubscriptions.Subscriptions.UnsubscribeRefused` | src/domains/internal/subscription-handle.ts:134-151 | the handler stays, its handle may try again unless it failed, and the calls held back join |
| `LeaseSubscriptions.Subscriptions.Recipients` | src/domains/lease/client.ts:706-722 | with the id of a live route all its active handlers, and no active one of another |
| `LeaseModel.HandleRunSound` | src/domains/lease/types.ts:65-125 | whatever is called, answered or dropped: the token is the latest granted one, the handle is closed exactly after a release, a refused renewal or a disconnect, frames obey the discipline, and calls are settled in order |
| `LeaseProgress.CallersAreTold` | src/domains/lease/types.ts:81-125 | in every run the operations sent are the calls that did not fail as invalid, in order; each is told the answer to it; a call fails as invalid only once the lease is over, which a dropped connection always brings about |
| `LeaseModel.FrameBearsLatestToken` | src/domains/lease/types.ts:96-125 | at any point of such a history a RENEW or RELEASE bears the token granted last, and nothing is sent after release, refusal or disconnect |
| `LeaseModel.BeginFaithful` | src/domains/lease/types.ts:81-95 | queued operations on a closed handle fail at once and the next is tried |
| `LeaseModel.AnswerSound` | src/domains/lease/types.ts:96-125 | an answer rotates the token or closes the handle, and the next operation begins |
| `LeaseModel.ResolvesIff` | src/domains/lease/client.ts:389-515 | withLease ends normally if and only if no renewal was refused, the connection was not lost while the callback ran, RELEASE was confirmed, the caller did not abort, and the callback returned or threw undefined |
| `LeaseModel.ThrowHidden` | src/domains/lease/client.ts:453-505 | a run that reaches the odd case: the callback throws undefined, the release is confirmed, and withLease ends normally |
| `LeaseModel.ManagedFramesDisciplined` | src/domains/lease/client.ts:433-472 | its frames obey the same discipline |
| `LeaseProgress.DueRenewalIsSent` | src/domains/lease/client.ts:433-450 | in every run a renewal that is due is sent with the latest token, unless the lease is over, which is then a loss |
| `LeaseProgress.RenewalGoesOnIff` | src/domains/lease/client.ts:433-450 | in every run, while the callback runs, another renewal falls due if and only if the last one was granted and nothing else lost the lease |
| `LeaseProgress.CallbackEndReleases` | src/domains/lease/client.ts:453-472 | in every run the end of the callback releases the lease with the latest token unless it is lost or over; with a renewal under way, only after its answer |
| `LeaseProgress.LastReplyReleases` | src/domains/lease/client.ts:458-472 | the answer to that renewal then releases it |
| `LeaseProgress.HistoryNotes` | src/domains/lease/client.ts:403-431 | in every run the history notes a lost connection and an abort of the caller exactly when they happened while the execution went on |
| `LeaseProgress.RejectionCounts` | src/domains/lease/client.ts:487-505 | in every run a rejection reports the loss, the failure of the callback unless the loss or the caller explains it, and the failed release, and nothing else |
| `LeaseModel.RunAccounted` | src/domains/lease/client.ts:389-515 | in every run loss, abort, callback and release are exactly what the history shows |
| `LeaseModel.WindDownAccounted` | src/domains/lease/client.ts:458-507 | once callback and renewal are over the lease is released unless lost |
| `LeaseModel.ReplyAccounted` | src/domains/lease/client.ts:439-449 | an answer to a renewal or to the release keeps the account |
| `ManagedLeases.Lease.RunNext` | src/domains/lease/types.ts:88-95 | operations on a closed handle fail at once; the first that may be sent is sent with the current token |
| `ManagedLeases.Lease.Serialize` | src/domains/lease/types.ts:88-95 | a call waits behind the ones before it, and the discipline of the frames is kept |
| `ManagedLeases.Lease.Replied` | src/domains/lease/types.ts:96-125 | an answer rotates the token or closes the handle, settles the oldest call, and the next one begins |
| `ManagedLeases.Execution.Finish` | src/domains/lease/client.ts:487-505 | normal end exactly when nothing failed that counts and the caller did not abort |
| `ManagedLeases.Execution.ReleaseUnlessLost` | src/domains/lease/client.ts:462-472 | RELEASE is sent through the serialized handle, or not at all after a loss |
| `ManagedLeases.Execution.RenewalDue` | src/domains/lease/client.ts:433-450 | a renewal is sent if the handle is open, and otherwise counts as a loss; the outcome stays what the history shows |
| `ManagedLeases.Execution.Replied` | src/domains/lease/client.ts:439-505 | an answer to a renewal goes on or ends the lease, one to the release ends the whole |
| `ManagedLeases.Execution.ConnectionLost` | src/domains/lease/client.ts:423-430 | a disconnect closes the handle, and is a loss only while the callback runs |
| `ManagedLeases.Execution.CallbackEnded` | src/domains/lease/client.ts:453-461 | renewal stops and the lease is wound down, at once or after the renewal under way |
| `Routes.GreedyIsRight` | src/domains/_routes.ts:93-128 | for a route without a double-star segment and every pattern the loop returns what the recursive meaning says |
| `Routes.GreedyRightIffRouteHasNoDouble` | src/domains/_routes.ts:93-128 | the loop is right for every pattern if and only if the route has no double-star segment |
| `Routes.GreedyFromIsRight` | src/domains/_routes.ts:110-126 | from any point of the loop: it returns true if and only if the rest matches here or the last double star may absorb more |
| `Routes.DoubleMeans` | src/domains/_routes.ts:116-120 | a double star matches exactly when what follows it matches here or somewhere later |
| `Routes.MatchSegments` | src/domains/_routes.ts:106-127 | the loop with its single backtrack point terminates and returns just that |
| `Routes.SplitJoin` | src/domains/_routes.ts:130-133 | splitting a joined list of segments gives the segments back |
| `Routes.JoinSplit` | src/domains/_routes.ts:130-133 | joining the segments of a string gives the string back |
| `Patterns.IsRegistrationPatternShape` | src/domains/_routes.ts:21-55 | accepts exactly the wire-sized strings under the scheme whose segments are well shaped and whose count fits |
| `Patterns.ScanPattern` | src/domains/_routes.ts:30-50 | the pass over the characters decides the shape of the split segments and counts them |
| `Patterns.ScanConcrete` | src/domains/_routes.ts:150-160 | accepts exactly the paths with the expected number of non-empty segments without asterisk |
| `Patterns.PathStartIff` | src/domains/_routes.ts:135-148 | a route begins at the given place exactly if it fits the wire, something follows there, and either scheme and marker stand before it or, where allowed, it is the beginning and no marker occurs |
| `Patterns.Utf8BytesAreWidths` | src/domains/_routes.ts:169-175 | the size computed on UTF-16 units is the UTF-8 size of the code points, lone surrogates replaced |
| `Patterns.ValidatorIsExact` | src/domains/_routes.ts:21-55 | for n > 0 a string is accepted if and only if it fits the wire, stands under the scheme, is well shaped, and some concrete route of n segments is matched by it |
| `Patterns.ValidatorWithoutCount` | src/domains/_routes.ts:21-55 | without a number of segments the first three decide, and a negative number accepts nothing |
| `Patterns.CountOkIffSomePath` | src/domains/_routes.ts:52-54 | the count test holds if and only if some concrete path of that length matches |
| `Patterns.RouteMatchesMeans` | src/domains/_routes.ts:93-128 | two strings under one scheme match exactly when the glob over their segments does |
| `Patterns.RouteMatchesIff` | src/domains/_routes.ts:93-128 | any two strings match exactly when both have the same scheme, ended by their first marker, and the glob over what follows holds |
| `Patterns.RouteMatchesPattern` | src/domains/_routes.ts:93-128 | the method over whole strings, schemes compared first |
| `Patterns.WireSizeIsValid` | src/domains/_routes.ts:169-175 | the UTF-8 size test |
| `Patterns.FindPathStart` | src/domains/_routes.ts:135-148 | where the path begins, or none |
| `Patterns.ContainsAsterisk` | src/domains/_routes.ts:162-167 | whether a stretch holds an asterisk |
| `RpcSelection.MoreSpecificIsStrictTotalOrder` | src/domains/rpc/client.ts:132-141 | the comparison is irreflexive, transitive and decides any two distinct patterns |
| `RpcSelection.SelectionIsUnique` | src/domains/rpc/client.ts:630-648 | at most one registered pattern can be the selection, so map order is irrelevant |
| `RpcSelection.ScanWorkers` | src/domains/rpc/client.ts:633-643 | the scan in any order picks that one, or none if nothing matches |
| `RpcSelection.SelectWorker` | src/domains/rpc/client.ts:630-648 | the exact key, and otherwise the selection; no registered pattern that matches is finer, segment by segment, than the one taken |
| `RpcSelection.ExactKeyIsBest` | src/domains/rpc/client.ts:630-648 | for a concrete route the exact key is what the full scan would have selected |
| `RpcSelection.RpcPatternSpecificity` | src/domains/rpc/client.ts:117-130 | the four counts |
| `RpcSelection.IsMoreSpecificRpcPattern` | src/domains/rpc/client.ts:132-141 | the counts and then the text compared in the order of the source; what that order means is in the five rows that follow |
| `RpcSelection.FinerIsMoreSpecific` | src/domains/rpc/client.ts:132-141 | a pattern that is as fine segment by segment, and at some place has a literal for a wildcard or a single for a double star, is the more specific one |
| `RpcSelection.OneSegmentDecides` | src/domains/rpc/client.ts:132-141 | with the rest the same, one double star less is more specific, and one literal or single star more |
| `RpcSelection.DoublesThenText` | src/domains/rpc/client.ts:137-140 | with as many literals and single stars, fewer double stars win, and then the smaller text; the lengths compared in between are then equal |
| `RpcSelection.LengthNeverDecides` | src/domains/rpc/client.ts:139-139 | literals, single and double stars add up to the number of segments, so comparing that number never decides |
| `RpcSelection.LessTextIff` | src/domains/rpc/client.ts:140-140 | a text is smaller exactly if it has the smaller code unit at the first difference or is a proper prefix |
| `RpcModel.BuffersAreNotShared` | src/domains/rpc/client.ts:287-447 | in every run no pooled buffer belongs to a pending call or an unsettled cancellation, none is pooled twice, no two of them share one, and the pool is bounded |
| `RpcModel.UncancelledCallDelivers` | src/domains/rpc/iterator.ts:73-160 | of a call not cancelled, frames handed out and buffered are those received, in order; unless it failed with an AbortError its end is told only after all of them |
| `RpcModel.ResponseIsReceived` | src/domains/rpc/client.ts:590-628 | a response to a pending call not cancelled is received |
| `RpcAnswers.NextAnswers` | src/domains/rpc/iterator.ts:127-160 | in every run, for a call not cancelled, next answers with the first frame not yet handed out; once all are, with the end if and only if the stream ended without an error, and with the failure if and only if a terminal error, a failed request or a disconnect ended it with that |
| `RpcAnswers.CancelledAnswers` | src/domains/rpc/iterator.ts:127-160 | in every run a cancelled call answers with what cancelled it |
| `RpcAnswers.EndIff` | src/domains/rpc/client.ts:590-615 | in every run a call ended in a way exactly if some event ended it so while it was open |
| `RpcAnswers.CancelIff` | src/domains/rpc/iterator.ts:53-67 | in every run a call counts as cancelled, with its buffer dropped, exactly if some event cancelled it while it was open |
| `RpcAnswers.NextHandsOver` | src/domains/rpc/iterator.ts:127-160 | in every run next hands over the frame it answers with and nothing else, and a call of it that waits is given the next frame |
| `RpcAnswers.ReaderIsTold` | src/domains/rpc/iterator.ts:88-126 | in every run a reader that waits when its call ends is given the frame that came with the end, or told the end at once, or the failure in a later turn when every frame was handed out |
| `RpcAnswers.OutcomeIff` | src/domains/rpc/client.ts:356-447 | in every run the outcome of a cancellation is what the first event that could decide it decided |
| `RpcModel.CallNextSound` | src/domains/rpc/iterator.ts:127-131 | a call of next that finds its signal aborted cancels first, and the bookkeeping holds |
| `RpcModel.OutcomeIsDecidedOnce` | src/domains/rpc/iterator.ts:29-36 | a cancellation outcome once decided, and a frame once handed out, is never taken back by any later run |
| `RpcModel.CancellationIsTracked` | src/domains/rpc/client.ts:356-447 | a cancellation is undecided exactly while it waits for the request to be written or for its answer; not requested means over and not cancelled |
| `RpcModel.RunSound` | src/domains/rpc/client.ts:287-447 | the bookkeeping of pending calls, cancellations, abandoned ids and pool holds in every run |
| `RpcModel.TakeClean` | src/domains/rpc/codec.ts:41-44 | a buffer taken from the pool is held by no one else |
| `RpcModel.FailPendingSound` | src/domains/rpc/client.ts:298-305 | a disconnect fails every pending call that was not cancelled |
| `RpcCalls.RpcIterator.Push` | src/domains/rpc/iterator.ts:73-86 | a frame goes to the waiting reader or to the buffer, and none is lost or reordered |
| `RpcCalls.RpcIterator.End` | src/domains/rpc/iterator.ts:88-100 | the end comes after every frame received |
| `RpcCalls.RpcIterator.Fail` | src/domains/rpc/iterator.ts:102-126 | the buffer survives; a reader that waits is to be rejected in a later turn |
| `RpcCalls.RpcIterator.RejectReader` | src/domains/rpc/iterator.ts:113-125 | that reader is told the failure, or an AbortError if the signal was aborted meanwhile, when every frame received was handed out |
| `RpcCalls.RpcIterator.Cancel` | src/domains/rpc/iterator.ts:53-67 | a cancellation drops the buffer and tells the waiting reader |
| `RpcCalls.RpcIterator.NextFrame` | src/domains/rpc/iterator.ts:128-170 | an AbortError first, then the buffer, then the failure or the end, else a wait |
| `RpcCalls.RpcClient.CleanupPendingRpc` | src/domains/rpc/client.ts:287-296 | the call is no longer pending, and its buffer is pooled unless it was abandoned or the pool is full |
| `RpcCalls.RpcClient.Start` | src/domains/rpc/client.ts:344-401 | the call has an iterator and a buffer of its own, also when its signal is already aborted; no buffer is shared |
| `RpcCalls.RpcClient.ContinueAbandon` | src/domains/rpc/client.ts:359-371 | a cancellation is decided when the request was not sent or cannot be cancelled, and otherwise waits for its answer |
| `RpcCalls.RpcClient.HandleRpcResponse` | src/domains/rpc/client.ts:590-628 | a response to a pending call ends it exactly if it is the last one, with a failure exactly if it is a terminal error; a frame goes to the reader or the buffer |
| `RpcCalls.RpcClient.CallNext` | src/domains/rpc/iterator.ts:127-170 | next through the client: a signal found aborted cancels the call first |
| `RpcCalls.RpcClient.Cancel` | src/domains/rpc/iterator.ts:53-67 | a cancellation through the client abandons the id and waits to learn whether the request was sent |
| `RpcCalls.RpcClient.RequestFailed` | src/domains/rpc/client.ts:393-399 | a request that cannot be sent fails its call, and decides a cancellation that waited for it |
| `RpcCalls.RpcClient.SettleCancellationResult` | src/domains/rpc/client.ts:435-447 | the outcome of a cancellation is decided once and its buffer given up |
| `RpcCalls.RpcClient.Disconnected` | src/domains/rpc/client.ts:298-316 | every pending call fails through its iterator, every cancellation under way is decided, and nothing is pending |
| `ConnectionModel.CloseIsAbsorbingIff` | src/client/connection.ts:277-333 | after any run, the first close leaves the connection closed for good if and only if it did not find it closed without a transport |
| `ConnectionModel.CloseIsPermanent` | src/client/connection.ts:277-328 | a close that does not return early: closed, no transport, and none created ever again, in every continuation |
| `ConnectionModel.EarlyCloseIsForgotten` | src/client/connection.ts:330-334 | after a close that returned early, no later close takes effect |
| `ConnectionModel.EarlyCloseIsReached` | src/client/connection.ts:277-333 | a run that reaches it: credentials rejected, then close, and the connection can be opened again |
| `ConnectionModel.RejectedConnectIsARun` | src/client/connection.ts:236-275 | connect, dial, rejection and teardown lead to a connection closed with no transport and no close requested |
| `ConnectionModel.RunReasonable` | src/client/connection.ts:277-328 | in every run a requested close means closed and without transport |
| `ConnectionModel.UnrequestedReopens` | src/client/connection.ts:236-275 | a closed connection that nobody asked to close can always be opened again |
| `ConnectionModel.RunTriesBounded` | src/client/internal/reconnect.ts:22-26 | the reconnect loop makes no more attempts than configured |
| `ConnectionModel.RejectedStaysClosed` | src/client/internal/reconnect.ts:43-54 | rejected credentials with nothing else under way are final: without a call of connect no run leaves closed or creates a transport |
| `ConnectionModel.LiveLossClosesIff` | src/client/connection.ts:1030-1089 | in every run the loss of the transport in use closes the connection if and only if credentials were rejected or the broker had sent no frame; otherwise the reconnect loop is at work unless it is disabled or allows no attempt |
| `ConnectionProgress.RetriesIff` | src/client/internal/reconnect.ts:21-63 | in every run, when the teardown of a reconnect attempt ends, the loop backs off for one more try if and only if close was not requested, the failure is neither an abort, a rejection nor a version mismatch, and the tries made are below the maximum; otherwise it ends, exhausted if and only if exactly the maximum was made or the versions do not match |
| `ConnectionProgress.ExhaustedOnlyByMaximum` | src/client/internal/reconnect.ts:21-63 | in every run that is exhausted, some attempt failed at the maximum or on a version mismatch, or a loss found no attempt allowed |
| `ConnectionProgress.UndisturbedConnect` | src/client/connection.ts:236-275 | a call of connect that dials and is disturbed by nothing ends authenticated on its own transport if and only if no negotiated version is held from before |
| `ConnectionProgress.UndisturbedReconnect` | src/client/internal/reconnect.ts:21-38 | the same of a round of the reconnect loop, its restore included |
| `ConnectionProgress.ConnectDialsIff` | src/client/connection.ts:236-275 | a call of connect dials on a new transport exactly when nothing is under way that it could wait for, and otherwise changes nothing |
| `AttemptOverlap.StaleAttemptPredatesSession` | src/client/connection.ts:810-840 | in every run, an attempt under way in an authenticated connection was under way already when the negotiation or the restore of the other one authenticated it |
| `AttemptOverlap.SessionExposedIff` | src/client/connection.ts:768-883 | in every run what is under way can end an authenticated session by itself if and only if a call of connect, a sleeping loop or an attempt that does not restore is still under way |
| `AttemptOverlap.StaleTeardownUndoesReconnect` | src/client/connection.ts:842-883 | a run in which the slow teardown of a lost attempt marks the session of the next one disconnected, with nothing under way to repair it |
| `AttemptOverlap.AlwaysConfirmedIff` | src/client/connection.ts:810-840 | a run keeps every authenticated session and every answered attempt confirmed by a frame if and only if the reconnect loop never dials over an answered attempt |
| `AttemptOverlap.SessionUnconfirmedIff` | src/client/connection.ts:768-779 | an authenticated session had no frame on its transport exactly when that transport was dialed over an answered attempt and nothing was heard since |
| `AttemptOverlap.ConfirmedMeansHeard` | src/client/connection.ts:1139-1150 | in every run the flag is set exactly when a frame came since the last transport was created |
| `AttemptOverlap.StaleSuccessIsUnconfirmed` | src/client/connection.ts:820-822 | a run that does so: the success of a stale attempt authenticates the connection over a transport nothing came from, and answers the HELLO of the newer attempt |
| `HelloAnswers.AnswerableIff` | src/client/connection.ts:797-822 | in every run an attempt that waits for HELLO can still be answered if and only if the outcome in use is its own, and either the transport in use is received from with no earlier version in the way for good, or the other attempt is answered and may yet succeed |
| `HelloAnswers.RunKeepsStranded` | src/client/connection.ts:842-850 | an attempt that cannot be answered never is, whatever happens |
| `HelloAnswers.StaleCatchStrands` | src/client/connection.ts:842-850 | a run in which the catch of a stale attempt drops the outcome and ends the receive loop of a newer one: its HELLO arrives unseen and no loss is reported |
| `Connections.Connection.Connect` | src/client/connection.ts:236-275 | fails, returns, waits or opens, as the state and the flags decide; no connection is opened after an effective close |
| `Connections.Connection.Close` | src/client/connection.ts:330-334 | the first call takes effect unless it finds the connection closed without a transport; later calls change nothing |
| `Connections.Connection.RunClose` | src/client/connection.ts:283-302 | closed for good, the transport dropped, the waiting negotiation rejected |
| `Connections.Connection.Open` | src/client/connection.ts:768-786 | a new transport, an unconfirmed session, and the attempt of the caller |
| `Connections.Connection.TransportConnected` | src/client/connection.ts:789-809 | the attempt waits for HELLO on the shared outcome, unless close or a rejection came first |
| `Connections.Connection.SessionNegotiated` | src/client/connection.ts:810-840 | the outcome in use is resolved, be it that of a newer attempt; then the session is restored or authenticated |
| `Connections.Connection.Fail` | src/client/connection.ts:842-852 | what the teardown must remember is taken before its await |
| `Connections.Connection.TransportTornDown` | src/client/connection.ts:853-883 | the teardown marks the connection down whatever transport is in use, and counts an unconfirmed session as rejected |
| `Connections.Connection.ReconnectFailed` | src/client/internal/reconnect.ts:38-61 | the loop sleeps for one more try exactly if close was not requested, the failure is an ordinary one and tries are left; otherwise it ends |
| `Connections.Connection.NextRound` | src/client/internal/reconnect.ts:21-32 | a round within the configured number, or the end: closed after close, else disconnected for good |
| `Connections.Connection.HandleConnectionLoss` | src/client/connection.ts:1030-1089 | only the loss of the transport in use counts; it closes, or ends the session and starts the loop |
| `Connections.Connection.RejectReceived` | src/client/connection.ts:961-979 | a rejection confirms the session, is remembered, and fails the negotiation that waits |
| `Connections.Connection.HelloReceived` | src/client/connection.ts:922-958 | a HELLO confirms the session and answers the attempt that waits; a second one is a protocol error and a loss |
| `Connections.Connection.ReceiveLoopEnds` | src/client/connection.ts:905-1012 | the receive loop returns: silently when its flag is set or close was requested, otherwise with the loss of its transport |
| `Connections.Connection.SubscriptionsRestored` | src/client/connection.ts:822-840 | a restored session is authenticated, unless close came first |
| `SessionRequests.AlwaysOrderlyIff` | src/client/connection.ts:336-356 | for every run of the connection: no connect of the multiplexer ever finds a request waiting, whatever requests are made, if and only if none follows a moment at which requests pass the readiness check without a disconnect in between |
| `SessionRequests.RequestsStayReachable` | src/client/connection.ts:822-840 | in such a run every waiting request is reached by its own id and a disconnect settles all of them |
| `SessionRequests.ResolvedInItsSession` | src/client/connection.ts:822-840 | in such a run a request is resolved only by a frame of the session it was issued in |
| `SessionRequests.StaleSuccessConnectsTwice` | src/client/connection.ts:822-840 | a run that breaks it: a stale success connects, requests pass, and the newer attempt connects again |
| `TcpTransports.FramesSurviveAnyChunking` | src/transport/tcp.ts:81-139 | frames within the limits, encoded, labelled, cut into any messages, prefixed and cut into any chunks come out of reassembly and parsing exactly as they were |
| `TcpTransports.WholeFramesSurvive` | src/transport/tcp.ts:271-278 | the same for frames sent as the client sends them, one message each |
| `TcpTransports.ChunkingIsIrrelevant` | src/transport/tcp.ts:81-130 | how the stream is cut into chunks makes no difference |
| `TcpTransports.MessagesArrive` | src/transport/tcp.ts:271-278 | messages within the limit arrive as sent, empty ones included |
| `TcpTransports.OversizedDestroys` | src/transport/tcp.ts:97-107 | an oversized length destroys the socket and nothing after it is delivered |
| `TcpTransports.FeedPrefixEnd` | src/transport/tcp.ts:94-127 | the byte that completes a prefix destroys, delivers an empty message or goes on |
| `TcpTransports.FeedMessageEnd` | src/transport/tcp.ts:113-127 | the byte that completes a message delivers it |
| `TcpTransports.TcpReassembler.HandleData` | src/transport/tcp.ts:81-130 | the loop over a chunk does what feeding its bytes one by one would |
| `TcpTransports.TcpReassembler.ReadLength` | src/transport/tcp.ts:85-111 | the part that fills the length buffer |
| `TcpTransports.TcpReassembler.ReadMessage` | src/transport/tcp.ts:113-127 | the part that fills the message buffer |
| `TcpTransports.TcpReassembler.EnqueueMessage` | src/transport/tcp.ts:132-139 | a message goes to the waiting receiver or to the queue, in order |
| `TcpTransports.TcpReassembler.Receive` | src/transport/tcp.ts:352-376 | the oldest message; the error that ended the connection only once none is left; a wait only while connected |
| `TcpTransports.TcpReassembler.FailReceive` | src/transport/tcp.ts:141-154 | the first error wins and rejects the waiting receiver, while what was received stays to be handed out |
| `Frames.DecodeEncoded` | src/frame/codec.ts:54-114 | what was encoded is decoded again |
| `Frames.DecodedIsEncoded` | src/frame/codec.ts:87-114 | decoding accepts nothing but encodings of sendable frames within the limit |
| `Frames.WireLayout` | src/frame/codec.ts:71-85 | where each field of a frame stands on the wire, the most significant byte first |
| `Frames.LabelledFrame` | src/frame/codec.ts:116-126 | labelling sets the correlation and nothing else |
| `Frames.LabelledIff` | src/frame/codec.ts:116-126 | labelling succeeds exactly for a correlation that is not zero and fits, on a frame with a whole header, and writes its eight bytes only |
| `Frames.EncodeFrame` | src/frame/codec.ts:54-85 | encoding succeeds exactly for sendable frames |
| `Frames.ParserJoinsPieces` | src/frame/codec.ts:196-226 | however one frame is cut into pieces, the parser returns it once |
| `Frames.FramesParsed` | src/frame/codec.ts:196-226 | a sequence of cut frames is returned in order, with nothing left over |
| `Frames.ParsedIff` | src/frame/codec.ts:196-226 | whatever the bytes, the parser returns a frame if and only if they are its encoding within the limit, waits if and only if too few came for the length they declare, and keeps what it waits with |
| `Frames.FrameParser.ParseFrames` | src/frame/codec.ts:196-226 | the parser object does what the function says |
| `BigEndian.ToFrom` | src/frame/codec.ts:78-84 | an unsigned value that fits is read back |
| `BigEndian.FromTo` | src/frame/codec.ts:91-97 | bytes read are written again |
| `BigEndian.HighByteFirst` | src/frame/codec.ts:78-84 | the first byte counts most |
| `Extensions.HelloRoundTrip` | src/frame/extensions.ts:8-92 | a HELLO with its capability list anywhere among further fields gives back core and capability ids |
| `Extensions.BlockRoundTrip` | src/frame/extensions.ts:26-92 | decoding an encoded non-empty list of fields gives the core and what the fields mean |
| `Extensions.AcceptedPayload` | src/frame/extensions.ts:49-92 | whatever the bytes, only encodings of a core and non-empty valid fields are accepted, and the ids returned are strictly ascending and not zero |
| `Extensions.AcceptedIff` | src/frame/extensions.ts:49-92 | whatever the bytes, a payload is accepted as core and ids if and only if it is the encoding of that core and some valid fields of which, in a HELLO, exactly one is a capability list, that of these ids |
| `Extensions.AcceptedIsProducedIff` | src/frame/extensions.ts:26-92 | of the payloads the decoder accepts, the encoder produces exactly those whose ids ascend in a block that fits |
| `Extensions.ProducedIff` | src/frame/extensions.ts:26-47 | a block over valid fields is one the encoder can produce if and only if its own ids ascend and it fits |
| `Extensions.OutOfOrderAccepted` | src/frame/extensions.ts:62-92 | a HELLO accepted although its ids do not ascend, which the encoder cannot produce |
| `Extensions.CapabilitiesRoundTrip` | src/frame/extensions.ts:8-24 | a capability list is read back |
| `Extensions.AcceptedCapabilities` | src/frame/extensions.ts:72-86 | only a valid list, written as it would be, is accepted |
| `Extensions.AcceptedFields` | src/frame/extensions.ts:64-88 | bytes accepted as fields are what writing them gives |
| `Extensions.ScanMeans` | src/frame/extensions.ts:62-91 | the pass over the fields finds nothing, the one good list or a fault |
| `Extensions.EncodeCapabilities` | src/frame/extensions.ts:8-24 | succeeds exactly for ascending non-zero ids |
| `Extensions.EncodeExtensions` | src/frame/extensions.ts:26-47 | succeeds exactly for ascending ids in a block that fits, and returns the core alone without fields |
| `Extensions.ReadCapabilities` | src/frame/extensions.ts:70-86 | the loop over one list |
| `Extensions.DecodeExtensions` | src/frame/extensions.ts:49-92 | the loop over the payload terminates in bounds and decodes as specified |
| `Extensions.ScanField` | src/frame/extensions.ts:62-88 | one round of the loop |
| `KvScan.ScanAll` | src/domains/kv/transaction.ts:231-253 | whatever page sizes the broker picks the scan ends; with no empty page it yields exactly the range in order, and otherwise fails after a prefix of it |
| `KvScan.RangeExactly` | src/domains/kv/types.ts:26-40 | that order holds every entry of the range once and no other, sorted in the direction of the scan |
| `KvScan.ResumeAfterPage` | src/domains/kv/transaction.ts:250-252 | resuming strictly after the last key leaves exactly what the page did not have |
| `KvScan.CompareKeys` | src/domains/kv/transaction.ts:101-109 | negative, zero or positive exactly as the keys are before, equal or after |
| `KvScan.LessIsTotal` | src/domains/kv/transaction.ts:101-109 | any two different keys are ordered one way |
| `KvScan.LessIsTransitive` | src/domains/kv/transaction.ts:101-109 | the order is transitive |
| `KvScan.LessIff` | src/domains/kv/transaction.ts:101-109 | a key is before another exactly if it is a proper prefix or has the smaller byte at the first difference |
| `KvScan.InRangeIff` | src/domains/kv/types.ts:26-40 | the range begins at its start, unless that is excluded, and ends strictly before its end, in the direction of the scan |

## Left out

- Multiplexer: the promise and the discard mark of a request are kept in sequences indexed by the request rather than in its record, so aliasing of those two is not modelled; deadline and back-pointers are fields of heap objects.
- Multiplexers.Multiplexer.SetDisconnected: keeps the link between heap and waiting calls only if every waiting call is in the table, which holds in every run in which each connect finds no call waiting; otherwise the code drops the entry of a call that still waits.
- Multiplexers.Multiplexer.CancelAll: rejects what is in the table of correlations; the ring buffers of the same loop are in `UncorrelatedLanes.UncorrelatedLane.SetDisconnected`, and optional responses and capabilities are not modelled.
- MuxModel.RunCovered: claims nothing for runs in which a connect finds a call waiting; `MuxModel.ConnectSafeIffNoneLive` says why, and `SessionRequests.AlwaysOrderlyIff` which runs of the connection those are.
- SessionRequests.AlwaysOrderlyIff: a request is issued where it passes the readiness check; one that then waits for a slot of the request gate reaches the multiplexer later, which is not modelled.
- Lanes.RingRefinesFifo: says which request a response is matched with on the uncorrelated path, not that the broker meant that one, which the code cannot decide; claims nothing once a disconnect found two calls waiting behind a running one.
- UncorrelatedLanes.UncorrelatedLane.Withdraw: stands for a signal that is aborted before its call begins, which the call then finds; timers and deadlines of this path are those of the correlated one and are not repeated.
- PendingQueues.PendingQueue.UnregisterRequest: deleting the emptied queue is in `UncorrelatedLanes.UncorrelatedLane.DropIfEmpty`; the gauge is not part of this path.
- PendingQueues.PendingQueue.DequeuePendingRequest: the loops over empty slots carry an explicit bound, the capacity, which the source leaves implicit.
- InventoryModel.Agreement: covers connected periods and reconnects whose restored subscription was acknowledged; the observer's reconnect listener issues requests before the connection is authenticated, so no liveness is claimed.
- InventoryObservers: LIST is a snapshot taken at its first page, as the API documents; paging within one LIST, the retry delays and the update handlers are not modelled.
- SubscriptionModel.RunSound: stays within one session, with explicit answers and subscription ids not in use; restoring after a reconnect and signals already aborted at subscribe time are not covered, where the code does not keep the invariants.
- LeaseSubscriptions: an entry is a value in the map, not an object shared by reference; within one session the entry of a route is replaced only by deleting it first.
- LeaseModel.HandleRunSound: a frame counts as sent when it is handed to the connection, which may still wait for readiness before writing it; expiry times are not modelled.
- LeaseModel.ResolvesIff: begins with the lease acquired; waiting for an acquisition and pushes for abandoned waiters carry no correlation and are not modelled.
- RpcModel.BuffersAreNotShared: fresh correlation keys are assumed distinct, so a call's position stands for its key.
- RpcCalls.RpcClient.Disconnected: the invocations of workers, which the same handler aborts, are not part of this model.
- RpcCalls.RpcIterator.NextFrame: a second concurrent call of next replaces the first, as in the source; the check of the signal before it is in `RpcCalls.RpcClient.CallNext`.
- HelloAnswers.AnswerableIff: a loss reported by a send, the heartbeat or the partial-frame timer may come at any time, without the checks of the state these make first.
- ConnectionModel: the two flags that close sets together are one; a state that is left again before the next await is not a step of its own; request gate, heartbeat, partial-frame timer and telemetry are not modelled.
- TcpTransports.TcpReassembler.HandleData: is called only while the socket is not destroyed, since a destroyed socket delivers no data; drain and the timers of the socket are foreign I/O.
- Extensions.DecodeExtensions: all codec errors are one.
- KvScan.ScanAll: the broker is a function that returns a prefix of what remains with a truthful flag; retries, transport errors and closing the handle are not modelled.
- Worker side of RPC (invocations, response writers, backpressure), stream selectors, other domains' codecs, request gate, async dispatcher, backoff: they would add only easy members.
- WebSocket transports, metrics, tracing, logging, error texts, real time, jitter and randomness: no bearing on the properties; where time or chance decides, the event or a parameter does.
- UTF-8: strings are sequences of UTF-16 code units; only the encoded length is modelled.
