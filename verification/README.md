# Event and action pipeline: a verified model

The daemon keeps one websocket connection to a coding agent. A single ingress task numbers and
processes every frame, many consumers read what it publishes through bounded buffers, and control
actions travel the other way through a command queue that survives disconnects. This project models
that pipeline in Dafny and proves what its parts promise each other: that a lagging consumer is never
left behind silently, that an action is written at most once and its outcome is true, that the two
tables behind a subscription agree, that pruning forgets nothing that matters, and that the bounded
event store accounts for every byte and every event it gave up.

Check the whole project with `dafny verify dfyconfig.toml`.

## How it is built

| file | component | form |
|---|---|---|
| `Protocol.dfy` | frames, numbered events, planes (`src/protocol`) | values and functions |
| `Reduction.dfy` | reducer, replay log, waiters (`src/reducer`) | class `Reducer`, proved against functions on values |
| `Storage.dfy` | bounded event store (`src/store`) | class `EventStore` with its full history as ghost state |
| `Streaming.dfy` | broadcast rings and the two streams (`src/streaming`) | classes `Broadcast`, `EventHub`, `LifecycleStream`, `DeltaStream` |
| `Pipeline.dfy` | the ingress task interleaved with everyone else (`src/ingest` lines 90-111) | state machine, and class `AuthoritativeIngress` |
| `Transport.dfy` | requests and the connection loop (`src/transport`) | state machine, and class `ConnectionLoop` that refines it |
| `Ingestion.dfy` | concurrent `discover` tasks and paged reconciliation (`src/ingest`) | state machine, and class `ThreadIngestor` |
| `Control.dfy` | `interrupt`, `start`, `steer` (`src/control`) | outcome functions, and class `Controller` |
| `Runs.dfy`, `Sequences.dfy` | runs of a state machine; filters and tails | functions and lemmas |

Each section the code runs under one lock, and each wait, is one step of a state machine. A run is a
finite sequence of steps; a step that is not enabled changes nothing. So "for every run" below means:
for every interleaving of every number of tasks, frames, disconnects, timeouts and dropped futures.
The classes follow the code's own loops and fields; their methods are proved against the functions
that the state machines are made of.

What the code leaves to chance is left open. Which over-cap thread a `HashMap` yields first, which
branch a `select` takes, what a peer sends and when a timer fires are arbitrary choices: steps of a
run, entries of a schedule, or (for a method that waits for answers) a function that gives the n-th
answer.

## What turned out false, and when exactly

- **A dropped `recv` loses events.** A lag report moves the ring position before the cursor. If the
  future is dropped between the two, the next `recv` can return an event and pass over what the ring
  had overwritten. `DroppedRecvLosesSilently` gives the loss for any consumer, `DroppedCallLosesInRun` a
  run of the whole pipeline that ends in it; `DroppedRecvIsHarmlessIff` says exactly
  when there is none, in terms of the highest number among the items the consumer holds.
  `NoSilentLifecycleLoss` names the stretches skipped in this way as the only exception, and
  `PatientConsumerMissesNothing` has no exception at all.
- **A refused replay is not always a loss.** Delta frames use up sequence numbers too, so
  `GapTooOld` can be returned although the log still holds everything (`RefusalWithoutLoss`).
  `RefusalsAreHonestIff` says exactly when every refusal means a loss: no number lies unused between
  the newest forgotten event and the oldest retained one.
- **A subscribing thread is not always protected from eviction.** The table says failed before the
  reducer is told, so a second task can begin in between and lose its mark to the first task's late
  cancel. `ProtectedUnlessOvertaken` is the exact condition, `LateCancelUnprotects` a run that does it.
  The tables agree in the end all the same (`TablesAgree`).
- **An active turn does not imply status "active".** `OtherCompletionLeavesTurn` is a history that
  breaks it. `StatusFollowsTurnIff` says for every history when it holds: the last status written to
  the thread was "active".
- **An all-threads query hides losses.** It reports only the gap of events without a thread
  (`UnkeyedQueryHidesLoss`). `QueryIsCompleteIff` says exactly when a query is complete: no lost event
  matches it; the all-inclusive one is the whole history exactly when no key has lost anything
  (`UnkeyedQueryCompleteIffNoLoss`).
- **A bound on reconciliation skips threads for good, and so does a failing page.** The watermark
  advances to the newest listed timestamp even when a bound stopped the pass, and a pass that runs into
  a failing page takes nothing at all. `PassFindsAllIff` says exactly when a pass finds every fresh
  thread, and `EverTakenIff` which threads any later pass over the same listing ever takes: those whose
  place is within both bounds, provided the first pass does not fail. `BoundsSkipForGood` shows a
  skipped thread for each bound, `FailingPageSkipsForGood` one for a failing page.
- **A thread over its own cap can cost another thread its events.** When it has no delta left the cap
  loop falls back to the oldest event of the whole store. `BystanderEvictedIff` says exactly when that
  is someone else's, and `BystanderIsEvicted` is a run in which it is.
- **The age window is not exact.** Anchors are stamped from the store's own clock
  (`src/store/src/lib.rs` line 98) and wire events from the transport's, so the recorded clock
  readings can run backwards, and ageing stops at the first event that is young enough.
  `AnchorOutlivesWindow` is a run that keeps an event outside the window. `AgeOutIsExactIff` says exactly
  when ageing leaves nothing outside, `RecordIsInWindowIff` the same of a whole `record`, and
  `StoreStaysInWindow` bounds every run by the amount the recorded readings ran backwards.
- **An interrupt is confirmed by any completion.** The design document speaks of a turn that was seen
  to end interrupted (`openspec/changes/codex-control-daemon/design.md` lines 127-128); the waiter
  ignores the status (`src/control/src/lib.rs` lines 121-125). `CompletedTurnConfirms` is a run in which
  a turn that completed by itself confirms the interrupt, and `ConfirmedMeansInterruptedIff` says exactly
  when a confirmation means that the turn was interrupted. The model follows the code.

## Model

| member | source | states |
|---|---|---|
| Pipeline.NoSilentLifecycleLoss | src/streaming/src/lib.rs:72-101 | In every interleaving, for every consumer, an event published after it subscribed, numbered above its starting point and behind its ring position, was handed to it, is covered by a gap report, or was skipped by a call it dropped itself. |
| Pipeline.PatientConsumerMissesNothing | src/streaming/src/lib.rs:72-101 | For a consumer that never drops a call the last case cannot occur. |
| Streaming.PollMissesNothing | src/streaming/src/lib.rs:73-77 | A ring receive keeps the no-loss invariant: nothing within the consumer's reach is missing, and what a lag skipped is still above the cursor. |
| Streaming.LogMissesNothing | src/streaming/src/lib.rs:78-84 | Reading the log after a lag covers everything logged above the cursor, or is refused and leaves the recovery to the snapshot. |
| Streaming.SnapshotMissesNothing | src/streaming/src/lib.rs:85-96 | Returning a gap report covers everything numbered up to the snapshot and moves the cursor there without losing anything. |
| Streaming.DroppedRecvLosesSilently | src/streaming/src/lib.rs:72-101 | Dropping the future between the lag report and the recovery makes the next call pass over an event that nothing handed out or reported. |
| Pipeline.DroppedCallLosesInRun | src/streaming/src/lib.rs:72-101 | A run of the whole pipeline in which a consumer loses an event this way. |
| Streaming.DroppedRecvIsHarmlessIff | src/streaming/src/lib.rs:72-101 | Such a drop loses nothing if and only if the ring laps the consumer again first, or the newest event it had overwritten is at or below the highest number the consumer was handed or told of. |
| Streaming.DropMissesNothing | src/streaming/src/lib.rs:72-101 | A dropped call costs at most the stretch of the ring that its lag report took the consumer past. |
| Streaming.LifecycleStream.Recv | src/streaming/src/lib.rs:72-101 | One `recv` is the poll, log and snapshot steps in sequence and returns exactly the item they add. |
| Streaming.RecvReturns | src/streaming/src/lib.rs:72-101 | In every case what one call returns and where it leaves ring position and cursor. |
| Streaming.KeepingUpDeliversAll | src/streaming/src/lib.rs:73-77 | A consumer that keeps up is handed the stream itself, each event once and in order. |
| Streaming.EventHub.Publish | src/streaming/src/lib.rs:21-30 | An event goes to the ring of its plane and to no other. |
| Streaming.Broadcast.Send | src/streaming/src/lib.rs:15-30 | The ring keeps the newest events up to its capacity and overwrites the oldest. |
| Streaming.DeltaStream.Recv | src/streaming/src/lib.rs:110-118 | Returns the oldest delta still held, counts exactly the overwritten ones in between as dropped, tells waiting from the end of the stream, and terminates. |
| Streaming.DeltaStepConserves | src/streaming/src/lib.rs:110-118 | A turn of the delta loop keeps taken + dropped + unread equal to what was published since the subscription. |
| Pipeline.DeltasAreConserved | src/streaming/src/lib.rs:109-123 | Delta conservation in every interleaving, and an event that was not taken had been overwritten. |
| Pipeline.AuthorityBeforeFanOut | src/ingest/src/lib.rs:99-104 | Whatever is published has already been folded into the state, shown to every waiter, given to the store and logged. |
| Pipeline.GapReportIsTrueState | src/streaming/src/lib.rs:85-96 | A gap report carries one state the reducer really had, after a prefix of its operations, right about every thread at once. |
| Pipeline.ReplaysAreExact | src/streaming/src/lib.rs:78-84 | In every interleaving each replay is every lifecycle event above the consumer's cursor at that moment among the first n of the history. |
| Pipeline.GapReportNamesOldest | src/streaming/src/lib.rs:85-96 | The oldest number a gap report names is that of an event of the history, and not the one right after the cursor. |
| Pipeline.StateHasMaxSequence | src/reducer/src/lib.rs:74 | The snapshot's sequence is the highest number among the folded events. |
| Pipeline.NextKeepsInv | src/ingest/src/lib.rs:99-111 | Every step of ingress, consumers and neighbours keeps the whole pipeline invariant. |
| Pipeline.WaiterHoldsFirstMatch | src/reducer/src/lib.rs:142-172 | In every interleaving a waiter holds exactly the first matching event applied since its registration, or nothing. |
| Pipeline.ReceivedEventsFlowThrough | src/ingest/src/lib.rs:99-111 | In every interleaving fed by any transport run each received event is taken, none is refused, each was read off the socket and speaks for its frame, and between events all are logged, shown to waiters, stored and published. |
| Pipeline.NoOfferIsRefused | src/ingest/src/lib.rs:106-110 | The receipt numbering meets the strict order the pipeline needs: the history is exactly the events offered. |
| Protocol.FromFrameSpeaks | src/protocol/src/lib.rs:149-166 | An event says of its frame what the frame says: method, thread, turn, time of emission, and the delta plane exactly for the methods that name it. |
| Protocol.AnchorIsMarked | src/protocol/src/lib.rs:171-198 | An anchor names its thread and turn, is on the lifecycle plane, and is marked as reconstructed. |
| Pipeline.AuthoritativeIngress.Process | src/ingest/src/lib.rs:100-104 | One event takes state, log, waiters, store and the ring of its plane to the states their specifications give. |
| Reduction.PruningRefinesReference | src/reducer/src/lib.rs:71-132 | After any history the pruned map, with absent read as "no turn, not subscribed", agrees with a reducer that never forgets, and holds exactly the relevant threads and those a reconciliation left. |
| Reduction.EntriesAreExact | src/reducer/src/lib.rs:71-132 | After any history every field of every entry is what the reference and the writes since the entry's creation say: status, turn, subscription, last sequence, raw thread and ephemeral flag. |
| Protocol.InFlightTurnIsLast | src/reducer/src/lib.rs:305-320 | The turn a read shows in flight is the last one that is not completed, failed or interrupted. |
| Protocol.NoneInFlight | src/reducer/src/lib.rs:305-320 | There is none when all of them are. |
| Reduction.NothingLingersWithoutReconcile | src/reducer/src/lib.rs:224-284 | Without `reconcile_thread` nothing irrelevant is ever left in the map. |
| Reduction.StateIsBounded | src/reducer/src/lib.rs:269-284 | Without `reconcile_thread`, or right after `evict_idle`, the keys are exactly the threads subscribed, with an active turn, or subscribing. |
| Reduction.StatusIsLastWritten | src/reducer/src/lib.rs:86-126 | After any history the status of a thread with an active turn is the last one written to it, whatever pruning went on in between. |
| Reduction.StatusFollowsTurnIff | src/reducer/src/lib.rs:86-126 | After any history a thread with an active turn has status "active" if and only if that was the last status written to it. |
| Reduction.OtherCompletionLeavesTurn | src/reducer/src/lib.rs:116-123 | A history that leaves an active turn behind under status "idle". |
| Reduction.LogKeepsLastLifecycle | src/reducer/src/lib.rs:134-140 | The log is always the last `capacity` lifecycle events of the whole history. |
| Reduction.ReplayIsExact | src/reducer/src/lib.rs:182-199 | When a request is not refused, the answer is every lifecycle event ever applied above it, in order. |
| Reduction.NothingLostIff | src/reducer/src/lib.rs:182-199 | The log still holds everything above a number if and only if the newest forgotten event is not above it. |
| Reduction.RefusalsAreHonestIff | src/reducer/src/lib.rs:182-199 | Every refusal means a loss if and only if no number lies unused between the newest forgotten event and the oldest retained one. |
| Reduction.RefusalWithoutLoss | src/reducer/src/lib.rs:185-192 | A history in which a delta frame used up a number, so that a replay is refused although nothing was lost. |
| Reduction.RefusalMeansLossWithoutDeltas | src/reducer/src/lib.rs:185-192 | When the lifecycle numbers have no holes, a refusal means a loss and a loss means a refusal. |
| Reduction.WaiterGetsFirstMatch | src/reducer/src/lib.rs:142-172 | A registered waiter receives the first matching event, once, and stays open exactly as long as there is none. |
| Reduction.FirstMatchIsFirst | src/reducer/src/lib.rs:142-172 | The first match of a run is at or before any given match, and is that one when nothing matches earlier. |
| Reduction.SwapRemoveTakesOne | src/reducer/src/lib.rs:148 | `swap_remove` takes exactly the chosen element out of the multiset of waiters. |
| Reduction.TakeMatching | src/reducer/src/lib.rs:142-153 | The swap-remove loop splits the waiters, as a multiset, into those the event satisfies and those it does not. |
| Reduction.Update | src/reducer/src/lib.rs:86-126 | The field updates of `apply` compute the specified next thread record, for every method. |
| Reduction.Reducer.FoldState | src/reducer/src/lib.rs:72-132 | The state section of `apply` performs the specified fold, with its inline pruning. |
| Reduction.Reducer.RetainLifecycle | src/reducer/src/lib.rs:134-140 | The log section appends a lifecycle event and keeps the last `capacity` of them. |
| Reduction.Reducer.NotifyWaiters | src/reducer/src/lib.rs:142-156 | The waiter section fires exactly the open waiters the event satisfies. |
| Reduction.Reducer.Apply | src/reducer/src/lib.rs:71-157 | One `apply` does all three, and each part sees the state the specification says. |
| Reduction.Reducer.RegisterWaiter | src/reducer/src/lib.rs:159-172 | Opens one new waiter with a fresh id and touches no other. |
| Reduction.Reducer.EventsSince | src/reducer/src/lib.rs:182-199 | Answers with the retained events above a number, or with the snapshot and the oldest available number. |
| Reduction.Reducer.SetSubscribed | src/reducer/src/lib.rs:201-219 | Setting finishes a subscription; clearing drops the pending mark and prunes an irrelevant thread. |
| Reduction.Reducer.Begin | src/reducer/src/lib.rs:224-236 | Marks the thread pending and creates its entry if there is none. |
| Reduction.Reducer.Finish | src/reducer/src/lib.rs:240-253 | Ends the pending mark and leaves a subscribed entry even if it had been pruned. |
| Reduction.Reducer.Cancel | src/reducer/src/lib.rs:256-267 | Ends the pending mark and prunes the entry if nothing else keeps it. |
| Reduction.Reducer.EvictIdleThreads | src/reducer/src/lib.rs:271-280 | Keeps exactly the pending and relevant threads, and returns how many it dropped. |
| Reduction.Reducer.ReconcileRead | src/reducer/src/lib.rs:288-349 | Replaces the record with the read one, keeps the subscribed flag and invents no sequence number. |
| Storage.RemoveIsExact | src/store/src/lib.rs:150-170 | Removing an event never saturates a subtraction and keeps both byte ledgers exact. |
| Storage.EvictionEnabled | src/store/src/lib.rs:126-147 | While a cap is exceeded there is an event to evict, so the eviction loop terminates. |
| Storage.RecordKeepsLedgersAndCaps | src/store/src/lib.rs:106-148 | After every `record` both ledgers equal the sums of what is retained, and neither the store nor any thread retains more than its cap. |
| Storage.OnlyRecordedKeyIsOver | src/store/src/lib.rs:126-130 | Only the thread just recorded can be over its cap, so the map's iteration order cannot matter. |
| Storage.EvictOverReachesCaps | src/store/src/lib.rs:126-147 | The eviction loop ends with exact ledgers within both caps. |
| Storage.EvictionTurns | src/store/src/lib.rs:126-147 | The loop reaches its result by turns that each start from a state over some cap, and a turn evicts a lifecycle event only when the over-cap thread, or the whole store if only the global cap is exceeded, holds no delta. |
| Storage.PolicyDecidesEviction | src/store/src/lib.rs:126-147 | Any sequence of turns that follows this policy until no cap is exceeded has the same result. |
| Storage.BystanderEvictedIff | src/store/src/lib.rs:131-145 | An eviction for a thread over its own cap takes another key's event if and only if that thread has no delta and the oldest event is not its own. |
| Storage.BystanderIsEvicted | src/store/src/lib.rs:131-145 | For any caps and sizes, a run in which a thread within its cap loses its only event to another thread's, the store as a whole never being over its cap. |
| Storage.RecordKeepsWindow | src/store/src/lib.rs:116-125 | Everything retained lies within `retention` of the event just recorded, up to the skew of the clock readings in the queue. |
| Storage.AgeOutIsExactIff | src/store/src/lib.rs:117-125 | Ageing leaves nothing outside the window if and only if no event that is too old stands behind one that is not. |
| Storage.RecordIsInWindowIff | src/store/src/lib.rs:106-148 | A `record` leaves nothing outside the window when the events too old stand first, and, unless the cap loop evicts, only then. |
| Storage.AnchorOutlivesWindow | src/store/src/lib.rs:79-125 | A run that keeps an anchor outside the window, because it was stamped behind a wire event that is still young enough. |
| Storage.StoreStaysInWindow | src/store/src/lib.rs:116-125 | Over any run of records, anchors and sweeps the same holds with the skew of the whole history, which is 0 when its clock readings never run backwards. |
| Storage.RecordIsFaithful | src/store/src/lib.rs:106-170 | Per key and plane the store holds the newest recorded events, the gap counts the rest, and queries are complete above the reported gap. |
| Storage.RemoveIsComplete | src/store/src/lib.rs:159-170 | Removing an event keeps every query complete above the floor its widened gap reports. |
| Storage.StoreConserves | src/store/src/lib.rs:150-170 | Over any run, recorded deltas and lifecycle events of a key are those retained plus those counted in its gap. |
| Storage.GapNamesNewestLost | src/store/src/lib.rs:159-163 | Over any run a key has a gap if and only if it has lost an event, and the gap names the highest number it has lost. |
| Storage.SweepRemovesIdleDeltas | src/store/src/lib.rs:220-234 | The idle sweep removes exactly the deltas of the named threads and keeps the rest in order. |
| Storage.SweepMembers | src/store/src/lib.rs:220-234 | What leaves is exactly the deltas of the named threads. |
| Storage.SweepCountsLosses | src/store/src/lib.rs:220-234 | What the sweep removed is counted in the gaps, key by key. |
| Storage.SweepIsFaithful | src/store/src/lib.rs:220-234 | The sweep keeps conservation and the honesty of gaps. |
| Storage.UnkeyedQueryCompleteIffNoLoss | src/store/src/lib.rs:191 | An all-threads query returns the whole history if and only if no key has lost anything. |
| Storage.QueryIsCompleteIff | src/store/src/lib.rs:172-218 | Over any run a query by sequence or by time, for one thread or for all, is complete if and only if it asks for no lost event. |
| Storage.MatchesIff | src/store/src/lib.rs:172-218 | What the filters admit in plain terms: above `after`, up to `through`, of the thread; or emitted, else received, in the window widened by the tolerance, saturation never changing an answer. |
| Storage.RetainedWasRecorded | src/store/src/lib.rs:106-170 | Nothing is retained that was not recorded, and nothing more often. |
| Storage.UnkeyedQueryHidesLoss | src/store/src/lib.rs:191 | For any event larger than its thread's cap: it is lost, and the all-threads query reports nothing. |
| Storage.EventStore.RemoveEvent | src/store/src/lib.rs:150-170 | Takes one event out, debits both ledgers and widens the gap of its key. |
| Storage.EventStore.PruneAged | src/store/src/lib.rs:116-125 | Drops from the front exactly while the oldest event is before the cutoff. |
| Storage.EventStore.PruneCaps | src/store/src/lib.rs:126-147 | Whichever over-cap thread the map yields, the loop ends in the one state the specification gives. |
| Storage.EventStore.FindDelta | src/store/src/lib.rs:131-144 | The first delta of the over-cap thread, or of any thread, and position 0 if there is none. |
| Storage.EventStore.RecordEvent | src/store/src/lib.rs:74-114 | One `record` reaches the specified state and keeps ledgers, caps and gaps honest. |
| Storage.EventStore.RecordReconstructedActiveTurn | src/store/src/lib.rs:79-104 | Records the anchor exactly when no genuine start of that turn is retained. |
| Storage.EventStore.RunQuery | src/store/src/lib.rs:172-218 | A query for one thread with no gap is exactly the matching history; with a gap it is complete above it. |
| Storage.EventStore.QuerySequence | src/store/src/lib.rs:172-193 | Exactly the retained events above `after`, up to `through` and of the thread; and the whole matching history when the thread has no gap. |
| Storage.EventStore.QueryTime | src/store/src/lib.rs:195-218 | Exactly the retained events emitted, else received, in the window widened by the tolerance; and the whole matching history when the thread has no gap. |
| Storage.EventStore.EvictIdleContent | src/store/src/lib.rs:220-234 | The backward loop leaves exactly the events the sweep keeps, and keeps the store valid. |
| Transport.AtMostOneWrite | src/transport/src/lib.rs:541-550 | In every run no two frames on the wire belong to the same call, across retries, reconnects, timeouts and shutdown. |
| Transport.OutcomesAreTruthful | src/transport/src/lib.rs:215-245 | NotWritten and Closed mean nothing was written; Ok means a response with that id, no error and this result was read on the connection that wrote it, Rejected one with this error; WrittenOutcomeUnknown means it was written. |
| Transport.FinishedIsFinal | src/transport/src/lib.rs:237-244 | What a call was told never changes, whatever happens later. |
| Transport.RetriesAreBounded | src/control/src/lib.rs:362-377 | Only NotWritten is retried, at most `not_written_retries` times, and a call gives up on it only when none remain. |
| Transport.RequestsAreConserved | src/transport/src/lib.rs:536-616 | At every step each request is with its caller, queued, pending, resolved or dropped, in exactly one place; outside a connection nothing is pending. |
| Transport.ReceiptsAreConsecutive | src/transport/src/lib.rs:310-322 | Over any handshakes, disconnects and malformed frames ingress receives exactly 1, 2, ..., n. |
| Transport.ReceiptsAreRead | src/transport/src/lib.rs:574-586 | What ingress receives is, frame by frame and in order, what was read off the socket. |
| Transport.GateIsChecked | src/transport/src/lib.rs:221-227 | In every reachable state an action attempted while the gate is closed is NotWritten and draws no id; any other attempt draws the next one. |
| Transport.SentIsQueued | src/transport/src/lib.rs:228-236 | A call joins the end of the queue while it has room, and is closed once the loop has ended. |
| Transport.AnswersAreDelivered | src/transport/src/lib.rs:237-244 | A resolved slot is what its call is told, a dropped one is Closed, and only an open one can time out. |
| Transport.HeadIsWritten | src/transport/src/lib.rs:543-550 | A request at the head of the queue is written as it stands and becomes pending, or is answered NotWritten and the connection given up. |
| Transport.OtherHeadIsTaken | src/transport/src/lib.rs:551-567 | A notification needs the socket, a shutdown ends the loop, and neither touches the other requests. |
| Transport.ResponsesResolve | src/transport/src/lib.rs:575-582 | A response to a pending request resolves it with what the frame says; any other frame resolves nothing. |
| Transport.LosingResolvesPending | src/transport/src/lib.rs:602-616 | A lost connection resolves exactly what was pending, as written with an unknown outcome. |
| Transport.BackoffAnswersOne | src/transport/src/lib.rs:498-515 | While disconnected one command is answered without being written; only a shutdown ends the loop. |
| Transport.DrivingNeedsHandshake | src/transport/src/lib.rs:310-365 | A connection is driven if and only if request 0 was answered without error, ingress is open and `initialized` was sent; it starts with the gate closed. |
| Transport.GateMoves | src/transport/src/lib.rs:193-206 | Exactly which steps open and close the action gate. |
| Transport.ReconnectsArePaced | src/transport/src/lib.rs:381-496 | In every run the delay is the initial one doubled per wait since the last connection, up to its maximum, and failures are counted. |
| Transport.FramesCarryTheirMethod | src/transport/src/lib.rs:228-233 | Every frame carries the method of the call that owns it, a plain request has one attempt, and at most 256 commands wait. |
| Transport.NextKeepsInv | src/transport/src/lib.rs:381-616 | Every step of callers and loop keeps the request invariant and the numbering. |
| Transport.RunGrows | src/transport/src/lib.rs:541-550 | Wire trace and id ownership of a run only ever extend those of its prefixes. |
| Transport.ConnectionLoop.CommandTurn | src/transport/src/lib.rs:541-567 | The command branch of the select does what the transition system says, on every exit too. |
| Transport.ConnectionLoop.RequestTurn | src/transport/src/lib.rs:543-550 | A request is written and remembered, or answered NotWritten and the connection given up. |
| Transport.ConnectionLoop.FrameTurn | src/transport/src/lib.rs:568-588 | The message branch numbers the frame, resolves a matching request and stops when ingress is gone. |
| Transport.ConnectionLoop.Drive | src/transport/src/lib.rs:524-616 | The select loop follows the transition system until it exits, and every exit leaves nothing pending. |
| Transport.ConnectionLoop.HandshakeTurn | src/transport/src/lib.rs:306-365 | A handshake frame is numbered and delivered; only the answer to id 0 ends the handshake. |
| Transport.ConnectionLoop.BackoffTurn | src/transport/src/lib.rs:498-515 | While disconnected one command is answered without being written, and the delay doubles up to its limit. |
| Transport.ConnectionLoop.RejectWhileDisconnected | src/transport/src/lib.rs:498-515 | One command is taken and answered unwritten; only a shutdown ends the loop. |
| Transport.ConnectionLoop.RunLoop | src/transport/src/lib.rs:381-496 | The whole loop computes the state the transition system reaches, for every schedule. |
| Ingestion.TablesAgree | src/ingest/src/lib.rs:161-282 | In every interleaving, however late an earlier task's cancel arrives, the reducer holds a thread as subscribed if and only if the table marks it subscribed or a task stands between the two sections that say so. |
| Ingestion.CapHolds | src/ingest/src/lib.rs:161-192 | The number of subscribed, subscribing and waiting threads never exceeds the cap. |
| Ingestion.OneResumerPerThread | src/ingest/src/lib.rs:164-196 | Two tasks between claim and end are on different threads, and each thread counts against the cap. |
| Ingestion.ResumesAreBounded | src/ingest/src/lib.rs:198-251 | A task sends at most max(1, `resume_retry_limit`) resumes. |
| Ingestion.DiscoveryFollowsAnswers | src/ingest/src/lib.rs:198-251 | In every interleaving a task heads for a subscription only after an Ok, ends ephemeral only for an ephemeral refusal and failed only for another answer, and repeats a resume only after NotWritten or an ephemeral refusal while attempts remain. |
| Ingestion.EphemeralErrorIff | src/ingest/src/lib.rs:487-490 | Exactly which errors count as ephemeral: those that contain one of three words in any case. |
| Ingestion.ManagedIff | src/ingest/src/lib.rs:164-187 | Exactly which states count against the cap. |
| Ingestion.AloneIsSequential | src/ingest/src/lib.rs:161-282 | A task that nothing interrupts reaches the outcome, table and reducer of a whole `discover`. |
| Ingestion.ProtectedUnlessOvertaken | src/ingest/src/lib.rs:195-251 | A task that has begun keeps its pending mark if and only if no other task's late cancel overtook it. |
| Ingestion.LateCancelUnprotects | src/ingest/src/lib.rs:227-241 | A run in which a second task loses its mark and its entry to the first task's cancel. |
| Ingestion.NextKeepsInv | src/ingest/src/lib.rs:161-282 | Every section of every task and every other reducer operation keeps the agreement of the tables. |
| Ingestion.StoppedIsFinal | src/ingest/src/lib.rs:301-346 | Once a pass has stopped, later pages could not have changed its candidates. |
| Ingestion.SortedFeedYieldsAllNewer | src/ingest/src/lib.rs:301-348 | On a listing sorted newest first, a pass that the limit did not cut takes every entry above the watermark, and with a nonzero watermark exactly those. |
| Ingestion.PassFindsAllIff | src/ingest/src/lib.rs:301-348 | A pass succeeds with every fresh entry of the listing, however many more pages it has, if and only if they fit both the candidate limit and the pages it may read, and any failing page comes too late to matter. |
| Ingestion.EverTakenIff | src/ingest/src/lib.rs:301-348 | On a sorted listing that does not change, a fresh thread is taken by this or any later pass if and only if its place is within both bounds and the first pass does not fail. |
| Ingestion.BoundsSkipForGood | src/ingest/src/lib.rs:306-348 | A listing for each bound on which a listed thread newer than the watermark is never taken. |
| Ingestion.FailingPageSkipsForGood | src/ingest/src/lib.rs:312-324 | A listing whose second page fails: the thread on the first is never taken. |
| Ingestion.SecondPassIsEmpty | src/ingest/src/lib.rs:345-348 | After a pass over a sorted listing a second pass over it has no candidates, whether or not a bound had cut the first. |
| Ingestion.NextMarkIsNewest | src/ingest/src/lib.rs:345 | The watermark after a pass is the newest of the old one and the timestamps examined; a failed pass leaves it. |
| Ingestion.EntriesAreRows | src/ingest/src/lib.rs:326-329 | The entries of a page are its rows with an id, a missing timestamp counting as 0. |
| Ingestion.ThreadIngestor.ClaimEntry | src/ingest/src/lib.rs:162-194 | Claims the thread exactly when it is unmanaged and below the cap. |
| Ingestion.ThreadIngestor.ResumeUntilSettled | src/ingest/src/lib.rs:198-251 | The resume loop ends where the answers say, touches one entry only and terminates. |
| Ingestion.ResumeLoopSettles | src/ingest/src/lib.rs:198-251 | The loop ends with the first answer that is not retriable, or when no attempt is left, and by that answer. |
| Ingestion.ThreadIngestor.DiscoverThread | src/ingest/src/lib.rs:161-282 | Outcome, table, reducer and the anchor recorded in the store after a whole `discover` that nothing interrupts, in every case; subscribed if and only if the last resume was answered Ok, ephemeral if and only if it was an ephemeral refusal. |
| Ingestion.ThreadIngestor.AnchorActiveTurn | src/ingest/src/lib.rs:266-275 | The store gains exactly the anchor of the turn in flight, unless its genuine start is retained. |
| Ingestion.ThreadIngestor.FindCandidates | src/ingest/src/lib.rs:301-348 | The page loop fails exactly when it runs into a failing page before a bound stops it, leaving the watermark; otherwise its candidates and watermark are the one-shot ones. |
| Ingestion.ThreadIngestor.ScanPage | src/ingest/src/lib.rs:325-340 | The inner loop over one page extends the candidates of all pages so far. |
| Control.SteerIsSound | src/control/src/lib.rs:308-360 | Confirmed exactly when the call was told that its one frame was answered without error, rejected exactly when it was refused or nothing was written; target, correlation and acceptance are those of the call. |
| Control.StartIsSound | src/control/src/lib.rs:232-306 | Confirmed if and only if the daemon answered without error and named a turn; an observed start is an applied event on the thread with that turn id, read off the socket when this transport feeds the pipeline. |
| Control.InterruptIsSound | src/control/src/lib.rs:104-216 | Confirmed if and only if the call was accepted and the waiter holds a completion of this turn, or the fallback read lists the turn as completed, failed or interrupted; the completion was applied after registration (and read off the socket when this transport feeds the pipeline), and the read was answered later. |
| Control.ShowsTerminalIff | src/control/src/lib.rs:186-201 | The read confirms if and only if the first entry with the turn's id has one of the three terminal statuses. |
| Control.FindTurnIsFirst | src/control/src/lib.rs:186-190 | The lookup gives the first entry with the id, and nothing when there is none. |
| Control.ConfirmedMeansInterruptedIff | src/control/src/lib.rs:120-216 | A confirmation means that the turn ended interrupted if and only if the completion says so, or the deciding read does not show it completed or failed. |
| Control.CompletedTurnConfirms | src/control/src/lib.rs:121-142 | A run in which a completion with status "completed" confirms an accepted interrupt. |
| Control.EarlyCompletionConfirms | src/control/src/lib.rs:120-142 | A completion applied any time after registration, even before the response, confirms an accepted interrupt. |
| Control.LaterCallIsLater | src/control/src/lib.rs:178-184 | A call made after a point of the run is written, if at all, after that point. |
| Control.CallIsTruthful | src/control/src/lib.rs:362-377 | A finished call has at most one frame on the wire and its outcome is true of the wire. |
| Control.CallSettles | src/control/src/lib.rs:362-377 | In every transport run a finished call was told what the safe retry makes of the answers to its attempts. |
| Control.SafeSendSettles | src/control/src/lib.rs:362-377 | The result is the answer to the one attempt that was not retried, and everything before it was NotWritten. |
| Control.Controller.SendNotWrittenSafe | src/control/src/lib.rs:362-377 | The retry loop stops at the first answer other than NotWritten, or when no retry remains. |
| Control.Controller.LockFor | src/control/src/lib.rs:95-102 | A thread always gets the same lock and two threads never share one. |
| Control.Controller.AwaitFirst | src/control/src/lib.rs:121-142 | A waiter registered before the events arrive holds the first of them that matches. |
| Control.Controller.Interrupt | src/control/src/lib.rs:104-166 | The outcome is the specified one for the answer the retry loop ends with, the first matching completion and the read. |
| Control.Controller.Start | src/control/src/lib.rs:232-306 | The outcome is the specified one for the final answer and the first start on the thread. |
| Control.Controller.Steer | src/control/src/lib.rs:308-360 | The outcome is the specified one for the final answer alone. |

## Left out

Parts of the program that are not part of this model:

- The socket, the websocket and JSON encoding: frames, replies and listings are already decoded. A failed `socket.send` is assumed to have written nothing, as the code assumes (`src/transport/src/lib.rs` lines 545-547).
- The wrap-around of `u64` and `usize` counters (sequence numbers drawn by the transport, request ids, byte totals); only the `saturating_` operations are modelled with their width.
- Wall clocks: time stamps are inputs, and any timeout may fire at any moment, so nothing is said about how long anything takes. Liveness under blocking sends is left out for the same reason.
- Ping traffic, idle detection and the health channel; a read-idle disconnect is one of the steps in which the connection is lost.
- `tokio`'s rounding of a broadcast capacity to a power of two (the theorems hold for every positive capacity), and sends to a ring without receivers.
- `release_if_idle` and `unsubscribe_all_best_effort`: off by default, and overlapping them with `discover` breaks the cap and the agreement of the tables (`src/ingest/src/lib.rs` lines 380-430).
- `handle_signal` and the second half of `reconcile`, which read and discover each candidate in turn.
- The freshness of `reconcile_thread`: a stale read may overwrite newer state.
- Mutual exclusion per thread beyond the identity of the lock.
- The evidence notes and reason strings of action outcomes; supervisor, core wiring, mock server and schemas.

Members whose contracts say less than the code does:

- NoSilentLifecycleLoss: admits as lost what a call dropped between lag report and recovery skipped, because the promise is false there (see above).
- StartIsSound: relates the transport run and the pipeline run only through the receipts that feed the pipeline; nothing relates the moment of the waiter's registration to a position on the wire.
- InterruptIsSound: as for `StartIsSound`.
- LifecycleStream.Recv: a blocking receive is a poll that may answer "still waiting", and nothing interferes between its steps; the interleavings are those of the pipeline.
- DiscoverThread: the uninterrupted case; the interleavings are those of the state machine, where recording the anchor is a step of the pipeline.
- FindCandidates: a page answers by its position in the listing; the cursor string itself is not modelled.
- Interrupt: the answers, the events applied while the action waits and the read are inputs of the method; the lemmas above tie each to a run.
- Start: as for `Interrupt`.
- Steer: as for `Interrupt`.
