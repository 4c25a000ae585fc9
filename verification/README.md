# PPSSPP debugger server: verified models

Dafny models of the parts of this repository that carry state, protocol or arithmetic, with proofs of what
they promise. `dafny verify dfyconfig.toml` checks everything; nothing here runs the server.

The **debugger session runtime** is a set of coroutines on one event loop. It is modelled as atomic steps, one
per stretch of code without an await, and every interleaving of steps is allowed. Pure step functions on a
state value say what each stretch does; classes with the source's fields do the same in place, method by
method, and their contracts tie the new object state to the step function; the theorems are about runs.

| file | what it models |
|---|---|
| `Transport`, `TransportInvariant`, `TransportMoves`, `TransportRuns`, `TransportOutcomes`, `TransportQueues`, `WsTransport` | tickets, the pending table, timeouts, cancellation, disconnects, probes; how every call ends |
| `Attribution`, `DiagnosticsRuns` | call records and the cause named for a timeout |
| `EventQueue`, `Queues` | waiting for a broadcast in the shared drop-oldest queue |
| `Broadcasts`, `BroadcastRuns`, `Observer` | one dispatcher, per-event queues and private subscriptions, the game state |
| `Polling` | waiting for a CPU state within a time budget |
| `Stepping`, `SteppingCancellation`, `SteppingManager` | pause/resume brackets around bodies that fail, are cancelled, or nest |
| `Limiter` | the token buckets and their lazily pruned table, over exact reals |
| `BatchJobs` | background jobs, cancellation, bounded retention |
| `Registry`, `RegistryRuns` | reconciling dynamic tools with the manifest, alone and interleaved |
| `Grid` | the resumable evaluation grid and its circuit breaker |
| `Scanner`, `EventTree`, `EventNodes`, `EventStream`, `Json` | the bracket scanner, the event-tree walk and what its nodes report |
| `Gates` | the sequence gate and the de-duplicated gate record |
| `Address`, `AddressText` | parsing and printing addresses |
| `Wilson` | the score interval over exact reals |
| `Text` | decimal numerals, ASCII case, substrings |

## Where the code and its promises differ

- The reply to a cancelled call is dropped silently, as the comment at `transport.py:332` says, except an error
  event, whose `set_exception` on the dead future is logged as a malformed message (`MisloggedExactly`,
  `MisloggedHappens`).
- A call cancelled while it waits for its own stepping probe leaves its diagnostic record unsettled for good
  (`UnsettledExactly`, `UnsettledHappens`).
- The cause `transport_error` is unreachable for records written by `call` (`AttributionExact`).
- Leaving the receive loop at `transport.py:301` fails no waiter (`LoopExitStrandsWaiters`).
- `with_stepping(preserve_state=True)` restores the entry state only if its entry probe answered; a nested block
  whose probe fails resumes the CPU under the outer body (`ExitStateExact`, `NestedTrustExact`,
  `NestedProbeFailureBreaksTrust`).
- `resume` returns on any `cpu.resume` broadcast. `drain_resume` empties only the per-event queue, not the
  transport's, so an earlier broadcast can confirm a resume that was ignored, and a block can then end normally
  with the CPU stopped (`WaitingSurvivesDrain`, `BlockIsTrustworthy`, `FalseConfirmationLeavesStopped`).
- `clear_exposed_registry` leaves the tools in the SDK; each stays there until some sync records its name again
  and a later one drops it (`OrphanLeavesExactly`). A clear can make a sync in progress ask for a restart
  (`RestartAskedExactly`, `ClearDuringSyncAsksForRestart`).
- A grid record whose text holds U+0085, U+2028 or U+2029 is written as one line but read back as several, so a
  resumed run collects its cell again (`CollectedAgainExactly`, `LineSeparatorDuplicates`).
- The gate record can read as a success of a run that failed, for exactly the gate lists described by
  `RecordAgreesExactly`.
- A comment at `events.py:393` says a tool part's own arguments come before those of its state; the code reads the
  state's input first (`ToolArgsOrder`).
- An address of more than 4300 decimal digits is rejected with Python's own ValueError, raised while the message
  is written, instead of the address error (`UnprintableExactly`, `LongHexEscapes`).

## Model

| member | source | states |
|---|---|---|
| `TransportInvariant.StepKeepsInv` | src/ppsspp_dfx_mcp/core/transport.py:296-503 | Every await-free segment of every call, receive, timeout, cancellation, send failure, disconnect, close, reconnect and fire-and-forget keeps the transport invariant, whatever ran in between |
| `TransportRuns.TicketsNeverReused` | src/ppsspp_dfx_mcp/core/transport.py:397-398 | No two sends of a run, calls or fire-and-forget, carry the same ticket, across any number of closes and reconnects |
| `TransportRuns.PendingTableExact` | src/ppsspp_dfx_mcp/core/transport.py:401-445 | At every moment each table key names exactly one unfinished call and every unanswered unfinished call has its key; a finished call leaves no entry; at most one probe is in flight, and a probe never probes |
| `TransportRuns.ResolvedOnce` | src/ppsspp_dfx_mcp/core/transport.py:320-339 | A resolved future is never resolved again, a finished call keeps its outcome and a settled record is never rewritten, over any rest of the run |
| `TransportRuns.ReturnsOnlyItsAnswer` | src/ppsspp_dfx_mcp/core/transport.py:323-339 | A call that returned a frame was handed exactly that frame, matched by its own ticket while it waited |
| `TransportOutcomes.FrameResolvesItsCall` | src/ppsspp_dfx_mcp/core/transport.py:323-339 | A frame with the ticket of a call that waits resolves it, with the frame or, if it is an error event, with the failure it carries, and the ticket is gone |
| `TransportOutcomes.ReturnsExactly` | src/ppsspp_dfx_mcp/core/transport.py:320-445 | Over any run: a call has returned a frame if and only if that frame, with its ticket and not an error event, found it waiting, and the call ran again with no timer or cancellation having reached it |
| `TransportOutcomes.RaisesExactly` | src/ppsspp_dfx_mcp/core/transport.py:320-445 | It has raised an error if and only if its own send failed so, or it ran again, not reached by a timer or cancellation, after an error event, a close or a disconnect found it waiting; the record holds that error |
| `TransportOutcomes.TimesOutExactly` | src/ppsspp_dfx_mcp/core/transport.py:417-445 | It has timed out, or is in or was cancelled in the probe that follows, if and only if it ran again and the last thing to reach it was its timer |
| `TransportOutcomes.AbortsExactly` | src/ppsspp_dfx_mcp/core/transport.py:405-445 | Cancelled before any probe, if and only if its send was cancelled or it ran again and the last thing to reach it was a cancellation |
| `TransportOutcomes.ReturnHappens` | src/ppsspp_dfx_mcp/core/transport.py:397-445 | A run in which a call returns its reply |
| `TransportQueues.VersionsExact` | src/ppsspp_dfx_mcp/core/transport.py:355-364 | The version queue holds exactly the newest 8 version replies no call claimed |
| `TransportQueues.EventsExact` | src/ppsspp_dfx_mcp/core/transport.py:355-379 | The broadcast queue holds the newest part, at most 256, of all other frames no call claimed; the rest was taken or counted as dropped |
| `TransportQueues.LinkExact` | src/ppsspp_dfx_mcp/core/transport.py:296-503 | The newest 64 tickets sent without waiting are remembered, and the receive loop lives exactly from a connect to the next disconnect, loop exit or close |
| `TransportRuns.CloseFailsEveryWaiter` | src/ppsspp_dfx_mcp/core/transport.py:269-294 | Closing, and a connection found closed, empty the table and leave no waiter unresolved |
| `TransportRuns.LoopExitStrandsWaiters` | src/ppsspp_dfx_mcp/core/transport.py:300-318 | Leaving the receive loop because the socket is no longer open fails nobody: over any run an unanswered waiter stays in the table, unanswered, until a frame with its ticket, a close or detected disconnect, its own timer or cancellation, or its own send failing |
| `TransportRuns.MisloggedExactly` | src/ppsspp_dfx_mcp/core/transport.py:320-339 | What is logged as malformed is what cannot be read, once each, and the error event that answers a cancelled call, which the comment there promises is not; nothing else |
| `TransportRuns.MisloggedHappens` | src/ppsspp_dfx_mcp/core/transport.py:325-337 | A run that reaches it: connect, call, send, cancel the caller, receive the error event |
| `WsTransportObject.WsTransport.BeginCall` | src/ppsspp_dfx_mcp/core/transport.py:397-404 | First segment of a call: next ticket, table entry, open record; nothing else changes |
| `WsTransportObject.WsTransport.ResumeCaller` | src/ppsspp_dfx_mcp/core/transport.py:417-445 | The awaiting coroutine runs again: on an answer, an error, a timeout (which may start a probe) or a cancellation, its ticket is gone from the table |
| `WsTransportObject.WsTransport.HandleMessage` | src/ppsspp_dfx_mcp/core/transport.py:320-379 | One received message: matched, unmatched or unreadable, exactly as the step relation says |
| `WsTransportObject.WsTransport.FailPending` | src/ppsspp_dfx_mcp/core/transport.py:313-317 | Exactly the unresolved futures of the table fail, then the table is empty |
| `WsTransportObject.WsTransport.NoteBroadcast` | src/ppsspp_dfx_mcp/core/call_diagnostics.py:108-120 | Stamps exactly the unsettled records of that event still in the ring |
| `Attribution.TimeoutTextIsNeutral` | src/ppsspp_dfx_mcp/core/call_attribution.py:60-87 | The error text the transport itself writes for a timeout contains none of the words that name a transport error |
| `Attribution.ErrorTextsNamed` | src/ppsspp_dfx_mcp/core/call_attribution.py:60-87 | Any text with one of the five words, in any case, does name one |
| `DiagnosticsRuns.AttributionExact` | src/ppsspp_dfx_mcp/core/call_attribution.py:60-87 | Over whole runs the cause named for a finished call is stalled exactly if its own probe was answered stepping; otherwise, for a timeout, pairing-broken or no-producer exactly according to whether a same-event frame that was neither matched nor our echo was handled while it was open; a transport error is never named |
| `DiagnosticsRuns.StampedExactly` | src/ppsspp_dfx_mcp/core/call_diagnostics.py:86-120 | A record carries a broadcast stamp if and only if such a frame was handled while the call was unsettled and in the ring |
| `DiagnosticsRuns.StampIsLatest` | src/ppsspp_dfx_mcp/core/call_diagnostics.py:108-120 | The stamp is the time at which the last such frame was handled |
| `DiagnosticsRuns.NoProducerMeansSilence` | src/ppsspp_dfx_mcp/core/call_attribution.py:77-87 | no_producer on a record still in the 200-entry ring: no such frame was handled between begin and settle, probe time included |
| `DiagnosticsRuns.UnsettledExactly` | src/ppsspp_dfx_mcp/core/transport.py:430-445 | A finished call leaves its record unsettled if and only if its caller was cancelled during its own stepping probe: before the probe was sent, while it was sent, or while it waited |
| `DiagnosticsRuns.UnsettledHappens` | src/ppsspp_dfx_mcp/core/transport.py:430-445 | A run that reaches it: a call times out, its probe is sent, the caller is cancelled |
| `DiagnosticsRuns.SteppingExactly` | src/ppsspp_dfx_mcp/core/transport.py:447-476 | A record holds a stepping answer if and only if a probe of that very call returned it |
| `WsTransportObject.WsTransport.WaitForBroadcast` | src/ppsspp_dfx_mcp/core/transport.py:558-625 | The draining loop computes the wait described below, for any arrivals, deadline or cancellation between its passes |
| `WsTransportObject.WsTransport.Requeue` | src/ppsspp_dfx_mcp/core/transport.py:648-658 | The backlog goes back oldest first through the drop-oldest queue; what it pushes out is counted |
| `EventQueue.WaitConserves` | src/ppsspp_dfx_mcp/core/transport.py:600-658 | before + arrivals = after + returned + dropped, as multisets, and the queue stays within 256 |
| `EventQueue.WaitRotates` | src/ppsspp_dfx_mcp/core/transport.py:600-625 | The first match in taking order is returned; without overflow the skipped frames go, in order, behind whatever is still queued |
| `EventQueue.TimeoutConsumesNothing` | src/ppsspp_dfx_mcp/core/transport.py:600-625 | A wait without arrivals that finds nothing loses nothing: the queue is rotated by what it looked at, unchanged after a full look |
| `EventQueue.WaitFindsEarliest` | src/ppsspp_dfx_mcp/core/transport.py:600-625 | While frames keep arriving: given the passes to reach it, a match already queued is returned, the earliest one, unless the queue overflows meanwhile, which it cannot while all that arrives fits beside it; what stood before the match goes behind everything else |
| `Queues.PutAllKeepsNewest` | src/ppsspp_dfx_mcp/core/transport.py:627-646 | Any number of drop-oldest insertions leaves exactly the newest frames of everything offered |
| `Broadcasts.ConsumersSeeWireOrder` | src/ppsspp_dfx_mcp/core/game_state_observer.py:479-553 | Through both drop-oldest stages every frame a consumer takes or holds is the one received at its position on the wire, of an event it wants, in wire order and none twice; its queue is the newest part of what it was offered, within its bound, and the transport's queue the newest part of the wire, none of it dispatched |
| `Broadcasts.UnreadMailboxExact` | src/ppsspp_dfx_mcp/core/game_state_observer.py:700-711 | A queue nobody reads holds exactly the newest 64 of what it held and what was dispatched of its event since, a subscription the newest 32 of cpu.stepping |
| `Broadcasts.DrainedSeesOnlyLater` | src/ppsspp_dfx_mcp/core/game_state_observer.py:323-345 | After a drain a consumer takes only frames dispatched later, however the run goes on |
| `Broadcasts.DrainMissesOnlyWaiting` | src/ppsspp_dfx_mcp/core/game_state_observer.py:323-345 | Of what was received before a drain, a consumer takes afterwards only frames that were then still waiting in the transport's queue, however the run goes on |
| `Broadcasts.WaitingSurvivesDrain` | src/ppsspp_dfx_mcp/core/game_state_observer.py:323-345 | And it does take those: a cpu.resume received before drain_resume is the first one read after it |
| `BroadcastRuns.DispatchesTheWire` | src/ppsspp_dfx_mcp/core/game_state_observer.py:479-512 | Unless an arrival finds 256 frames waiting, the dispatcher has handled the wire from its beginning, in order, and the queue is all the rest |
| `BroadcastRuns.NothingSkipped` | src/ppsspp_dfx_mcp/core/game_state_observer.py:479-512 | In any run: what was received is dispatched, still queued, or was pushed out by such an arrival |
| `BroadcastRuns.ReadInFull` | src/ppsspp_dfx_mcp/core/game_state_observer.py:499-521 | A consumer that is never full when its event is dispatched takes and holds exactly what was dispatched of that event, however it reads: its own event for a queue, cpu.stepping for a subscription |
| `BroadcastRuns.SubscriptionsExact` | src/ppsspp_dfx_mcp/core/game_state_observer.py:720-744 | A subscription exists if and only if it was made, and receives if and only if it was not closed since |
| `BroadcastRuns.EventQueuesStand` | src/ppsspp_dfx_mcp/core/game_state_observer.py:45-61 | Each of the eight event names has its queue throughout, and no other name has one |
| `BroadcastRuns.GameExact` | src/ppsspp_dfx_mcp/core/game_state_observer.py:69-77 | The game state read off the dispatched broadcasts: loading if and only if no start came, quit if and only if after a start a quit came while no pause was in force, paused if and only if a pause is in force and no such quit came, running otherwise |
| `Broadcasts.ConsumersDoNotInterfere` | src/ppsspp_dfx_mcp/core/game_state_observer.py:395-420 | Erasing every action of all other consumers from a run changes nothing one consumer sees, holds or has taken |
| `BroadcastRuns.GameNeverGoesBack` | src/ppsspp_dfx_mcp/core/game_state_observer.py:538-553 | quit is terminal and loading is never re-entered, whatever broadcasts arrive or are missed |
| `Observer.GameStateObserver.Dispatch` | src/ppsspp_dfx_mcp/core/game_state_observer.py:492-523 | One turn of the dispatcher loop over the real objects is one dispatch step of the runs above |
| `Observer.GameStateObserver.CloseSubscription` | src/ppsspp_dfx_mcp/core/game_state_observer.py:739-744 | A closed subscription is detached and keeps what it holds; the others are untouched |
| `Polling.WaitForState` | src/ppsspp_dfx_mcp/core/transport.py:505-556 | The polling loop ends for every debugger within timeout + interval + 0.1 s + 0.5 s, polls at least once, and every poll but the last was answered and rejected |
| `Polling.EndsExactly` | src/ppsspp_dfx_mcp/core/transport.py:525-556 | The last poll is the first that is not answered in time, rejected and before the deadline; the wait is satisfied if and only if it was answered in time and accepted, failed if and only if in time with an error, timed out otherwise; each poll's own timeout is what is left, between 0.1 s and 5 s |
| `Polling.BoundIsTight` | src/ppsspp_dfx_mcp/core/transport.py:525-556 | Outside the gaps below the bound cannot be lowered: within any slack of it some debugger makes a run of the loop end |
| `Polling.GapBoundIsExact` | src/ppsspp_dfx_mcp/core/transport.py:525-556 | Where m polls cannot use up the budget but m intervals can, every run ends by m (5 s + interval) + 0.6 s and one run ends exactly then; with timeout 0 that is 0.6 s |
| `Polling.GapsAreWhereItIsLoose` | src/ppsspp_dfx_mcp/core/transport.py:525-556 | There the bound is smaller than the general one |
| `Stepping.BlockIsTrustworthy` | src/ppsspp_dfx_mcp/core/stepping.py:273-443 | For every tree of preserving blocks and every debugger whose entry probes answer, each read inside a block sees a stopped CPU; and a block that returns normally leaves the CPU stopped if and only if it found it so, or its resume command was ignored while some resume broadcast confirmed it |
| `Stepping.BlockRestoresState` | src/ppsspp_dfx_mcp/core/stepping.py:323-443 | So without an observer, or if a broadcast confirms only a resume that took effect, a block that returns normally has restored the state it found |
| `Stepping.FalseConfirmationLeavesStopped` | src/ppsspp_dfx_mcp/core/stepping.py:300-308 | A debugger that ignores one resume while an earlier broadcast is still to be dispatched: the block ends normally and the CPU stays stopped |
| `Stepping.IdealBlock` | src/ppsspp_dfx_mcp/core/stepping.py:323-443 | Over an ideal debugger a tree of blocks ends as its body would and costs exactly one pause and one resume if entered running, none if entered stepping, however deep the nesting |
| `Stepping.ExitStateExact` | src/ppsspp_dfx_mcp/core/stepping.py:351-443 | With an entry probe that may answer, fail or be cancelled and any tree of blocks inside, a block exits stopped if and only if it was entered stopped and either could see that and was asked to preserve it or was cancelled in its probe; it ends as its body would |
| `Stepping.NestedTrustExact` | src/ppsspp_dfx_mcp/core/stepping.py:351-443 | After a nested block that ends normally the outer body's next read sees a stopped CPU if and only if the nested block was asked to preserve and its entry probe answered |
| `Stepping.NestedProbeFailureBreaksTrust` | src/ppsspp_dfx_mcp/core/stepping.py:351-372 | A nested block whose entry probe fails resumes the CPU under the outer body, which then reads a running CPU |
| `Stepping.PausesAndResumesMatch` | src/ppsspp_dfx_mcp/core/stepping.py:323-443 | Whatever fails or is cancelled, completed pauses and resume attempts match like brackets in every tree of blocks |
| `Stepping.FailedPauseNeverRunsBody` | src/ppsspp_dfx_mcp/core/stepping.py:368-393 | A block that does not complete its pause does the same with any other body, starts no resume, and raises SteppingFailed or the caller's own cancellation |
| `Stepping.FailedPausesHideBodies` | src/ppsspp_dfx_mcp/core/stepping.py:323-443 | In every tree and against every debugger, replacing the bodies of all blocks that do not complete their pause by anything else changes nothing in the run |
| `Stepping.ResumeFailureNeverMasksBody` | src/ppsspp_dfx_mcp/core/stepping.py:395-443 | Leaving a block that paused ends cancelled if and only if the body, the caller or the resume was cancelled; otherwise the body's exception stays, and after a body that succeeded the resume's own comes out; a normal return leaves a stopped CPU stopped exactly when the resume was ignored but confirmed |
| `Stepping.FailedPauseReports` | src/ppsspp_dfx_mcp/core/stepping.py:239-271 | A pause that fails tells whether the process is alive if and only if its wait ran out and the process is known; any other failure comes out as SteppingFailed without it |
| `SteppingCancellation.CancelledExactly` | src/ppsspp_dfx_mcp/core/stepping.py:323-443 | In every tree and against every debugger: the tree ends cancelled if and only if its run reaches a raised cancellation or a block whose caller is cancelled in its probe, its pause or its exit; none is swallowed |
| `SteppingCancellation.CancellationGoesOut` | src/ppsspp_dfx_mcp/core/stepping.py:395-443 | Whatever is reached and ends cancelled, every enclosing tree ends cancelled, and all that is still logged is one resume for each enclosing block that paused |
| `SteppingCancellation.LeaveOutcome` | src/ppsspp_dfx_mcp/core/stepping.py:395-443 | The exit of a block by the answers it gets: cancelled if and only if the body was, the caller is, or one of the resume's answers is a cancellation |
| `SteppingManagerObject.SteppingManager.Pause` | src/ppsspp_dfx_mcp/core/stepping.py:202-271 | The pause method, with its wait, refusals and process check, is the pause of the trees above |
| `SteppingManagerObject.SteppingManager.Resume` | src/ppsspp_dfx_mcp/core/stepping.py:273-321 | The resume method, which returns on any broadcast heard and polls otherwise, is the resume of the trees above |
| `SteppingManagerObject.SteppingManager.WithStepping` | src/ppsspp_dfx_mcp/core/stepping.py:323-443 | The context manager around any body, nested ones included, is the block of the trees above |
| `Limiter.PruningInvisible` | src/ppsspp_dfx_mcp/middleware.py:86-118 | For every request sequence at non-decreasing times the pruned limiter grants and refuses exactly as a table that is never pruned |
| `Limiter.KeysDoNotInterfere` | src/ppsspp_dfx_mcp/middleware.py:86-118 | What happens to one key's requests is what a bucket of its own would do: other traffic, and the pruning it triggers, never changes it |
| `Limiter.RateBound` | src/ppsspp_dfx_mcp/middleware.py:86-101 | Over any window of any run one key is granted at most rate + (t1 - t0) * rate / 60 requests |
| `Limiter.GrantedExactly` | src/ppsspp_dfx_mcp/middleware.py:86-101 | Which requests of a new key are granted, in any run and without speaking of buckets: exactly those after which every window that ends with them holds at most rate + length * rate / 60 grants |
| `Limiter.BurstIsGranted` | src/ppsspp_dfx_mcp/middleware.py:86-101 | A new key is granted its first floor(rate) requests, however close together |
| `Limiter.PacedIsGranted` | src/ppsspp_dfx_mcp/middleware.py:86-101 | With rate at least 1, requests of a new key at least 60/rate seconds apart are all granted |
| `Limiter.PruneExactly` | src/ppsspp_dfx_mcp/middleware.py:103-118 | A table is pruned only past 100 keys and a minute after the last time; then exactly the buckets other than the current one that were not used for an hour go |
| `Limiter.AcquireKeepsSound` | src/ppsspp_dfx_mcp/middleware.py:86-118 | Stored tokens stay within [0, rate] and no bucket is dated in the future |
| `Limiter.TokenBucketLimiter.PruneTable` | src/ppsspp_dfx_mcp/middleware.py:103-118 | Pruning happens only past 100 keys and 60 s, and removes exactly the stale keys other than the current one |
| `BatchJobs.StepKeepsInv` | src/ppsspp_dfx_mcp/core/batch_jobs.py:173-273 | Submission, start, finish, failure and cancellation, in any order, keep the registry invariant |
| `BatchJobs.OutcomesAreFinal` | src/ppsspp_dfx_mcp/core/batch_jobs.py:197-219 | Between any two moments a job only moves forward from queued to running to one terminal status, which never changes again |
| `BatchJobs.StatusExact` | src/ppsspp_dfx_mcp/core/batch_jobs.py:197-265 | At every moment of every run: completed or failed if and only if the runner finished so, cancelled if and only if it finished so or the job was cancelled before its start, running if and only if started and not finished, queued otherwise |
| `BatchJobs.SessionKept` | src/ppsspp_dfx_mcp/core/batch_jobs.py:173-195 | The job with the n-th id is the n-th submission's, and keeps its session |
| `BatchJobs.CancelReportsExactly` | src/ppsspp_dfx_mcp/core/batch_jobs.py:240-265 | Asking to cancel is accepted if and only if the job is unfinished, refused as over if and only if it is among the 32 finished last, and unknown otherwise |
| `BatchJobs.TerminalExactlyOnce` | src/ppsspp_dfx_mcp/core/batch_jobs.py:214-265 | A job is recorded as finished exactly once if it is terminal and never otherwise, however its finish and its cancellations race |
| `BatchJobs.RetentionExact` | src/ppsspp_dfx_mcp/core/batch_jobs.py:267-273 | Retained are exactly the unfinished jobs and the 32 most recently finished ones; exactly these still hold their task; the finish queue lists exactly the retained terminal jobs; listing is in submission order |
| `BatchJobs.BatchJobRegistry.EvictFinished` | src/ppsspp_dfx_mcp/core/batch_jobs.py:267-273 | The loop drops oldest finished jobs until 32 are left, releasing their tasks |
| `BatchJobs.BatchJobRegistry.RunningJobForSession` | src/ppsspp_dfx_mcp/core/batch_jobs.py:233-238 | Finds a job if and only if the session has a queued or running one, among all jobs ever submitted; the one found is the earliest |
| `Registry.ScriptTools.SyncExposedTools` | src/ppsspp_dfx_mcp/registry.py:427-508 | One undisturbed sync leaves (old and wanted) plus added; the report lists added, removed, failed and skipped exactly, each name once, and restart_required says whether record and SDK differ |
| `Registry.SyncIsIdempotent` | src/ppsspp_dfx_mcp/registry.py:427-508 | A second sync with the same manifest and outcomes changes nothing, adds and removes nothing, and fails the same names |
| `Registry.RestartExact` | src/ppsspp_dfx_mcp/registry.py:486-507 | An undisturbed sync asks for a restart if and only if a kept tool had already vanished from the SDK or a new one was accepted without being added |
| `Registry.UnregisterReports` | src/ppsspp_dfx_mcp/registry.py:401-424 | Unregistering reports a removal if and only if the name was on record and its tool in the SDK; afterwards neither is there |
| `Registry.OrphanLeavesExactly` | src/ppsspp_dfx_mcp/registry.py:391-398 | Over any series of syncs after a clear, a tool the clear left in the SDK is gone at some moment if and only if some sync recorded its name again and a later one dropped it |
| `Registry.TwoSyncsRecover` | src/ppsspp_dfx_mcp/registry.py:391-398 | Two syncs are enough for that, and one that never wants the name is not |
| `Registry.ScriptTools.AddMissing` | src/ppsspp_dfx_mcp/registry.py:466-480 | The registration loop enrols exactly the wanted names whose registration goes through |
| `Registry.ScriptTools.RetireStale` | src/ppsspp_dfx_mcp/registry.py:482-484 | The removal loop takes the stale names off the record and out of the SDK |
| `RegistryRuns.SyncsConverge` | src/ppsspp_dfx_mcp/registry.py:427-508 | However many syncs of one manifest interleave at their contract checks, from the moment any of them has finished the record and the SDK are, and stay, what one undisturbed sync would leave; none reports a spurious failure |
| `RegistryRuns.ReturnReported` | src/ppsspp_dfx_mcp/registry.py:466-480 | When a contract check comes back the name counts as failed if and only if the check failed, or add_tool raised and nobody recorded the name meanwhile, and as added otherwise |
| `RegistryRuns.RecordedToolsPresent` | src/ppsspp_dfx_mcp/registry.py:372-384 | If add_tool really adds, every recorded tool is present in the SDK at every moment of every interleaving, clears and differing manifests included |
| `RegistryRuns.LeftBehindExactly` | src/ppsspp_dfx_mcp/registry.py:391-398 | If add_tool really adds: a script tool is in the SDK without being on record if and only if a clear took it off the record and nobody has recorded it since |
| `RegistryRuns.RestartAskedExactly` | src/ppsspp_dfx_mcp/registry.py:486-508 | In any interleaving of syncs and clears with an honest add_tool, a sync asks for a restart if and only if a clear during it took a name off the record that its snapshot holds and its manifest drops, and nobody has recorded it since |
| `RegistryRuns.NeverAsksForRestart` | src/ppsspp_dfx_mcp/registry.py:486-508 | So a sync during which nothing is cleared never asks for one |
| `RegistryRuns.ClearDuringSyncAsksForRestart` | src/ppsspp_dfx_mcp/registry.py:463-508 | A run that does, for any recorded name: a sync that drops it awaits the contract check of another name, and the record is cleared meanwhile; in that run no other party acts between one await of the sync and the next |
| `Grid.RepeatsAreUnreadable` | evals/oc/collect.py:432-514 | Over any series of resumed runs, each stopped anywhere, a cell gets a second record only if its earlier one does not read back as one line; the log only grows |
| `Grid.CollectedAgainExactly` | evals/oc/trajectory.py:128-144 | For every grid, a resumed run that gets through its cells appends a record for a cell if and only if no record of it reads back, that is, each holds U+0085, U+2028 or U+2029 |
| `Grid.ReadableIsNeverRepeated` | evals/oc/collect.py:471-489 | No run at all, tripped or raising, appends a record for a cell that has one that reads back |
| `Grid.LineSeparatorDuplicates` | evals/oc/trajectory.py:117-125 | A cell whose record holds one of these characters is collected twice by two runs in a row |
| `Grid.ReadableLogHasNoRepeats` | evals/oc/trajectory.py:117-144 | When all records read back, no cell gets a record it already has |
| `Grid.BreakerExact` | evals/oc/collect.py:458-503 | A run stops at the first moment its newest records are threshold provider failures in a row, skips and exceptions not counting, not otherwise, and collects nothing afterwards |
| `Grid.CountersExact` | evals/oc/collect.py:468-491 | passed counts this run's successful records, and passed <= records <= total |
| `Grid.TotalExact` | evals/oc/collect.py:471-503 | total counts exactly the attempts: this run's records plus the attempts that raised; and the records are, in order, what the other attempts returned |
| `Grid.UntrippedRunSettles` | evals/oc/collect.py:471-489 | A run that neither trips nor sees an exception leaves every cell done |
| `Grid.Collector.RunGrid` | evals/oc/collect.py:458-514 | The nested loops, breaks and continues included, are the cell-by-cell run of these properties; an unknown scenario raises when its row is reached |
| `Grid.Collector.ReadDone` | evals/oc/trajectory.py:128-144 | Reading the log back yields the keys of exactly the lines that parse |
| `Scanner.ScanIsExact` | evals/oc/events.py:258-281 | For every prefix, suffix and text of plain characters, quoted strings with escapes and bracket groups, scanning from the bracket before it returns exactly the text |
| `Scanner.ClosesExactly` | evals/oc/events.py:258-281 | From any opening bracket the scan ends at a place if and only if what lies between is such a text and a closing bracket follows |
| `Scanner.UnclosedReturnsRest` | evals/oc/events.py:281 | When nothing closes the bracket the whole rest comes back |
| `Scanner.BalancedArgs` | evals/oc/events.py:258-281 | The loop ends on any code and position and returns a substring that starts right after the bracket |
| `EventTree.Collector.CollectNode` | evals/oc/events.py:438-520 | The recursive, mutating walk equals a fold over the visited dict nodes in pre-order |
| `EventTree.Collector.CollectError` | evals/oc/events.py:136-163 | The separate error walk visits the same nodes in the same order |
| `EventTree.Collector.ExpandCode` | evals/oc/events.py:316-344 | The expansion loop keeps exactly the calls of known servers with target names, in order of appearance |
| `EventStream.VisitedExactly` | evals/oc/events.py:494-520 | The walk visits a dict if and only if a path that never enters a metadata entry leads to it |
| `EventStream.UsageExact` | evals/oc/events.py:484-493 | Each counter is present exactly when read, input and output tokens are sums, total tokens a maximum, over the nodes outside metadata |
| `EventStream.UsageIgnoresOrder` | evals/oc/events.py:484-493 | The usage of a stream does not depend on the order of its events |
| `EventStream.UsageComposes` | evals/oc/events.py:484-493 | The usage of two streams one after the other is their usages added, totals compared |
| `EventStream.EveryToolPartCounted` | evals/oc/events.py:451-483 | Every tool part is either expanded into target calls or one call in exactly one bucket, by the prefix of its name |
| `EventNodes.UsageReported` | evals/oc/events.py:57-66 | A node reports a number for a counter if and only if one of usage, tokens and cost has it under one of the counter's names, written out |
| `EventNodes.UsageReportedOnce` | evals/oc/events.py:484-493 | Each such number is reported once |
| `EventNodes.ToolPartReported` | evals/oc/events.py:381-483 | A tool part that runs no code is one call: the name without its server key, the arguments of its state, an error if and only if its status is error or failed, and the first 500 characters of its output |
| `EventNodes.ToolNameOrder` | evals/oc/events.py:395-400 | The name is the first of name, tool and title that is a non-empty text |
| `EventNodes.ToolArgsOrder` | evals/oc/events.py:401-407 | The arguments are the state's input if that is a non-empty dict, else the first of input, args and arguments that is one |
| `EventNodes.ErrorFlags` | evals/oc/events.py:408-410 | A tool is in error if and only if its state sets one of three flags to anything but an empty value, or has status error or failed |
| `EventNodes.ResultTextOrder` | evals/oc/events.py:413-434 | The result is the first text of the state, the error's first for an error and last otherwise, and else the first of the part's own |
| `EventNodes.TextReported` | evals/oc/events.py:347-351 | A node contributes its text if and only if that is a string and its type names none of error, step, tool, reasoning, file and display |
| `EventNodes.UntypedText` | evals/oc/events.py:347-351 | A node without a type is no error and contributes its text |
| `EventNodes.ToolTypes` | evals/oc/events.py:354-362 | A named node whose type contains tool, in any case, is a tool part |
| `EventNodes.ErrorReported` | evals/oc/events.py:144-157 | An error event reports the type, the first 500 characters of the message and the status of its error |
| `EventNodes.PlainErrorReported` | evals/oc/events.py:144-158 | An error event whose error is plain text reports that |
| `EventNodes.TargetExactly` | evals/oc/events.py:466-469 | A call is a target call if and only if a configured prefix begins its name |
| `EventStream.NormalizeStripsKey` | evals/oc/events.py:210-235 | A known server key and its separator, underscore or dot, are stripped once and nothing else is cut |
| `EventStream.ParseStream` | evals/oc/events.py:523-582 | Text in pre-order, usage, calls by bucket with target calls numbered 1..N and diagnostic ones strictly increasing, errors in order |
| `Gates.GreedyExact` | evals/gates.py:245-251 | Taking the first match every time accepts exactly the lists that have a strictly increasing embedding |
| `Gates.SequenceGate` | evals/gates.py:245-251 | The shared-iterator check passes if and only if the expected names are a subsequence of the real calls' names |
| `Gates.RealNamesExact` | evals/gates.py:188-191 | The names compared are those of exactly the calls that are no documentation reads, in order |
| `Gates.GatesRecord` | evals/oc/trajectory.py:59-66 | The loop with its occurrence counters builds the record the lemmas describe |
| `Gates.RecordExact` | evals/oc/trajectory.py:59-66 | Each entry of the record is the outcome of the last gate that has its key |
| `Gates.KeysDistinctExactly` | evals/oc/trajectory.py:59-66 | Every gate keeps a key of its own if and only if no type in the list reads like another's numbered key |
| `Gates.RecordSize` | evals/oc/trajectory.py:59-66 | The record has one entry per gate if and only if there is no such clash |
| `Gates.RecordAgreesExactly` | evals/gates.py:432-435 | For a list of gate types, the record being non-empty and all true can differ from the success flag if and only if some type is unknown while every key is written last by a known one |
| `Gates.SuccessReadsAsSuccess` | evals/gates.py:432-435 | A successful run always has a non-empty, all-true record |
| `Gates.MisreadExample` | evals/oc/trajectory.py:59-66 | Such a list: a gate typed first_tool#2 between two first_tool gates |
| `Gates.Evaluate` | evals/gates.py:395-435 | Unknown types fail, an empty list never succeeds, success is all passing |
| `Address.ParseFormat` | src/ppsspp_dfx_mcp/address.py:125-173 | Parsing a printed address gives back the value, modulo 2^32 |
| `Address.FormatModulo` | src/ppsspp_dfx_mcp/address.py:155-173 | Two values print alike if and only if they agree modulo 2^32 |
| `Address.CanonicalExactly` | src/ppsspp_dfx_mcp/address.py:155-173 | The printed forms are exactly 0x and eight upper-case hex digits |
| `Address.FormatParse` | src/ppsspp_dfx_mcp/address.py:125-173 | Any accepted input, printed, is canonical and stable under reading and printing; canonical text is its own printed form |
| `Address.DroppedPrefix` | src/ppsspp_dfx_mcp/address.py:27-38 | All-digit text without 0x is accepted and means the same number if and only if at most its last digit is not zero |
| `Address.UnprintableExactly` | src/ppsspp_dfx_mcp/address.py:140-142 | A number out of range is refused with the address error, except exactly those of more than 4300 decimal digits, whose message cannot be formatted so that another exception escapes |
| `Address.LongHexEscapes` | src/ppsspp_dfx_mcp/address.py:140-142 | Every hex text of more than 4300 significant digits is such a number |
| `AddressText.CaseDoesNotMatter` | src/ppsspp_dfx_mcp/address.py:102-122 | Texts that differ in letter case only are read alike |
| `AddressText.PaddingDoesNotMatter` | src/ppsspp_dfx_mcp/address.py:102-104 | White space around a text does not change how it is read |
| `AddressText.IntegersAreThemselves` | src/ppsspp_dfx_mcp/address.py:89-104 | An integer is accepted, as itself, if and only if it lies in 0..0xFFFFFFFF; truth values and other types are refused, and no text means 0 |
| `AddressText.NumeralsAreRead` | src/ppsspp_dfx_mcp/address.py:114-122 | A decimal numeral, with or without a plus sign, is read as its number; with a minus sign as the opposite, which is refused as an address unless it is 0 |
| `AddressText.DecimalAccepted` | src/ppsspp_dfx_mcp/address.py:114-122 | Text without 0x is accepted if and only if, after an optional sign, it is of at most 4300 digits with single underscores between them |
| `AddressText.NegativeTextRefused` | src/ppsspp_dfx_mcp/address.py:139-142 | No text with a minus sign is read as an address other than 0 |
| `AddressText.HexIsRead` | src/ppsspp_dfx_mcp/address.py:105-113 | Any number of hex digits after 0x is read as their number |
| `AddressText.HexAccepted` | src/ppsspp_dfx_mcp/address.py:105-113 | Text with 0x is accepted if and only if at least one character follows and all are hex digits |
| `Address.FormatFieldsFormats` | src/ppsspp_dfx_mcp/address.py:205-242 | After formatting no integer is left under an address key, at any depth |
| `Address.UnchangedExactly` | src/ppsspp_dfx_mcp/address.py:205-242 | Formatting changes a value if and only if it holds such an integer |
| `Address.FormatFieldsIdempotent` | src/ppsspp_dfx_mcp/address.py:205-242 | Formatting twice is formatting once |
| `Address.FormatFieldsPointwise` | src/ppsspp_dfx_mcp/address.py:205-242 | Along every path the shape and keys are kept, address integers become their printed form, every other value stays |
| `Wilson.InvertsScoreTest` | evals/report.py:50-57 | A rate lies in the interval if and only if the score test accepts it: (p-q)^2 <= z^2 q(1-q)/n |
| `Wilson.WithinUnit` | evals/report.py:50-57 | 0 <= lo <= p <= hi <= 1, the clamps never bind, and an end touches 0 or 1 exactly when no run or every run passed |
| `Wilson.MirrorsFailures` | evals/report.py:50-57 | Counting failures instead of passes mirrors the interval |
| `Wilson.Monotone` | evals/report.py:50-57 | More passes never lower either end |

## Left out

- Sockets, connection set-up, the reconnect lock and the version handshake: connecting is one step that succeeds or is not taken, sending one that succeeds or fails.
- JSON encoding and decoding, regular expressions, the JavaScript argument parser and Python's `str` of containers: parameters of the models that use them (`EventTree.Env`).
- Floating-point rounding and clock granularity: the limiter, the polling loop and the interval use exact reals; the polling clock is ideal and sends are instantaneous.
- Colliding job ids: job ids are fresh by construction.
- A job runner that ends with a BaseException other than cancellation: the source leaves such a job running.
- Torn writes of the run log and two processes appending to one log.
- A background resume that outlives its cancelled caller: the shielded resume is taken to finish before the next step of the tree.
- A breakpoint hit between an entry probe and its pause, and other users pausing or resuming the CPU during a block.
- The log and GPU-statistics consumers of the observer, and the wire form of event names: broadcasts carry the eight queued names and any other name.
- Rendering of numbers in error texts beyond the characters they may hold; exception messages elsewhere are not modelled.
- Text outside ASCII in case folding, stripping and decimal digits.
- The order of `removed` in a sync report (alphabetical in the source): the model reports the set.
- Polling.WaitForState: a polling interval of 0 is not modelled, because on an ideal clock instantaneous answers would then never use up the budget.
- Registry.ScriptTools.SyncExposedTools: the manifest's loading and the scripts' contract checks are an outcome per name.
- Grid.Collector.Collect: driving a model, scoring and seeding are an outcome per attempt; only its effect on the log is modelled.
- Gates.Evaluate: the individual gates other than the sequence gate are given outcomes.
- JavaScript comments, regular-expression literals and nested template expressions in scanned code; the scanner knows none of them, and brackets of different kinds close each other.
- `estimate_batch_seconds`, `classify_stream_error`, condition filters, register names, value staleness and error mapping: each is settled by reading one body.
- Process launch, port probing, prompts, resources, command lines and report layout.
