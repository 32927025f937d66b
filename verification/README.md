# Verified models of qwen-web-arwaky

Dafny models of the stateful parts of the repository, with proofs. The background job pool, the prompt dispatch, the
targeted cancel and the session pool are modelled as protocols: a class for each object the source mutates, and a state
machine whose actions are the single steps that threads and processes can interleave. The table layout, the issue
parser, the dependency walks and the metrics file are modelled as methods proved against independent specifications.

| file | models |
|---|---|
| `Common.dfy` | options, and counting over maps |
| `JobRecords.dfy`, `JobNaming.dfy`, `JobStorage.dfy` | job records, their file names, the store and the zombie sweep |
| `JobAdmission.dfy` | admission semaphore and in-flight deque, over all interleavings of submissions |
| `JobLifecycle.dfy` | one job: worker, heartbeat thread, sweepers, cleanup, crash and clock, interleaved |
| `LifecycleGate.dfy` | the strict predecessor gate, its roll-back, and the event bus |
| `SendDispatcher.dfy`, `StreamMonitor.dfy`, `PromptFlowDispatcher.dfy` | send and acknowledgment, response polling, and the retrying dispatch loop |
| `RunCancelRegistry.dfy` | the cancel registry, and its lock sections interleaved |
| `SessionRecords.dfy`, `SessionManager.dfy`, `SessionPoolRuns.dfy` | session entries and changes, the manager over the pool file, and processes sharing that file |
| `SessionRotator.dfy` | rotation over the pool |
| `TableLayout.dfy` | column widths, truncation and rendered lines |
| `MarkdownEscapes.dfy`, `IssueParser.dfy` | escape stripping, the report parser and de-duplication |
| `DependencyWalks.dfy` | the bounded walk, the worklist, and the code fence |
| `MetricsCounter.dfy` | the write-behind metrics file |

## Assumptions

- Time is an integer. Clocks advance between two polls of a loop. A sweep reads the clock and the set of live processes once.
- Page contents, exceptions, clock readings, cancel tokens, probe verdicts, directory listings and the order in which a
  set is iterated are arbitrary; they enter as parameters or as nondeterministic choices.
- Writes of records, pool and metrics replace a file atomically and do not raise. JSON encoding and decoding of the
  fields are inverse. The digest in a file name has length 12 and safe characters.
- The executor is not shut down while jobs are admitted, the rate limiter does not raise, and joining the heartbeat
  thread really ends it (the source waits at most one lease for it).
- Run ids are distinct, and a browser context belongs to the run that opened it.
- A path carries the directory it resolves to, and that does not change during a run. Session id suffixes use ASCII digits.
- The lines of a report are already classified, as its patterns classify them.

## Where the code and its documentation part

Each of these is proved of the model, by the member named.

- Half a lease between beats leaves half a lease of slack, which the time from taking a stamp to the next wait, the
  lateness of a beat and the time from the stop to the terminal write share; the documentation claims that a live worker is
  never seen as stale (`SparedExactlyWhenTolerated`, `SlowStartAndLateBeatAreReaped`).
- Nothing beats while a job is queued, so a live job that waits longer than the lease is failed by a sweep, and then made
  incomplete again when it starts (`OverdueQueuedJobIsReapedThenReopened`). A sweep that had decided before the start can
  overwrite the later success (`PendingSweepOverwritesSuccess`, and exactly then: `ResultCanChangeExactlyWhenASweepIsPending`).
- The reported queue depth counts file jobs only, and a guard rejection or an attachment job pops the element of another
  job (`DepthIsBoundedByFileJobs`, `AttachmentJobsAreNotCounted`).
- A directory scan does not reach the record of the empty job id (`ScanReadsItsOwnFile`).
- A gated run refuses the second click event, so a click repeated after a missed acknowledgment always fails (`ClickSend`).
- The periodic reload happens only before the first accepted text: the text at the last reload is never recorded as
  anything but absent (`WaitForResponse`).
- `cancel_run` says that the event of a finished run is set all the same; the code returns without setting it
  (`UninterruptedCancel`). A cancel by event can miss the live successor
  (`CancelCanMissASuccessor`, with the exact condition in `CancelStopsTheLiveRunExactlyWhenStillLatest`).
- `mark_limited(None)` says it stores `QUOTA`; the code stores the absent reason (`MarkStatus`, `UpdatesTouchOnlyTheirSession`).
- A path added under a second spelling of a known directory is registered twice (`OperationsKeepDirsUnique` gives the exact
  condition). A removed session whose profile directory remains is registered again by the next load
  (`RemovedProfileComesBack`).
- The round-robin index moves in a loaded copy that is never saved (`RoundRobinStandsStill`).
- A request sent with rotation counts two attempts (`ExecuteWithRotation`).
- A truncated cell is one column narrower than documented when a wide character straddles the cut (`TruncatedWidth`).
  The status column is documented never to truncate its longest cell; it does below 46 and 52 columns
  (`LongestStatusIsWholeExactlyFrom`).
- Text below acceptance criteria and recommendations is dropped (`SectionsKeepTheirProseOrNone`), and so is everything in a
  fence that is not closed (`UnclosedFenceIsLost`).
- The files found by the worklist can depend on the iteration order of a set, by a nested package that only a symbol leads
  to (`OrderCanMatter`); a round is the same in every order exactly when no package file is contested in it
  (`RoundIsDeterminedExactlyWhenUncontested`).
- The count of metric mutations is never reset, so from the 64th on every one is written at once (`MarkDirty`).

## Model

| member | source | states |
|---|---|---|
| `JobRecords.StampsHoldForOneLease` | modules/jobs/src/capabilities_job_storage.py:181-213 | A stamp is stale strictly after one lease, a missing one is measured from the creation time, a corrupt one is stale |
| `JobRecords.StartTakesTheRecordOver` | modules/jobs/src/agent_job_orchestrator.py:285-310 | The start keeps the record but for its stamps, a given attachment and an empty event, and clears what an end has left |
| `JobRecords.BeatChangesTheStampOnly` | modules/jobs/src/agent_job_orchestrator.py:312-338 | A beat on a record in progress changes its stamp and nothing else |
| `JobNaming.SafeCharactersAreAFewRanges` | modules/jobs/src/capabilities_job_storage.py:33-34 | The ends of the safe ranges are safe, and their neighbours, separators and blanks are not |
| `JobNaming.DotsAtTheEndsBelongToTheStem` | modules/jobs/src/capabilities_job_storage.py:141-144 | A dot that opens or ends a file name is part of its stem |
| `JobNaming.StemIsSafe` | modules/jobs/src/capabilities_job_storage.py:274-289 | A stem holds only safe characters, has at most 200 of them, and is empty only for the empty id |
| `JobNaming.StemIsIdempotent` | modules/jobs/src/capabilities_job_storage.py:274-289 | Naming a stem again gives the same stem, for every id |
| `JobNaming.ScanReadsItsOwnFile` | modules/jobs/src/capabilities_job_storage.py:141-144 | A scan by stem reads a record back from its own file exactly when its id is not empty |
| `JobNaming.GeneratedIdsHaveTheirOwnFiles` | modules/jobs/src/capabilities_job_storage.py:274-289 | Two safe short ids share a file only when they are equal |
| `JobNaming.UnsafeIdSharesAFile` | modules/jobs/src/capabilities_job_storage.py:274-289 | Any other short id shares the file of the id it is cleaned to |
| `JobStorage.SweepClosesExactlyTheZombies` | modules/jobs/src/capabilities_job_storage.py:130-178 | A sweep completes with the right error exactly the incomplete owned records whose owner is dead or whose stamp is past the lease, keeps their other fields, and changes no other record |
| `JobStorage.SweepIsIdempotent` | modules/jobs/src/capabilities_job_storage.py:130-178 | A second sweep at the same instant finds and changes nothing |
| `JobStorage.SweepsAccumulate` | modules/jobs/src/capabilities_job_storage.py:130-213 | Two sweeps close what the first found and, of the rest, what has become a zombie since |
| `JobStorage.JobStorage.SaveJob` | modules/jobs/src/capabilities_job_storage.py:70-77 | Exactly the file named from the record's id is replaced, and every file stays named from its record's id |
| `JobStorage.JobStorage.ReadJob` | modules/jobs/src/capabilities_job_storage.py:103-128 | The record in the file named from the id; none when absent or unreadable |
| `JobStorage.JobStorage.SweepFile` | modules/jobs/src/capabilities_job_storage.py:141-177 | One listed file is read by stem and written back through its own id to that same file |
| `JobStorage.JobStorage.ReconcileZombies` | modules/jobs/src/capabilities_job_storage.py:130-178 | In any scan order the directory becomes the swept one, and the answer is the number of zombies |
| `JobStorage.JobStorage.GetJob` | modules/jobs/src/capabilities_job_storage.py:54-68 | The first read of a store sweeps, later ones only read |
| `JobAdmission.JobQueue.ReserveCapacity` | modules/jobs/src/agent_job_orchestrator.py:93-108 | A slot is taken when one is free, otherwise the refusal carries the depth and nothing changes |
| `JobAdmission.JobQueue.ReleaseCapacity` | modules/jobs/src/agent_job_orchestrator.py:110-118 | One slot is returned and the deque popped, without underflow |
| `JobAdmission.JobQueue.AdmitSubmission` | modules/jobs/src/agent_job_orchestrator.py:202-219 | A submission takes a slot and goes on, or is refused for want of one, or gives the slot back when the guard rejects it, by the same three functions as the protocol's steps |
| `JobAdmission.JobQueue.DispatchJob` | modules/jobs/src/agent_job_orchestrator.py:236-243 | A file job enters the deque, an attachment job does not |
| `JobAdmission.Capacity` | modules/jobs/src/agent_job_orchestrator.py:78-83 | The permits are the configured number, but at least one |
| `JobAdmission.NoSubmissionIsStuck` | modules/jobs/src/agent_job_orchestrator.py:202-283 | A held slot can be given back or dispatched, dispatched work can finish, and a new submission is admitted or refused |
| `JobAdmission.SlotsAreConserved` | modules/jobs/src/agent_job_orchestrator.py:83-118 | In every interleaving free and held slots make up the capacity, each finished or rejected submission returned its slot exactly once, and refusal means that all are held |
| `JobAdmission.DepthIsBoundedByFileJobs` | modules/jobs/src/agent_job_orchestrator.py:110-128 | The depth is the unfinished file jobs less foreign pops plus missed ones, hence never more than the unfinished jobs, and equals them exactly when no attachment job is unfinished and pops balance misses |
| `JobAdmission.DepthIsExactForFileJobs` | modules/jobs/src/agent_job_orchestrator.py:120-128 | With file jobs only and no rejection the depth is the number of dispatched unfinished jobs |
| `JobAdmission.AttachmentJobsAreNotCounted` | modules/jobs/src/agent_job_orchestrator.py:245-283 | A pool full of attachment jobs refuses with depth zero |
| `JobLifecycle.OneTerminalOneReport` | modules/jobs/src/agent_job_orchestrator.py:433-490 | Over every interleaving the worker writes one complete terminal record and sends one report; after an exception or a failing text both say failure, with that text, and otherwise success, with the preview |
| `JobLifecycle.TerminalIsStampedWhenWritten` | modules/jobs/src/agent_job_orchestrator.py:340-402 | The terminal record carries the time of the step that wrote it, and its duration |
| `JobLifecycle.IncompleteMeansInProgress` | modules/jobs/src/agent_job_orchestrator.py:285-338 | In every reachable state an incomplete record shows the start once there is one, and nothing of an end |
| `JobLifecycle.IdentityIsKept` | modules/jobs/src/agent_job_orchestrator.py:285-402 | Job id, creation time, owner and paths stay as submitted, unless the record was deleted before the start |
| `JobLifecycle.FinishedIsFinal` | modules/jobs/src/agent_job_orchestrator.py:492-520 | After the terminal write no run adds a terminal record or a report |
| `JobLifecycle.TerminalStaysComplete` | modules/jobs/src/agent_job_orchestrator.py:312-338 | After the terminal write no step of any thread or process makes the record incomplete |
| `JobLifecycle.LiveJobIsReapedExactlyWhenOverdue` | modules/jobs/src/capabilities_job_storage.py:144-155 | In every reachable state the incomplete record of a live owner is a zombie exactly when its last stamp is more than a lease old |
| `JobLifecycle.LeaseSafety` | modules/jobs/src/agent_job_orchestrator.py:492-520 | Within tolerated bounds on queue wait, stamp-to-wait gap, lateness of a beat and stop-to-terminal time, no sweep in any process decides on the live job |
| `JobLifecycle.OnTimeJobIsNeverReaped` | modules/jobs/src/agent_job_orchestrator.py:492-520 | From submission on, the record of such a job is completed only by its own terminal write |
| `JobLifecycle.SparedExactlyWhenTolerated` | modules/jobs/src/agent_job_orchestrator.py:441-520 | Every timely run is spared by all sweeps exactly when queue wait and start fit one lease, and gap, lateness and tail together fit half a lease |
| `JobLifecycle.RunningJobIsSparedExactlyWhenTolerated` | modules/jobs/src/agent_job_orchestrator.py:513-520 | Until the stop, the same holds of gap and lateness alone |
| `JobLifecycle.SlowStartAndLateBeatAreReaped` | modules/jobs/src/agent_job_orchestrator.py:442-446 | Ten seconds from the start stamp to the first wait and a beat 85 seconds late get a running job failed |
| `JobLifecycle.CrashedJobIsReclaimed` | modules/jobs/src/capabilities_job_storage.py:130-178 | One sweep reclaims the record of a crashed owner exactly when the process id is gone or the stamp is past the lease |
| `JobLifecycle.OverdueQueuedJobIsReapedThenReopened` | modules/jobs/src/agent_job_orchestrator.py:441-446 | A live job queued for more than a lease is failed by a sweep, and reopened when it starts |
| `JobLifecycle.OnlyStartOrBeatReopens` | modules/jobs/src/agent_job_orchestrator.py:285-338 | Only start and beat reopen a record, never after the terminal write, and only what a sweep had failed |
| `JobLifecycle.ResultIsSafeWithoutPendingSweep` | modules/jobs/src/agent_job_orchestrator.py:340-402 | A terminal record stays as written when no sweep had decided before it and nobody deletes it |
| `JobLifecycle.ResultCanChangeExactlyWhenASweepIsPending` | modules/jobs/src/capabilities_job_storage.py:144-176 | In every reachable state in which the terminal record stands, some continuation without a deletion replaces it exactly when a sweep has decided and not written |
| `JobLifecycle.PendingSweepOverwritesSuccess` | modules/jobs/src/capabilities_job_storage.py:144-176 | A sweep that decided while the job was queued overwrites a later success |
| `JobLifecycle.OneBeatStampsAndWaits` | modules/jobs/src/agent_job_orchestrator.py:513-520 | A waiting heartbeat wakes exactly when its wait is over and it was not stopped; undisturbed it stamps an incomplete record only, and waits half a lease |
| `JobLifecycle.EveryJobCanFinish` | modules/jobs/src/agent_job_orchestrator.py:433-520 | No interleaving blocks a job: from every reachable state its own threads can finish it |
| `JobLifecycle.RecycledPidHidesTheCrash` | modules/jobs/src/capabilities_job_storage.py:130-178 | After a crash a sweep decides at once, but once another process has the pid only when the last stamp is past the lease |
| `LifecycleGate.LifecycleGate.Validate` | modules/shared/src/common/taxonomy_core_entity.py:311-332 | An event is accepted exactly when it is new and follows its predecessor; otherwise only the rejection is recorded |
| `LifecycleGate.LifecycleGate.Reset` | modules/shared/src/common/taxonomy_core_entity.py:334-362 | Exactly the seeds whose events all follow are restored, and rejections are cleared |
| `LifecycleGate.Emitter.Emit` | modules/shared/src/common/taxonomy_core_entity.py:429-466 | An event goes out exactly when there is no gate or the gate accepts it |
| `LifecycleGate.GateFollowsItsSequence` | modules/shared/src/common/taxonomy_core_entity.py:279-332 | A gate holding a prefix of its sequence accepts the next event, any foreign event, and no other |
| `LifecycleGate.AcceptedKeepsPrefix` | modules/shared/src/common/taxonomy_core_entity.py:279-332 | The gate stays a prefix of its sequence exactly when the accepted event belongs to it |
| `LifecycleGate.ForeignEventJamsTheGate` | modules/shared/src/common/taxonomy_core_entity.py:311-332 | After progress and a foreign event no event of the sequence is accepted again |
| `SendDispatcher.OnlyGrowthIsEvidence` | modules/prompt_runtime/src/capabilities_send_dispatcher.py:165-175 | One message or user message more, or another text that is not blank, is evidence; what was there before is not, however it shrinks |
| `SendDispatcher.WaitForDispatchAck` | modules/prompt_runtime/src/capabilities_send_dispatcher.py:139-178 | Yes exactly when some poll before the deadline shows a grown count or a changed text against the baseline, and a raise exactly when a pause raises first |
| `SendDispatcher.ClickOnce` | modules/prompt_runtime/src/capabilities_send_dispatcher.py:102-134 | One click event, then an acknowledgment event only after evidence against the baseline taken before that click; silence, a toast and a browser error are told apart |
| `SendDispatcher.ClickSend` | modules/prompt_runtime/src/capabilities_send_dispatcher.py:52-137 | The trace is clicks and, when sent, one acknowledgment; sent only when the last round was acknowledged, a browser error exactly when one was raised before or after the click, every earlier round was held back by a toast, and a gate lets one click through |
| `StreamMonitor.WaitForResponse` | modules/prompt_runtime/src/capabilities_stream_monitor.py:284-435 | The loop ends within the smaller ceiling with the verdict of the first poll that has one, has emitted exactly what the polls called for, in order, and has reloaded exactly at the polls due, at least 30 seconds apart |
| `StreamMonitor.CompleteMeansSettled` | modules/prompt_runtime/src/capabilities_stream_monitor.py:342-365 | A returned text is new against the baseline and repeated by the last accepted readings, on a poll where generation is over |
| `StreamMonitor.StuckMeansSilence` | modules/prompt_runtime/src/capabilities_stream_monitor.py:381-400 | Stuck means a full stall window without thinking start or text change, and carries the last accepted text |
| `StreamMonitor.LiveRunIsNeverStuck` | modules/prompt_runtime/src/capabilities_stream_monitor.py:381-400 | A run that moved within the stall window is never called stuck |
| `StreamMonitor.AcceptedDifferFromBaseline` | modules/prompt_runtime/src/capabilities_stream_monitor.py:342-342 | Every accepted text is long enough and differs from the baseline |
| `StreamMonitor.ReadingsAreAcceptedFromTheMinimumOn` | modules/shared/src/common/utility_core_events.py:11-17 | A text is accepted from the minimal length on unless it is the baseline |
| `StreamMonitor.AcceptedTextsAreThePolls` | modules/prompt_runtime/src/capabilities_stream_monitor.py:342-375 | The accepted texts are those of the accepted polls, one for each and in order |
| `StreamMonitor.CeilingsComeAtTheirBounds` | modules/prompt_runtime/src/capabilities_stream_monitor.py:304-324 | Cancellation comes first, the safety ceiling from its bound on, then the hard one; both carry the text of the latest accepted poll, and none exactly when there is none |
| `StreamMonitor.CompletesExactlyWhenSettled` | modules/prompt_runtime/src/capabilities_stream_monitor.py:342-365 | Below the ceilings a poll completes with a text exactly when that has settled, generation is over and it validates; otherwise validation decides |
| `StreamMonitor.StuckExactlyWhenSilent` | modules/prompt_runtime/src/capabilities_stream_monitor.py:381-400 | Below the ceilings a reading poll that does not end the wait is stuck exactly when a full stall window was silent, and carries the latest accepted text |
| `StreamMonitor.EventsTellWhatWasSeen` | modules/prompt_runtime/src/capabilities_stream_monitor.py:331-375 | Thinking is announced exactly when a poll has shown it or a response, streaming exactly when a response has come |
| `StreamMonitor.ReloadsExactlyWhenDue` | modules/prompt_runtime/src/capabilities_stream_monitor.py:402-435 | A poll that goes on reloads exactly when it reads, no response has been accepted yet, and half a minute has passed since start, last reload and last exception |
| `PromptFlowDispatcher.DispatchOnce` | modules/prompt/src/capabilities_prompt_flow_dispatcher.py:219-292 | The events of one attempt are a prefix of inject, clicks, acknowledge, think, stream, finish; from the acknowledgment on the result is the monitor's outcome: a stall, throttling, a missed ceiling and a cancellation are told apart, each exactly, and an answer is a complete text that is not blank |
| `PromptFlowDispatcher.AttemptAndRollBack` | modules/prompt/src/capabilities_prompt_flow_dispatcher.py:108-182 | The decision after an attempt is the budgets' one; a retry finds the gate cut at the boundary, and a gate that holds a history always takes that seed |
| `PromptFlowDispatcher.DispatchAndWait` | modules/prompt/src/capabilities_prompt_flow_dispatcher.py:95-187 | At most three attempts and at most budget stall retries; an attempt is followed by another exactly when it failed retriably, was not cancelled and its own budget has room; the last one tells how the run ends; the trace is the attempts' events; all attempts start alike exactly when the first starts at the boundary, or before it and none that was retried emitted |
| `PromptFlowDispatcher.NextAttempt` | modules/prompt/src/capabilities_prompt_flow_dispatcher.py:102-182 | One pass of the loop extends the record and places the gate for the next |
| `PromptFlowDispatcher.Attempts` | modules/prompt/src/capabilities_prompt_flow_dispatcher.py:95-182 | Every attempt before the last was retried, the budgets hold, and each starts where the roll-back put the gate |
| `PromptFlowDispatcher.RunEndsWithItsLastAttempt` | modules/prompt/src/capabilities_prompt_flow_dispatcher.py:102-187 | A verdict or error is the last attempt's, a cancellation follows a retriable failure, and all earlier attempts failed retriably within the stall budget |
| `PromptFlowDispatcher.GoesOnExactlyWhenWorthIt` | modules/prompt/src/capabilities_prompt_flow_dispatcher.py:121-182 | Told from the monitor's outcomes, a stall spends the stall budget and another retriable failure an attempt, and nothing else is sent again |
| `PromptFlowDispatcher.StallWithoutBudgetIsTheLast` | modules/prompt/src/capabilities_prompt_flow_dispatcher.py:121-129 | Without a stall budget a stall is never sent again |
| `PromptFlowDispatcher.RunEndsLikeItsLastAttempt` | modules/prompt/src/capabilities_prompt_flow_dispatcher.py:183-187 | An answer is returned, a failure raised, or a cancellation exactly when the loop was left on one or after a stall with room, and the token is set |
| `PromptFlowDispatcher.RollbackRestoresExactlyAtTheBoundary` | modules/prompt/src/capabilities_prompt_flow_dispatcher.py:135-138 | The cut restores what the attempt found exactly when that ends at the boundary, or before it and nothing was emitted |
| `PromptFlowDispatcher.RetryIsAcceptedExactlyWhen` | modules/prompt/src/capabilities_prompt_flow_dispatcher.py:164-177 | The gate takes the seed, and accepts the injection of a retry exactly when the seed is what the attempt found, or was longer and the injection has no predecessor |
| `PromptFlowDispatcher.RollbackRestores` | modules/prompt/src/capabilities_prompt_flow_dispatcher.py:135-138 | From any prefix of a sequence split at the injection, the cut restores it |
| `PromptFlowDispatcher.StartsStayExactlyWhen` | modules/prompt/src/capabilities_prompt_flow_dispatcher.py:189-217 | All attempts of a run start alike exactly under that condition |
| `PromptFlowDispatcher.BoundaryIsWhereAttemptsBegin` | modules/prompt/src/capabilities_prompt_flow_dispatcher.py:189-217 | The cut is right behind the first parse event, without one right before the first injection, with neither at 0 |
| `PromptFlowDispatcher.BoundaryIsTheInjection` | modules/prompt/src/capabilities_prompt_flow_dispatcher.py:190-217 | The boundary is the injection's place exactly when no parse event is configured or it comes right before the injection |
| `PromptFlowDispatcher.SplitsAtTheInjection` | modules/shared/src/common/taxonomy_core_event.py:73-101 | A sequence of the shape of either configured pipeline is split exactly at the injection |
| `RunCancelRegistry.Registry.Register` | modules/prompt/src/capabilities_run_cancel_registry.py:48-66 | The run is tracked, and supersedes whichever run the event pointed at |
| `RunCancelRegistry.Registry.Release` | modules/prompt/src/capabilities_run_cancel_registry.py:68-78 | The run is dropped, and the event's mapping only when it still points at this run |
| `RunCancelRegistry.Registry.CancelRun` | modules/prompt/src/capabilities_run_cancel_registry.py:98-123 | Stops exactly a registered run, by its event and its context, and can change nothing else |
| `RunCancelRegistry.Registry.CancelByEvent` | modules/prompt/src/capabilities_run_cancel_registry.py:125-139 | Acts on the run the index names, and on nothing else |
| `RunCancelRegistry.IndexIsTheLiveLatest` | modules/prompt/src/capabilities_run_cancel_registry.py:36-78 | In every interleaving the index maps an event to a run exactly when it is the latest registered with the event and not released |
| `RunCancelRegistry.ReleaseNeverHidesASuccessor` | modules/prompt/src/capabilities_run_cancel_registry.py:68-78 | Releasing one run leaves every other run registered, and every event's live run where the index finds it |
| `RunCancelRegistry.CancelsTouchOnlyTheirRuns` | modules/prompt/src/capabilities_run_cancel_registry.py:98-123 | The set events are exactly those of the runs cancels acted on, and the closed contexts were opened by those runs |
| `RunCancelRegistry.UninterruptedCancel` | modules/prompt/src/capabilities_run_cancel_registry.py:98-123 | An uninterrupted cancel stops the run exactly when it is registered, and otherwise changes nothing |
| `RunCancelRegistry.UninterruptedCancelByEvent` | modules/prompt/src/capabilities_run_cancel_registry.py:125-139 | A cancel by event resolves to the event's live latest run, or to none |
| `RunCancelRegistry.CancelStopsTheLiveRunExactlyWhenStillLatest` | modules/prompt/src/capabilities_run_cancel_registry.py:125-139 | Over any interleaving, a cancel by event stops the run it resolved exactly when that is registered at the second lookup, and the live run exactly when it is still the latest |
| `RunCancelRegistry.CancelCanMissASuccessor` | modules/prompt/src/capabilities_run_cancel_registry.py:136-139 | Between its two lookups a cancel by event can lose its run and miss the live successor |
| `RunCancelRegistry.SharedEventReachesBothRuns` | modules/prompt/src/capabilities_run_cancel_registry.py:98-123 | Cancelling a superseded run sets the event its live successor polls |
| `SessionRecords.NextIdIsFresh` | modules/session/src/capabilities_session_manager.py:112-125 | The generated id reads back as the next number and is the id of no entry |
| `SessionRecords.DiscoveryRegistersWhatIsUnknown` | modules/session/src/capabilities_session_manager.py:127-147 | Discovery leaves every entry in place and makes known exactly the directories found |
| `SessionRecords.DiscoveryIsQuietWhenAllIsKnown` | modules/session/src/capabilities_session_manager.py:127-147 | Nothing is registered exactly when every directory is known |
| `SessionRecords.DiscoveryIsIdempotent` | modules/session/src/capabilities_session_manager.py:127-147 | Discovering the same directories again changes nothing |
| `SessionRecords.DiscoveryKeepsUniqueness` | modules/session/src/capabilities_session_manager.py:127-147 | Ids and directories stay unique |
| `SessionRecords.OperationsKeepIdsUnique` | modules/session/src/capabilities_session_manager.py:209-286 | No operation on the pool makes two entries share an id |
| `SessionRecords.OperationsKeepDirsUnique` | modules/session/src/capabilities_session_manager.py:209-259 | Entries keep different directories exactly unless a known directory is added under a new spelling |
| `SessionRecords.SecondSpellingIsRegisteredTwice` | modules/session/src/capabilities_session_manager.py:217-233 | Two spellings of one directory end as two entries |
| `SessionRecords.UpdatesTouchOnlyTheirSession` | modules/session/src/capabilities_session_manager.py:394-420 | A status change or a use changes the named fields of its session and nothing else |
| `SessionRecords.AdditionsRenameOrAppend` | modules/session/src/capabilities_session_manager.py:217-259 | Adding renames the first entry with the path and importing keeps it; without one a new entry is appended, never used and awaiting a login |
| `SessionRecords.RemovalsDropTheFirst` | modules/session/src/capabilities_session_manager.py:261-286 | The first entry with the id, or the name, is taken out, and nothing else |
| `SessionRecords.DiscoveredEntriesAwaitLogin` | modules/session/src/capabilities_session_manager.py:127-147 | Every entry appended is one of the directories found, not known before, under its own name and awaiting a login |
| `SessionRecords.RemovedProfileComesBack` | modules/session/src/capabilities_session_manager.py:261-268 | A removed session whose directory remains is registered anew by the next load |
| `SessionManager.LoadUndoesSave` | modules/session/src/capabilities_session_manager.py:74-110 | Loading gives back the saved pool, whenever it happens |
| `SessionManager.SessionManager.LoadPoolFromFile` | modules/session/src/capabilities_session_manager.py:74-110 | The stored pool; an absent or corrupt file reads as empty, and a corrupt one is moved away |
| `SessionManager.SessionManager.NextSessionId` | modules/session/src/capabilities_session_manager.py:112-125 | The loop computes the fresh id |
| `SessionManager.SessionManager.RegisterDiscoveredProfiles` | modules/session/src/capabilities_session_manager.py:127-147 | The loop computes the discoveries, and counts them |
| `SessionManager.SessionManager.LoadPoolUnderLock` | modules/session/src/capabilities_session_manager.py:67-72 | The pool with discoveries; the file is rewritten when something was discovered |
| `SessionManager.SessionManager.LoadPool` | modules/session/src/capabilities_session_manager.py:52-65 | The unlocked load ends in the same pool and file |
| `SessionManager.SessionManager.AddSession` | modules/session/src/capabilities_session_manager.py:209-233 | The first entry with the path is renamed, or a fresh one appended; the answer is that entry |
| `SessionManager.SessionManager.ImportBraveProfile` | modules/session/src/capabilities_session_manager.py:235-259 | A known target is returned as it stands without cloning; otherwise a fresh entry is appended |
| `SessionManager.SessionManager.Remove` | modules/session/src/capabilities_session_manager.py:261-286 | Succeeds exactly when an entry matches, drops the first such entry, and otherwise saves discoveries only |
| `SessionManager.SessionManager.MarkStatus` | modules/session/src/capabilities_session_manager.py:394-413 | The status of the first entry with the id is set, and the pool saved |
| `SessionManager.SessionManager.MarkUsed` | modules/session/src/capabilities_session_manager.py:415-420 | The use is counted on the entries with the id, and the pool saved |
| `SessionManager.SessionManager.NextHealthySession` | modules/session/src/capabilities_session_manager.py:390-392 | The first healthy session from the stored index round; nothing but discoveries is saved |
| `SessionManager.EveryPlaceIsVisited` | modules/shared/src/session/taxonomy_session_vo.py:144-157 | The places from any stored index on, taken round, are all the places |
| `SessionManager.RoundRobinStandsStill` | modules/session/src/capabilities_session_manager.py:390-392 | Two calls in a row over the file answer with the same session, as long as the second finds no new profile |
| `SessionManager.LoadSettles` | modules/session/src/capabilities_session_manager.py:52-72 | What a load leaves on disk loads as what it returned, and is not rewritten again |
| `SessionManager.ChangesAreLoaded` | modules/session/src/capabilities_session_manager.py:424-433 | The next load starts from exactly what an operation saved |
| `SessionPoolRuns.UpdatesAreSerializable` | modules/session/src/capabilities_session_manager.py:424-433 | Over every interleaving of reads, saves, releases and crashes the file holds what the changes make of the initial pool, applied one after the other in lock order |
| `SessionPoolRuns.PoolStaysUnique` | modules/session/src/capabilities_session_manager.py:209-286 | In every reachable state ids are unique, and directories while no alias was added |
| `SessionPoolRuns.UndisturbedOperation` | modules/session/src/capabilities_session_manager.py:218-233 | The steps of one operation amount to its atomic effect, and free the lock |
| `SessionPoolRuns.StepsHaveTheirPhase` | modules/session/src/capabilities_session_manager.py:52-72 | Steps are taken exactly in their phase, a look asks for the lock exactly when it discovers something, and a crash frees the lock and leaves the file |
| `SessionRotator.CandidatesAreThePool` | modules/session/src/capabilities_session_rotator.py:101-101 | For every stored index, negative or too large included, the probe order is a permutation of the pool |
| `SessionRotator.CandidatesStartAtTheIndex` | modules/session/src/capabilities_session_rotator.py:101-101 | The pass starts at the stored index and wraps; a negative index counts from the end, one beyond either end starts at the first session |
| `SessionRotator.SessionRotator.Rotate` | modules/session/src/capabilities_session_rotator.py:73-125 | The answer, the probes made, the marks saved and the metrics of one rotation |
| `SessionRotator.SessionRotator.ProbeInOrder` | modules/session/src/capabilities_session_rotator.py:103-115 | The loop stops at the first healthy candidate that is not excluded, having probed each earlier one once and saved every verdict |
| `SessionRotator.SessionRotator.ExecuteWithRotation` | modules/session/src/capabilities_session_rotator.py:144-167 | On top of what the rotation saved, a use is counted exactly for an answered request; each call counts one attempt too many |
| `SessionRotator.NoneExactlyWhenNoneIsHealthy` | modules/session/src/capabilities_session_rotator.py:103-125 | No session exactly when none outside the excluded ones is healthy, and the excluded ones are blamed exactly when nothing else is there |
| `SessionRotator.FirstHealthyIsAnswered` | modules/session/src/capabilities_session_rotator.py:103-111 | The first healthy session in order that is not excluded is answered, and nothing behind it is passed |
| `SessionRotator.ProbedOnce` | modules/session/src/capabilities_session_rotator.py:103-106 | Exactly the passed candidates that are not excluded are probed, each once and in order |
| `SessionRotator.RotationSavesItsVerdicts` | modules/session/src/capabilities_session_rotator.py:98-125 | In the file a rotation leaves, whenever it is loaded, every probed session carries its verdict and every other entry is untouched |
| `TableLayout.Fit` | modules/cli/src/surface_cli_sessions_command.py:77-96 | The text itself when it fits, otherwise its longest prefix that leaves room for the marker |
| `TableLayout.TruncatedWidth` | modules/cli/src/surface_cli_sessions_command.py:77-96 | A truncated cell takes the width, or one column less exactly when a wide character straddles the cut |
| `TableLayout.CutCellsEndInTheMarker` | modules/cli/src/surface_cli_sessions_command.py:77-96 | A cell that fits is kept, one that does not is its beginning and the marker |
| `TableLayout.ColumnWidths` | modules/cli/src/surface_cli_sessions_command.py:256-282 | The widths fit the budget as specified by sum, floors and fairness |
| `TableLayout.NaturalWidths` | modules/cli/src/surface_cli_sessions_command.py:258-261 | Each column is as wide as its widest cell, and no narrower than its floor |
| `TableLayout.SqueezeToFloors` | modules/cli/src/surface_cli_sessions_command.py:265-271 | Columns give way to their floors, widest first; what is left over leaves all at their floors |
| `TableLayout.ShaveWidest` | modules/cli/src/surface_cli_sessions_command.py:272-281 | Below the floors the widest gives way, to the exact sum or to one column each |
| `TableLayout.FittedIsUnique` | modules/cli/src/surface_cli_sessions_command.py:256-282 | Sum, floors and fairness admit exactly one list of widths |
| `TableLayout.FloorsBeforeShaving` | modules/cli/src/surface_cli_sessions_command.py:265-281 | No column is below its floor while another is above, and one below is at most one narrower than any other |
| `TableLayout.ShavedExactlyWhenFloorsOverflow` | modules/cli/src/surface_cli_sessions_command.py:272-281 | Some column is below its floor exactly when the floors alone exceed the budget and can still give way |
| `TableLayout.Line` | modules/cli/src/surface_cli_sessions_command.py:244-247 | A row is its own cells, each fitted and padded on the right, two spaces in between, and takes exactly the widths and the gaps |
| `TableLayout.CellStandsInItsColumn` | modules/cli/src/surface_cli_sessions_command.py:244-247 | Every cell stands whole at the display column where its own column begins, in every row alike |
| `TableLayout.Available` | modules/cli/src/surface_cli_sessions_command.py:238-238 | The columns given are the budget, or else the terminal's, but at least twenty |
| `TableLayout.RenderPoolTable` | modules/cli/src/surface_cli_sessions_command.py:223-253 | Between two equal rules stand the lines of the rows, one for each and in order, all equally wide; they fit the available width exactly when every column can have one display column; the rule always fits and is at most one column short |
| `TableLayout.HighestFloorGivesWayFirst` | modules/cli/src/surface_cli_sessions_command.py:272-281 | The column with the highest floor keeps it exactly while the budget covers all floors |
| `TableLayout.LongestStatusIsWholeExactlyFrom` | modules/cli/src/surface_cli_sessions_command.py:37-45 | The longest status cell is whole exactly from 46 columns (list) and 52 columns (status) on |
| `MarkdownEscapes.StripMdEscapes` | scripts/swarm_to_issues.py:188-204 | Iterating to the fixed point ends, and equals one pass that deletes exactly the backslashes directly before an escapable character |
| `MarkdownEscapes.SixCharactersCanBeEscaped` | scripts/swarm_to_issues.py:198-198 | A backslash is stripped before the six characters, and kept before other punctuation, letters and blanks |
| `MarkdownEscapes.NoEscapeIsLeft` | scripts/swarm_to_issues.py:188-204 | The result holds no escape pair |
| `MarkdownEscapes.UnchangedExactlyWithoutEscapes` | scripts/swarm_to_issues.py:188-204 | A text is left alone exactly when it has no escape pair, and stripping twice is stripping once |
| `MarkdownEscapes.OnlyBackslashesAreLost` | scripts/swarm_to_issues.py:188-204 | Every character but the backslashes survives, in order |
| `IssueParser.ParseAgentOutput` | scripts/swarm_to_issues.py:233-426 | The line loop, whose field, fence and held-back lines outlive a block, yields the issues of the heading-delimited blocks, each parsed by itself, or the whole document when there is none |
| `IssueParser.FlushDraft` | scripts/swarm_to_issues.py:249-280 | The flush appends the issue and resets all but the held-back lines |
| `IssueParser.ReadLine` | scripts/swarm_to_issues.py:302-406 | One line changes the issue, the field, the fence and the held-back lines as specified |
| `IssueParser.HeadingForgets` | scripts/swarm_to_issues.py:284-300 | From whatever is left over, a heading goes on as from the beginning, behind the issues so far |
| `IssueParser.OnlyHeldBackLinesAreLeftOver` | scripts/swarm_to_issues.py:276-280 | After a flush at most the held-back lines are left, exactly when the block left a fence open |
| `IssueParser.HeldBackLinesAreNeverRead` | scripts/swarm_to_issues.py:305-318 | Outside a fence, held-back lines make no difference to anything parsed later |
| `IssueParser.ParsedIsBlockwise` | scripts/swarm_to_issues.py:282-409 | A document is parsed block by block |
| `IssueParser.NothingIsSkipped` | scripts/swarm_to_issues.py:283-303 | A block reaches to the very next heading |
| `IssueParser.BlocksAreIndependent` | scripts/swarm_to_issues.py:244-409 | From every state, parsing a document cut at a heading is parsing its parts, whatever the first leaves open |
| `IssueParser.BlockReads` | scripts/swarm_to_issues.py:282-406 | Below a heading, title, labels, description, open questions, open field and held-back lines are what the lines give, told without the reading loop |
| `IssueParser.BlockMakesAnIssueExactlyWhenTitled` | scripts/swarm_to_issues.py:249-280 | A block makes one issue exactly when its title is not empty, with the block's description and questions, labelled by role and by list or severity |
| `IssueParser.EmptyLabelsAreDropped` | scripts/swarm_to_issues.py:327-341 | Empty labels of a list are dropped, and the others kept in order |
| `IssueParser.EveryReportMakesAnIssue` | scripts/swarm_to_issues.py:408-426 | Only a blank report makes no issue; one without a titled block makes a single issue of its own role and id |
| `IssueParser.KeepFirstKeepsTheFirst` | scripts/swarm_to_issues.py:266-267 | De-duplication keeps the first element in front, so an issue's first label is its role's |
| `IssueParser.UnclosedFenceIsLost` | scripts/swarm_to_issues.py:305-318 | A fence never closed adds nothing to the issue |
| `IssueParser.ClosedFenceIsVerbatim` | scripts/swarm_to_issues.py:305-318 | A closed fence is kept as it stands and read for nothing else |
| `IssueParser.SectionsKeepTheirProseOrNone` | scripts/swarm_to_issues.py:351-400 | Text below a location or description is kept, text below the other sections is dropped |
| `IssueParser.FirstOfEachKey` | scripts/swarm_to_issues.py:442-450 | De-duplication leaves each key once, with its first bearer, and loses none |
| `IssueParser.Deduplicate` | scripts/swarm_to_issues.py:442-450 | The loop with its set of seen keys computes that |
| `IssueParser.ParseSwarmRun` | scripts/swarm_to_issues.py:429-450 | The issues of all reports, the first for each role and id |
| `DependencyWalks.ResolveTransitiveDependencies` | scripts/export_file.py:271-299 | The frontier loop returns the files within the depth |
| `DependencyWalks.WithinMeansAShortChain` | scripts/export_file.py:271-299 | A file is within depth k exactly when a chain of at most k imports leads to it from an initial file |
| `DependencyWalks.FoundByTheImports` | scripts/export_feature.py:568-607 | Scanning finds all that an import resolves to, of a wildcard the other files and what its symbols lead to, and nothing by a relative import of several packages; package files that are resolved to are noted |
| `DependencyWalks.ExpandSharedDependencies` | scripts/export_feature.py:521-620 | For every iteration order the worklist ends in a finished walk, closed under the imports of the scannable non-package files; where the package files among them come by import, it is the least set closed under those of the initial package files too |
| `DependencyWalks.FinishedWalkIsClosed` | scripts/export_feature.py:521-620 | The result holds the initial files, and all imports of every file scanned and not skipped; what is skipped is a package file some scanned file imports |
| `DependencyWalks.RoundIsDeterminedExactlyWhenUncontested` | scripts/export_feature.py:551-561 | A round ends in the same state in every order exactly when no pending package file is imported by another live file of the round |
| `DependencyWalks.UncontestedWalksAgree` | scripts/export_feature.py:551-620 | A finished walk whose rounds are all uncontested ends in the same files as every other |
| `DependencyWalks.FinishedWalkIsLeast` | scripts/export_feature.py:543-620 | A walk whose package files come by import ends in the least closed set |
| `DependencyWalks.OrderDoesNotMatterWhenPackagesComeByImport` | scripts/export_feature.py:543-561 | Where no import among the files resolves to an initial package file and no later one comes in by symbol alone, every order ends in the same files |
| `DependencyWalks.OrderCanMatter` | scripts/export_feature.py:736-809 | From one module with a wildcard import whose symbols lead through a nested package, the order of the second round decides whether a file is exported |
| `DependencyWalks.FenceDoesNotOccurInside` | scripts/export_feature.py:290-294 | The fence has at least three backticks and occurs nowhere in the content |
| `DependencyWalks.FenceIsNoLongerThanNeeded` | scripts/export_feature.py:290-294 | A fence of more than three backticks is one longer than a run the content holds |
| `MetricsCounter.LaterPruneDecides` | modules/logging/src/capabilities_metrics_counter.py:141-150 | Pruning after an earlier prune equals pruning once, later |
| `MetricsCounter.WindowHoldsTheLastDay` | modules/logging/src/capabilities_metrics_counter.py:141-150 | The window holds exactly the executions of the last day |
| `MetricsCounter.SuccessesAreCounted` | modules/logging/src/capabilities_metrics_counter.py:91-104 | The successes are the executions that succeeded, each counted once |
| `MetricsCounter.MetricsCounter.constructor` | modules/logging/src/capabilities_metrics_counter.py:127-139 | A start loads the saved counters and the executions still in the window |
| `MetricsCounter.MetricsCounter.MarkDirty` | modules/logging/src/capabilities_metrics_counter.py:121-125 | A mutation stays unsaved before the 64th of a process, and is written at once from then on |
| `MetricsCounter.MetricsCounter.Increment` | modules/logging/src/capabilities_metrics_counter.py:46-50 | The one counter grows by the amount, and memory stays what disk and unsaved mutations make up |
| `MetricsCounter.MetricsCounter.RecordExecution` | modules/logging/src/capabilities_metrics_counter.py:52-56 | The execution joins the window |
| `MetricsCounter.MetricsCounter.RecordFailure` | modules/logging/src/capabilities_metrics_counter.py:58-73 | A known category is counted under its prefix, an unknown one is ignored |
| `MetricsCounter.MetricsCounter.Persist` | modules/logging/src/capabilities_metrics_counter.py:152-173 | The file holds the counters, the pruned executions and their totals |
| `MetricsCounter.MetricsCounter.Flush` | modules/logging/src/capabilities_metrics_counter.py:111-115 | Afterwards disk and memory agree |
| `MetricsCounter.MetricsCounter.Snapshot` | modules/logging/src/capabilities_metrics_counter.py:91-104 | Counters and window totals, with no more successes than executions, and everything saved |
| `MetricsCounter.CrashLosesTheUnsaved` | modules/logging/src/capabilities_metrics_counter.py:121-139 | A crash loses exactly the unsaved mutations, fewer than 64; from a clean state a restart reads back the counters and the window |

## Left out

- Browser pages, selectors, model picker, launch and navigation: arbitrary readings stand for them.
- Command line parsing, JSON envelopes, tool schemas, dependency container, observability setup, configuration probes.
- Executor shutdown, failing writes, and a heartbeat join that runs into its timeout.
- DispatchAndWait: does not strip the echoed prompt from an answer, and omits the waiting times between attempts, the resolution of the retry budget from the configuration, and the separate `dispatch_acknowledged` flag, which a successful send always sets.
- ClickSend: the wait for an enabled send button is part of a round's arbitrary readings.
- WaitForResponse: the three page probes of a poll are one arbitrary reading.
- Partial artifacts saved after a cut (`mid_stream_cut_outcome`).
- Retention cleanup beyond the deletion of a record at any time; listing jobs by modification time; output previews.
- Rendering an issue's body, reading the manifest, and the GitHub client; a plan title only enters the body.
- PathStem: follows the stem rule of Python up to 3.13, where a trailing dot is part of the stem.
- ImportBraveProfile: the copying itself, and the choice of the target directory from the name.
- NextSessionId: a suffix of non-ASCII digits, on which the source raises, does not occur.
- UpdatesAreSerializable: the pool file is taken to be readable; the race of two processes that quarantine a corrupt file is not part of it.
- Deleting profile directories, permission repair and migration of the legacy profile.
- Snapshot: the success rate, a rounded quotient of the two totals.
- Ranking of failure counts, which only sorts.
- WidestFirst: stands for the stable descending sort of the standard library.
- RenderPoolTable: cell texts are given.
- ExpandSharedDependencies: resolution of an import statement to files is arbitrary, an import whose resolution fails is absent, and the files on disk are a given finite set.
- RoundIsDeterminedExactlyWhenUncontested: speaks of the whole state of a round; orders that differ in what they skip may still export the same files when those are reached anyway.
