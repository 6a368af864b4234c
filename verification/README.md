# Verified models of the voice agent's stateful cores

This project models the parts of the local voice agent that carry state between requests, and proves what they keep over
every run. The program's objects are Dafny classes whose methods change their fields, loops are loops, and each such
method is proved to do what a specification function says; the lemmas then say what that function means. Protocols with
more than one party are state machines over the stretches of code between two suspension points, transactions or crashes.
The modules called rules, calls and turns state what the specification functions come to without naming them: when an
operation succeeds, with what, and how it is refused otherwise.

| module | what it models |
|---|---|
| SessionUsage, SessionOwnership, SessionRuns, SessionTurns, VoiceSessions | live voice turns of many sessions against the model switch: the activity barrier and the session event handler, under the WebSocket loop's rule of one foreground request per session and background tasks for audio ends and approvals |
| ModelRuntimes, ModelSwitch, ModelSwitchCalls, ModelSwitchCoordinators | the two-runtime lifecycle with failures, cleanup, fallback and the cache of answers |
| DurableExecution, LifecycleSteps, DurableStore | the database behind tool executions, its compare-and-swap clients, crashes and restarts |
| BoundExecution | the tool executor's idempotent service with its audit log and evidence files |
| SalonBooking, SalonRules, SalonReservations, ReservationStore | the booking rules, the reservation service and the crash-safe reservation file |
| AvailabilitySearch, SearchRules, SalonCall, SalonCallRules | the search for free appointments and the confirmation flow of a salon call |
| AudioOutput, ChunkRules, SpeechPcm, SpeechRules, SpeechFade, SalonSpeech | chunked audio with a release fade, whole or streamed with a held-back tail |
| SpeechSegments, SegmentRules, WhiteSpace | cutting a streamed reply into speech units |
| VadWorker | the endpoint detector's counters |
| UnifiedPatch, PatchRules, PatchText, TextRules, PatchRendering, FileMutation, FileRules | the unified-diff applier, and hash-guarded file changes with exact rollback |
| UiSnapshot | the stack-based snapshot of an accessibility tree |
| ReplayWindow, SessionRegistry, ReplayRules | the bounded replay window of a reconnecting session, and the states of all sessions across expiry and eviction |

## Abstractions

- A suspension point is a step boundary. The barrier's lock is never held across one, so taking and giving up a usage is
  part of a step.
- Digests are injective: a content or a fingerprint stands for its own hash. Fresh identifiers are really fresh.
- Times of the salon are local minutes, a day is 1440 of them and day 0 is a Monday; the time zone is part of no rule.
- The fade weight is an exact rational, rounded half to even; probabilities of the voice detector are reals from a network
  that is a function of the audio so far.
- What a text says (an action, a confirmation, details) and what the language model proposes are inputs of a turn.
- A process port, a tool, a database and a clock contribute their answers as parameters; an exception is a returned value.

## What does not hold, and exactly when it does

- A session can lose its usage while its response is still running: when the VAD worker fails, or a wait is aborted, while a
  cancel or disconnect closes the response's stream, and when a chunk fails in the worker after the end of its stream has
  been processed. The usage of the client's next turn can then be given up by the old task, and a model switch can begin
  under a live turn (SessionRuns.CancelReleasesTwice, SessionRuns.ChunkReleasesPendingTurn). Every other step keeps the
  accounting exact (SessionOwnership.OwnedUnlessEarly).
- A runtime action refused with a blank message cannot be recorded: the switch raises and the runtime stays in transit, so
  that a later switch can start the other one beside it (ModelSwitch.SilentRefusal). Switches end at rest exactly when every
  refusal has a message (ModelSwitch.SwitchKeeps). Only the port's protocol allows a blank one: the registered runtime always
  gives a message (apps/pc-server/src/local_voice_agent_server/infrastructure/registered_vllm_runtime.py:160, 222 and 282).
- An execution id used under a second idempotency key is executed again on every retry (BoundExecution.ReusedExecutionId). Calls
  and log are as they should be exactly as long as no request is executed under an id with an evidence file
  (BoundExecution.CallsExactly, BoundExecution.PairedIff, BoundExecution.RetrySafeIff).
- A restart forgets the answers but not the evidence: a retry of an answered command that is still timely is executed again,
  fails, and is executed on every further retry (BoundExecution.RestartRepeatsIff). How often a key is executed over any life
  with restarts is BoundExecution.CallsOverRestarts.
- A hunk that only inserts behind a line is applied one line too early compared with the unified format of POSIX.1-2017, diff,
  section STDOUT (PatchRendering.InsertionAfterALine, PatchRendering.RoundTrip).
- A patch that leaves no lines of a text that ended with a newline leaves one empty line, and a last empty line without a
  newline is lost (PatchText.EmptiedTextKeepsALine, PatchText.RenderedLines).
- A decision on an expired approval is computed and then rolled back, so the approval stays pending and its execution waits for
  good: over every run without a decision in time it stays WAITING_APPROVAL and is never dispatched
  (DurableExecution.ExpiredWaits, DurableExecution.DecideGoes).
- A write over content that is not UTF-8 is reported as failed after it has been done (FileMutation.FailedButReplacedIff).
- A removal cannot be rolled back again (FileMutation.RollbackOfRollback).
- The confirmation flag of a model-led call is not bound to the action it was raised for (SalonCall.ModelFlagIsNotBound). What is
  changed is what was asked for exactly if the model proposes that action again (SalonCall.CommitsTheAskedIff); in a rule-led
  call it always is (SalonCall.RuleCommitsItsAction).
- A client that has received everything is refused as expired once its state is dropped (SessionRegistry.ExpiryRefusesUpToDate),
  and exactly then (SessionRegistry.UpToDateExpiresIff); who else is refused as expired is SessionRegistry.ExpiredIff.
- A reconnect with resume point -1 to a session whose state was dropped is accepted with an empty replay
  (SessionRegistry.ExpiryLosesEvents). A resume replays everything exactly if no replayable event above it was sent under a
  dropped state (SessionRegistry.ReplaysAllIff); numbers start from 0 again behind a drop.

## Model

| member | source | states |
|---|---|---|
| SessionRuns.UsersCounted | apps/pc-server/src/local_voice_agent_server/application/model_switch.py:63-114 | In every interleaving of starts, chunks, ends, cancels, approvals, disconnects and switches, whatever fails: the counter equals the number of sessions holding a usage, it is 0 from the return of begin_switch to end_switch, and the active, processing and pending maps are disjoint |
| SessionRuns.NoTurnDuringSwitch | apps/pc-server/src/local_voice_agent_server/application/session_events.py:114-448 | Over every run without such an early release: no session has a turn or a response task during a switch, and a session at rest holds a usage exactly when it is in one of the maps (no leak, no double release) |
| SessionRuns.CancelReleasesTwice | apps/pc-server/src/local_voice_agent_server/application/session_events.py:316-362 | Counterexample run: a cancel whose VAD close fails gives up the usage early, the old task later gives up the usage of the next turn, and a switch begins under that live turn |
| SessionRuns.ChunkReleasesPendingTurn | apps/pc-server/src/local_voice_agent_server/application/session_events.py:158-170 | Counterexample run, in the order in which the loop receives: the end of a stream, a chunk behind it that fails in the VAD worker after the end was processed; it gives up the usage of a turn that awaits an approval, and a switch begins under it |
| SessionRuns.RunSound | apps/pc-server/src/local_voice_agent_server/application/session_events.py:114-448 | Consistency over every run from a consistent state |
| SessionRuns.RunOwned | apps/pc-server/src/local_voice_agent_server/application/session_events.py:436-448 | Ownership over every run without an early release |
| SessionOwnership.OwnedUnlessEarly | apps/pc-server/src/local_voice_agent_server/application/session_events.py:114-448 | Exact condition, step by step: a session holds a usage exactly when it has a turn (in a map, in a task that has not ended, or in the hands of the request that closes it), and has at most one; a step keeps this if and only if it is not a failure path that gives up the usage of a session whose response has not ended or awaits an approval |
| SessionOwnership.OwnStep | apps/pc-server/src/local_voice_agent_server/application/session_events.py:114-448 | The exact condition for the one session a step concerns |
| SessionUsage.StepKeeps | apps/pc-server/src/local_voice_agent_server/application/session_events.py:114-448 | Every step keeps counter, maps, registered tasks and suspended requests consistent and changes nothing of any other session |
| VoiceSessions.ModelActivityBarrier.AcquireUsage | apps/pc-server/src/local_voice_agent_server/application/model_switch.py:78-81 | Over the invariant that the counter is the number of sessions holding a usage and that there are none during a switch: the caller becomes one more holder, and a taken usage never coincides with a switch |
| VoiceSessions.ModelActivityBarrier.ReleaseUsage | apps/pc-server/src/local_voice_agent_server/application/model_switch.py:83-88 | A release without any holder is reported as unbalanced and changes nothing; otherwise exactly one usage is given up, the caller's own if it has one |
| VoiceSessions.ModelActivityBarrier.BeginSwitch | apps/pc-server/src/local_voice_agent_server/application/model_switch.py:90-107 | Refused exactly while another switch waits or runs; goes through at once exactly if no session holds a usage; it is the step of the state machine and keeps the invariants of barrier and handler |
| VoiceSessions.ModelActivityBarrier.WakeSwitch | apps/pc-server/src/local_voice_agent_server/application/model_switch.py:90-107 | The waiting switch goes on exactly if no session holds a usage any more; the step, and both invariants kept |
| VoiceSessions.ModelActivityBarrier.AbandonSwitch | apps/pc-server/src/local_voice_agent_server/application/model_switch.py:98-107 | A timeout or cancellation of the wait opens the barrier and takes nobody's usage; the step, and both invariants kept |
| VoiceSessions.ModelActivityBarrier.EndSwitch | apps/pc-server/src/local_voice_agent_server/application/model_switch.py:109-114 | Refused without a switch; otherwise nobody held a usage until here, and the barrier opens; the step, and both invariants kept |
| VoiceSessions.VoiceSessionEventHandler.Start | apps/pc-server/src/local_voice_agent_server/application/session_events.py:126-155 | The handler's fields in place: a start up to the wait for the barrier is exactly the corresponding step of the state machine; it keeps the consistency invariant on the objects, and ownership exactly unless it is an early release |
| VoiceSessions.VoiceSessionEventHandler.BeginTurn | apps/pc-server/src/local_voice_agent_server/application/session_events.py:133-155 | The handler's fields in place: the part of a start behind the barrier, with its second check and its undo is exactly the specified part of a step, and counter, holders and usages stay in agreement |
| VoiceSessions.VoiceSessionEventHandler.ResumeStart | apps/pc-server/src/local_voice_agent_server/application/session_events.py:133-155 | The handler's fields in place: a start admitted after a switch is exactly the corresponding step of the state machine; it keeps the consistency invariant on the objects, and ownership exactly unless it is an early release |
| VoiceSessions.VoiceSessionEventHandler.Chunk | apps/pc-server/src/local_voice_agent_server/application/session_events.py:158-169 | The handler's fields in place: a chunk up to the VAD worker is exactly the corresponding step of the state machine; it keeps the consistency invariant on the objects, and ownership exactly unless it is an early release |
| VoiceSessions.VoiceSessionEventHandler.ChunkDone | apps/pc-server/src/local_voice_agent_server/application/session_events.py:158-170 | The handler's fields in place: the worker's answer or failure is exactly the corresponding step of the state machine; it keeps the consistency invariant on the objects, and ownership exactly unless it is an early release |
| VoiceSessions.VoiceSessionEventHandler.WorkerFailed | apps/pc-server/src/local_voice_agent_server/application/session_events.py:219-236 | The handler's fields in place: what an unavailable worker does to the session is exactly the corresponding step of the state machine; it keeps the consistency invariant on the objects, and ownership exactly unless it is an early release |
| VoiceSessions.VoiceSessionEventHandler.EndByBargeIn | apps/pc-server/src/local_voice_agent_server/application/session_events.py:171-180 | The handler's fields in place: a barge-in, also with a wrong stream id is exactly the corresponding step of the state machine; it keeps the consistency invariant on the objects, and ownership exactly unless it is an early release |
| VoiceSessions.VoiceSessionEventHandler.BargeInDone | apps/pc-server/src/local_voice_agent_server/application/session_events.py:174-180 | The handler's fields in place: the end of a barge-in is exactly the corresponding step of the state machine; it keeps the consistency invariant on the objects, and ownership exactly unless it is an early release |
| VoiceSessions.VoiceSessionEventHandler.BeginTask | apps/pc-server/src/local_voice_agent_server/application/session_events.py:181-205 | The handler's fields in place: an audio end or approval taking over the turn is exactly the corresponding step of the state machine; it keeps the consistency invariant on the objects, and ownership exactly unless it is an early release |
| VoiceSessions.VoiceSessionEventHandler.FinishTask | apps/pc-server/src/local_voice_agent_server/application/session_events.py:192-207 | The handler's fields in place: the end of a response task is exactly the corresponding step of the state machine; it keeps the consistency invariant on the objects, and ownership exactly unless it is an early release |
| VoiceSessions.VoiceSessionEventHandler.ConcludeTask | apps/pc-server/src/local_voice_agent_server/application/session_events.py:202-207 | The handler's fields in place: deregister, and release unless an approval is pending is exactly the corresponding step of the state machine; it keeps the consistency invariant on the objects, and ownership exactly unless it is an early release |
| VoiceSessions.VoiceSessionEventHandler.Cancel | apps/pc-server/src/local_voice_agent_server/application/session_events.py:316-349 | The handler's fields in place: a cancel request is exactly the corresponding step of the state machine; it keeps the consistency invariant on the objects, and ownership exactly unless it is an early release |
| VoiceSessions.VoiceSessionEventHandler.CancelStreamClosed | apps/pc-server/src/local_voice_agent_server/application/session_events.py:337-346 | The handler's fields in place: the cancelled stream closed or the worker lost is exactly the corresponding step of the state machine; it keeps the consistency invariant on the objects, and ownership exactly unless it is an early release |
| VoiceSessions.VoiceSessionEventHandler.Disconnect | apps/pc-server/src/local_voice_agent_server/application/session_events.py:275-289 | The handler's fields in place: a disconnect, first part is exactly the corresponding step of the state machine; it keeps the consistency invariant on the objects, and ownership exactly unless it is an early release |
| VoiceSessions.VoiceSessionEventHandler.DisconnectResponse | apps/pc-server/src/local_voice_agent_server/application/session_events.py:289-303 | The handler's fields in place: a disconnect, the response is exactly the corresponding step of the state machine; it keeps the consistency invariant on the objects, and ownership exactly unless it is an early release |
| VoiceSessions.VoiceSessionEventHandler.DisconnectApproval | apps/pc-server/src/local_voice_agent_server/application/session_events.py:303-309 | The handler's fields in place: a disconnect, the approval is exactly the corresponding step of the state machine; it keeps the consistency invariant on the objects, and ownership exactly unless it is an early release |
| VoiceSessions.VoiceSessionEventHandler.ActiveStreamClosed | apps/pc-server/src/local_voice_agent_server/application/session_events.py:281-289 | The handler's fields in place: the active stream closed is exactly the corresponding step of the state machine; it keeps the consistency invariant on the objects, and ownership exactly unless it is an early release |
| VoiceSessions.VoiceSessionEventHandler.ResponseStreamClosed | apps/pc-server/src/local_voice_agent_server/application/session_events.py:290-302 | The handler's fields in place: the response's stream closed is exactly the corresponding step of the state machine; it keeps the consistency invariant on the objects, and ownership exactly unless it is an early release |
| VoiceSessions.VoiceSessionEventHandler.ResponseAwaited | apps/pc-server/src/local_voice_agent_server/application/session_events.py:297-303 | The handler's fields in place: the cancelled response awaited is exactly the corresponding step of the state machine; it keeps the consistency invariant on the objects, and ownership exactly unless it is an early release |
| VoiceSessions.VoiceSessionEventHandler.ApprovalClosed | apps/pc-server/src/local_voice_agent_server/application/session_events.py:303-309 | The handler's fields in place: a pending approval cancelled or dropped is exactly the corresponding step of the state machine; it keeps the consistency invariant on the objects, and ownership exactly unless it is an early release |
| VoiceSessions.VoiceSessionEventHandler.ReleaseUsage | apps/pc-server/src/local_voice_agent_server/application/session_events.py:443-448 | The handler's fields in place: give up a usage at most once is exactly the specified part of a step, and counter, holders and usages stay in agreement |
| SessionTurns.DisconnectEnds | apps/pc-server/src/local_voice_agent_server/application/session_events.py:275-309 | A disconnect from its first step to its last, whatever other sessions, tasks and switches do meanwhile and unless the worker or a wait fails it: a pending approval that is to be preserved is still pending and holds its usage; otherwise nothing is left, neither a map entry nor a response task nor a usage |
| SessionTurns.CancelEnds | apps/pc-server/src/local_voice_agent_server/application/session_events.py:316-362 | A cancel of the running response or the pending approval that comes to its end leaves nothing of the turn; any other changes nothing |
| SessionTurns.TurnStep | apps/pc-server/src/local_voice_agent_server/application/session_events.py:114-448 | What every step that is not an early release makes of its session's turn (idle, capturing, responding, awaiting approval), which requests it suspends, and that the session then holds a usage exactly while it has a turn, a response task or a request closing it |
| ModelRuntimes.TransitionExplained | apps/pc-server/src/local_voice_agent_server/domain/model_runtime.py:65-109 | A transition succeeds exactly for the current version, an allowed target, a non-blank reason and matching failure metadata; it then adds one event with that reason and failure, and versions count events without a gap |
| ModelRuntimes.ReadyWasChecked | apps/pc-server/src/local_voice_agent_server/domain/model_runtime.py:22-41 | A runtime only ever becomes READY straight from LOADING through HEALTH_CHECKING |
| ModelSwitch.SwitchKeeps | apps/pc-server/src/local_voice_agent_server/application/model_switch.py:172-347 | From rest, under every pattern of failures: at most 7 process calls, never two runtimes outside UNLOADED and FAILED on the way, no illegal or stale transition; failure_code is None exactly when the target is READY; after an attempt some model is READY exactly if the last process call succeeded; a drain timeout changes nothing; and the switch ends at rest if and only if every refusal of the port carries a message, otherwise it raises; which calls these are and what is answered is ModelSwitchCalls.SwitchTellsStory |
| ModelSwitch.AttemptGoes | apps/pc-server/src/local_voice_agent_server/application/model_switch.py:223-347 | The same for the part under the barrier, with the fallback to the small model; its calls are those of ModelSwitchCalls.SwitchTellsStory |
| ModelSwitch.FallBackGoes | apps/pc-server/src/local_voice_agent_server/application/model_switch.py:258-330 | The fallback: cleanup, then the small model, within 4 calls |
| ModelSwitch.DoGoes | apps/pc-server/src/local_voice_agent_server/application/model_switch.py:349-457 | What any plan of transitions and calls does whatever the port answers: legal steps, one occupied runtime, a refusal leaves its runtime in transit |
| ModelSwitch.LoadGoes | apps/pc-server/src/local_voice_agent_server/application/model_switch.py:386-457 | Loading with cleanup of a failed target: at most 3 calls |
| ModelSwitch.UnloadGoes | apps/pc-server/src/local_voice_agent_server/application/model_switch.py:358-385 | Unloading the ready runtime first |
| ModelSwitch.CleanupGoes | apps/pc-server/src/local_voice_agent_server/application/model_switch.py:494-548 | A failed runtime is stopped and UNLOADED, or FAILED again with fresh evidence |
| ModelSwitch.RecordGoes | apps/pc-server/src/local_voice_agent_server/application/model_switch.py:459-492 | A failure is recorded exactly if its message is not blank |
| ModelSwitch.RunRests | apps/pc-server/src/local_voice_agent_server/application/model_switch.py:172-347 | Over every run of switches with a port that explains its refusals: at rest, at most 7 calls each, never two occupied runtimes |
| ModelSwitch.StatesAreTrue | apps/pc-server/src/local_voice_agent_server/application/model_switch.py:349-581 | Over the same runs the recorded states are true of the processes: none can be running behind an UNLOADED runtime, a READY one was started and passed its health check in its last two calls, and two can be running only if a runtime is recorded FAILED |
| ModelSwitch.SwitchEvident | apps/pc-server/src/local_voice_agent_server/application/model_switch.py:172-347 | One switch keeps the recorded states true of the processes, even when it raises |
| ModelSwitch.DoEvident | apps/pc-server/src/local_voice_agent_server/application/model_switch.py:349-457 | A plan records a state only behind the calls that show it |
| ModelSwitch.UnloadedIsStopped | apps/pc-server/src/local_voice_agent_server/application/model_switch.py:358-385 | Behind an UNLOADED runtime every start was followed by a successful stop |
| ModelSwitch.SilentRefusal | apps/pc-server/src/local_voice_agent_server/application/model_switch.py:459-481 | Counterexample for the port protocol, which allows it: refusals without a message leave both runtimes LOADING after two switches |
| ModelSwitch.CacheIsNewest | apps/pc-server/src/local_voice_agent_server/application/model_switch.py:613-625 | The cache is the newest 256 keyed answers under distinct keys, over every run |
| ModelSwitch.RecentKeyReplays | apps/pc-server/src/local_voice_agent_server/application/model_switch.py:182-189 | A key among the newest 256 replays its answer, or conflicts for another target, without a process call and without any change |
| ModelSwitch.AnswerIsRemembered | apps/pc-server/src/local_voice_agent_server/application/model_switch.py:182-189 | A keyed answer is remembered as it was given: the next switch under its key gets it again, as a duplicate and without a call, or a conflict for another target |
| ModelSwitchCoordinators.ModelSwitchCoordinator.Transition | apps/pc-server/src/local_voice_agent_server/application/model_switch.py:565-581 | The method in place does exactly what the function of that name specifies |
| ModelSwitchCoordinators.ModelSwitchCoordinator.Invoke | apps/pc-server/src/local_voice_agent_server/application/model_switch.py:550-563 | The method in place does exactly what the function of that name specifies |
| ModelSwitchCoordinators.ModelSwitchCoordinator.Unload | apps/pc-server/src/local_voice_agent_server/application/model_switch.py:358-385 | The method in place does exactly what the function of that name specifies |
| ModelSwitchCoordinators.ModelSwitchCoordinator.Load | apps/pc-server/src/local_voice_agent_server/application/model_switch.py:417-457 | The method in place does exactly what the function of that name specifies |
| ModelSwitchCoordinators.ModelSwitchCoordinator.CleanupFailed | apps/pc-server/src/local_voice_agent_server/application/model_switch.py:494-548 | The method in place does exactly what the function of that name specifies |
| ModelSwitchCoordinators.ModelSwitchCoordinator.SwitchOnce | apps/pc-server/src/local_voice_agent_server/application/model_switch.py:349-457 | The method in place does exactly what the function of that name specifies |
| ModelSwitchCoordinators.ModelSwitchCoordinator.RecordFailure | apps/pc-server/src/local_voice_agent_server/application/model_switch.py:459-492 | The method in place does exactly what the function of that name specifies |
| ModelSwitchCoordinators.ModelSwitchCoordinator.Attempt | apps/pc-server/src/local_voice_agent_server/application/model_switch.py:243-347 | The method in place does exactly what the function of that name specifies |
| ModelSwitchCoordinators.ModelSwitchCoordinator.CacheResult | apps/pc-server/src/local_voice_agent_server/application/model_switch.py:613-625 | The method in place does exactly what the function of that name specifies |
| ModelSwitchCoordinators.ModelSwitchCoordinator.Switch | apps/pc-server/src/local_voice_agent_server/application/model_switch.py:172-347 | The whole method in place does what the function specifies; it keeps the object's invariant (at rest, at most one runtime occupied, states true of the processes, at most 256 answers under distinct keys) if and only if it does not raise, and one that raises keeps the cache and what is true of the processes |
| ModelSwitchCoordinators.ModelSwitchCoordinator.constructor | apps/pc-server/src/local_voice_agent_server/application/model_switch.py:152-170 | A new coordinator is at rest with an empty cache |
| ModelSwitchCalls.SwitchTellsStory | apps/pc-server/src/local_voice_agent_server/application/model_switch.py:172-347 | The calls and the answer of a switch in terms of the port alone: a target that is ready, or a drain that times out, costs no call; otherwise the ready runtime is stopped, a failed target is stopped, the target is started and checked, up to the first refusal, and a refused large model is stopped and the small one brought up in its place |
| ModelSwitchCalls.LargeRefused | apps/pc-server/src/local_voice_agent_server/application/model_switch.py:258-330 | A drained request for the large model whose start or health check is refused: the next call stops it, then the small one is stopped if it is failed, started and checked, up to a refusal; it is ready exactly if all of these succeed, and failure_code is the code of the refusal that decided |
| DurableExecution.LogMatchesRow | apps/pc-server/src/local_voice_agent_server/infrastructure/persistence.py:383-656 | For every interleaving, crash and restart of clients: durable events and outbox rows of an execution are the sequences 0 to its version, start PLANNED, carry the type of their target state, each step is allowed by the domain table although the store never checks it, and the row's state is the last event's |
| DurableExecution.DispatchedOnce | apps/pc-server/src/local_voice_agent_server/application/tool_execution_lifecycle.py:72-131 | In every run the executor is called at most once per execution; a verifying, succeeded or failed execution was dispatched exactly once; one that needs an approval only after it was approved; the audit log has one row for the plan and one for the decision, with what was decided |
| DurableExecution.ExpiredWaits | apps/pc-server/src/local_voice_agent_server/infrastructure/persistence.py:498-609 | Over every run in which no decision on an execution's approval comes before its expiry: the execution stays WAITING_APPROVAL, its approval pending, and it is never dispatched |
| DurableExecution.StepWaits | apps/pc-server/src/local_voice_agent_server/infrastructure/persistence.py:498-656 | Each step of each client leaves such an execution waiting |
| DurableExecution.RunKeeps | apps/pc-server/src/local_voice_agent_server/application/tool_execution_lifecycle.py:48-131 | The invariant behind both, over every run |
| DurableExecution.StepKeeps | apps/pc-server/src/local_voice_agent_server/application/tool_execution_lifecycle.py:48-131 | Every step of every client, crashes included, keeps it |
| DurableExecution.AppendNext | apps/pc-server/src/local_voice_agent_server/infrastructure/persistence.py:236-264 | The unique sequence index never refuses the next event of a history, and other histories stay |
| DurableExecution.TransitionGoes | apps/pc-server/src/local_voice_agent_server/infrastructure/persistence.py:611-656 | An allowed compare-and-swap on the current version succeeds with its event |
| DurableExecution.DecideGoes | apps/pc-server/src/local_voice_agent_server/infrastructure/persistence.py:498-609 | A decision is accepted exactly if the approval is pending, unexpired and bound to version, digest and precondition, and the execution waits; an expired one leaves nothing behind |
| DurableExecution.PersistGoes | apps/pc-server/src/local_voice_agent_server/infrastructure/persistence.py:410-496 | A new plan becomes row, two events and approval in one transaction |
| DurableExecution.StartKeeps | apps/pc-server/src/local_voice_agent_server/application/tool_execution_lifecycle.py:77-82 | Only one client can win the transition to RUNNING |
| DurableExecution.OwnerAdvances | apps/pc-server/src/local_voice_agent_server/application/tool_execution_lifecycle.py:95-131 | The client that dispatched never loses a later transition |
| DurableExecution.ChainSnoc | apps/pc-server/src/local_voice_agent_server/domain/tool_execution.py:29-68 | A history stays numbered and allowed by the table when its next event is appended |
| DurableExecution.RowTellsOutcome | apps/pc-server/src/local_voice_agent_server/application/tool_execution_lifecycle.py:89-131 | Over every run the row never says anything else than the executor: succeeded only behind a verified receipt, failed only behind a failed request or an invalid receipt |
| DurableExecution.AnswerIsRecorded | apps/pc-server/src/local_voice_agent_server/application/tool_execution_lifecycle.py:95-131 | In every reachable state the client that called the executor moves the row to failed exactly for a failed request and to verifying otherwise, and from there to succeeded exactly for a verified receipt |
| DurableExecution.PersistUsedKey | apps/pc-server/src/local_voice_agent_server/infrastructure/persistence.py:398-415 | Under a used idempotency key a plan is accepted exactly if tool and argument digest are the recorded ones, and conflicts otherwise; nothing is written either way |
| DurableExecution.AcceptedHoldsKey | apps/pc-server/src/local_voice_agent_server/infrastructure/persistence.py:398-456 | Over every run a client whose plan was accepted finds its session and key bound to a row with its own tool and digest |
| LifecycleSteps.PlanStep | apps/pc-server/src/local_voice_agent_server/infrastructure/persistence.py:383-496 | In every reachable state: a client records its plan exactly if nobody has recorded another one under its key; under an unused key row, key and pending approval are new, under a used one nothing is written, and a client with another plan gives up |
| LifecycleSteps.DecisionStep | apps/pc-server/src/local_voice_agent_server/infrastructure/persistence.py:498-609 | In every reachable state: a decision goes through exactly if the approval is on record, pending, bound to the digest and the precondition and not expired; then approval and execution carry it and the client goes on or is done; otherwise nothing happens |
| LifecycleSteps.DecisionRefused | apps/pc-server/src/local_voice_agent_server/infrastructure/persistence.py:514-609 | Which error a refused decision gets |
| LifecycleSteps.StartStep | apps/pc-server/src/local_voice_agent_server/application/tool_execution_lifecycle.py:77-87 | In every reachable state: a client wins the start exactly if the execution is at the version where it left it, which is queued; otherwise it gives up and nothing is written |
| LifecycleSteps.FinalIff | apps/pc-server/src/local_voice_agent_server/domain/tool_execution.py:29-68 | Exactly an execution that has succeeded, was cancelled or rolled back has no further transition |
| LifecycleSteps.CallStep | apps/pc-server/src/local_voice_agent_server/application/tool_execution_lifecycle.py:88-93 | Only a client that has won the start calls the executor |
| DurableStore.PostgresStateStore.PersistPlannedPlan | apps/pc-server/src/local_voice_agent_server/infrastructure/persistence.py:383-496 | The transaction on the tables in place: exactly the specified result, or a rollback |
| DurableStore.PostgresStateStore.DecideApproval | apps/pc-server/src/local_voice_agent_server/infrastructure/persistence.py:498-609 | The transaction on the tables in place: exactly the specified result, or a rollback |
| DurableStore.PostgresStateStore.TransitionToolExecution | apps/pc-server/src/local_voice_agent_server/infrastructure/persistence.py:611-656 | The transaction on the tables in place: exactly the specified result, or a rollback |
| DurableStore.PostgresStateStore.AppendExecutionEvent | apps/pc-server/src/local_voice_agent_server/infrastructure/persistence.py:236-264 | The transaction on the tables in place: exactly the specified result, or a rollback |
| DurableStore.DurableToolExecutionLifecycle.Execute | apps/pc-server/src/local_voice_agent_server/application/tool_execution_lifecycle.py:72-131 | Undisturbed, execute dispatches exactly if the row is still at the plan's version, and ends SUCCEEDED or FAILED with a consistent history |
| BoundExecution.AtMostOneCallPerKey | apps/tool-executor/src/local_voice_agent_tool_executor/service.py:127-151 | Over every run of one process in which execution ids belong to one key, a key causes at most one executor call, the audit log is started events each followed by one outcome, and evidence files are exactly those of executions with an outcome |
| BoundExecution.CallsExactly | apps/tool-executor/src/local_voice_agent_tool_executor/service.py:127-266 | Exact, for every run whatever its ids: a key causes one executor call if it has been answered, plus one for each request that was executed although its execution id had an evidence file; the evidence files are exactly those of executions with an outcome |
| BoundExecution.PairedIff | apps/tool-executor/src/local_voice_agent_tool_executor/service.py:154-266 | The audit log is started events each followed by one outcome if and only if there was no such request |
| BoundExecution.CallsOverRestarts | apps/tool-executor/src/local_voice_agent_tool_executor/service.py:127-266 | Exact, over every life with restarts between and in the middle of executions: a key causes one executor call for each evidence file of its own, plus one for each call that was interrupted before its file or was made under an id that had one already |
| BoundExecution.EvidenceIsFiled | apps/tool-executor/src/local_voice_agent_tool_executor/audit.py:65-105 | Over the same lives every evidence file was written by a call under some key |
| BoundExecution.FilesAreApart | apps/tool-executor/src/local_voice_agent_tool_executor/audit.py:65-105 | Over the same lives no two keys share an evidence file |
| BoundExecution.RestartRepeatsIff | apps/tool-executor/src/local_voice_agent_tool_executor/service.py:67-151 | Exact condition: a key that has been answered is not executed again by the same process; after a restart the call is repeated if and only if the request is still timely, and for the same command it then fails and is repeated on every further retry |
| BoundExecution.PairedOverRestarts | apps/tool-executor/src/local_voice_agent_tool_executor/service.py:154-266 | Over the same lives the audit log is started events each followed by one outcome if and only if no request was made under a used id and no execution was interrupted |
| BoundExecution.BoundExecutionService.Restarted | apps/tool-executor/src/local_voice_agent_tool_executor/service.py:56-65 | A new service over the same audit store knows the log and the evidence files and has an empty cache |
| BoundExecution.LaterRequests | apps/tool-executor/src/local_voice_agent_tool_executor/service.py:127-151 | After the first execution under a key every later request that passes validation gets the same result as a duplicate or the same error class, or a conflict if it differs, with no call and no change |
| BoundExecution.RetrySafeIff | apps/tool-executor/src/local_voice_agent_tool_executor/service.py:154-266 | Exact condition: a retry does not call the executor again if and only if the execution id had no evidence file yet |
| BoundExecution.ReusedExecutionId | apps/tool-executor/src/local_voice_agent_tool_executor/service.py:247-266 | Counterexample run: a second key under a used execution id is executed on every retry and its starts have no outcome |
| BoundExecution.ExecutedKeeps | apps/tool-executor/src/local_voice_agent_tool_executor/service.py:154-266 | One execution under a fresh id adds a started event, its outcome, one evidence file and one call |
| BoundExecution.RunKeeps | apps/tool-executor/src/local_voice_agent_tool_executor/service.py:127-266 | The invariant of those runs |
| BoundExecution.CompletedStays | apps/tool-executor/src/local_voice_agent_tool_executor/service.py:127-151 | A cached execution never changes |
| BoundExecution.BoundExecutionService.Execute | apps/tool-executor/src/local_voice_agent_tool_executor/service.py:67-152 | The method on cache, evidence, log and calls is exactly the specified step |
| BoundExecution.ExecutedIsTold | apps/tool-executor/src/local_voice_agent_tool_executor/service.py:154-266 | A request executed under an id without evidence gets the result exactly if the tool succeeded, the tool's error class if it failed and an internal error if it crashed; the log gains the started event and an outcome that says succeeded exactly in the first case |
| BoundExecution.NotExecutedIsTold | apps/tool-executor/src/local_voice_agent_tool_executor/service.py:67-142 | A request refused before execution: why, and that nothing changes |
| BoundExecution.RepeatIsTold | apps/tool-executor/src/local_voice_agent_tool_executor/service.py:127-141 | Over every run a repeated command is told what the tool answered the first time, as a duplicate |
| ReservationStore.NeverDoubleBooked | apps/pc-server/src/local_voice_agent_server/infrastructure/file_reservations.py:52-168 | In every document ever committed, over every interleaving of operations and crashes: no member of staff is booked twice at a time, every confirmed reservation is inside its day's opening hours, and nobody is booked longer than the salon is open |
| ReservationStore.FileIsCommitted | apps/pc-server/src/local_voice_agent_server/infrastructure/file_reservations.py:52-168 | The data file is absent or the last committed document, never a torn write; commits form one history of operations; with a backup root every superseded document is in a backup |
| ReservationStore.StepKeeps | apps/pc-server/src/local_voice_agent_server/infrastructure/file_reservations.py:52-168 | Each step of initialization, mutation, backup, temporary write and replacement keeps it, and so does dying in between |
| ReservationStore.ApplyKeeps | apps/pc-server/src/local_voice_agent_server/domain/salon_booking.py:230-353 | Every operation takes a safe list to a safe list |
| ReservationStore.BackupsKeep | apps/pc-server/src/local_voice_agent_server/infrastructure/file_reservations.py:124-151 | A new backup never overwrites a finished one |
| ReservationStore.CommitIsMade | apps/pc-server/src/local_voice_agent_server/infrastructure/file_reservations.py:52-168 | Over every run and crash a commit is the first document or exactly what the operation of the lock's holder makes of the last one, and no other step changes the data file |
| ReservationStore.TurnCompletes | apps/pc-server/src/local_voice_agent_server/infrastructure/file_reservations.py:52-168 | An operation that nobody interrupts leaves the file with what it makes of the list on file, one version on, or unchanged if it raises or only reads, and the document it replaced in a new backup |
| ReservationStore.ApplyIs | apps/pc-server/src/local_voice_agent_server/domain/salon_booking.py:230-353 | What an operation makes of the list is the answer of create, cancel or modify, provided that ids stay distinct |
| SalonBooking.CapacityBound | apps/pc-server/src/local_voice_agent_server/domain/salon_booking.py:355-392 | Booked minutes of a member of staff on a day never exceed closing minus opening time |
| SalonBooking.MinutesAreDistinct | apps/pc-server/src/local_voice_agent_server/domain/salon_booking.py:441-456 | Without double bookings the booked minutes are different minutes |
| SalonBooking.CreateKeeps | apps/pc-server/src/local_voice_agent_server/domain/salon_booking.py:230-277 | Create appends exactly the reservation asked for, from its start to the end of the policy's service of that id, where its staff is free, inside opening hours |
| SalonBooking.CancelKeeps | apps/pc-server/src/local_voice_agent_server/domain/salon_booking.py:279-304 | Cancel keeps the list safe |
| SalonBooking.CancelOnce | apps/pc-server/src/local_voice_agent_server/domain/salon_booking.py:279-304 | Cancel changes the one reservation whose id alone begins with the code and whose phone is the caller's; cancelling again is refused as already cancelled, and nobody is in the way who was not before |
| SalonBooking.FindsTheOnlyOne | apps/pc-server/src/local_voice_agent_server/domain/salon_booking.py:459-474 | A code finds a reservation exactly if it has eight characters and that reservation's id alone starts with it |
| SalonBooking.ModifyKeeps | apps/pc-server/src/local_voice_agent_server/domain/salon_booking.py:306-353 | Modify keeps the list safe |
| SalonBooking.CreateMatchesAvailability | apps/pc-server/src/local_voice_agent_server/domain/salon_booking.py:206-277 | Without a wish create takes the first available member of staff and fails exactly if there is none; with a wish it succeeds exactly for an available one |
| SalonBooking.ModifyIsRebooking | apps/pc-server/src/local_voice_agent_server/domain/salon_booking.py:306-353 | Modify fails exactly when cancelling and booking again would, for the same reason, and otherwise picks the same service, staff and window; everything else stays in place (duplicate check aside) |
| SalonBooking.ChoiceIsHead | apps/pc-server/src/local_voice_agent_server/domain/salon_booking.py:394-422 | Without a wish the choice is the head of the available staff |
| SalonBooking.ChoiceIsMember | apps/pc-server/src/local_voice_agent_server/domain/salon_booking.py:394-422 | With a wish the choice succeeds exactly for an available member |
| SalonBooking.AllFreeAreFree | apps/pc-server/src/local_voice_agent_server/domain/salon_booking.py:206-228 | The available staff are exactly the free members who offer the service |
| SalonBooking.ExcludingIsCancelling | apps/pc-server/src/local_voice_agent_server/domain/salon_booking.py:441-456 | Leaving a reservation out of the overlap check equals checking after its cancellation |
| SalonBooking.FindsService | apps/pc-server/src/local_voice_agent_server/domain/salon_booking.py:107-111 | A service is found exactly under its own id, and an unknown id is refused as such |
| SalonRules.WindowIff | apps/pc-server/src/local_voice_agent_server/domain/salon_booking.py:355-392 | A start is accepted exactly if it is not past, within the horizon, on a slot and inside the opening hours together with the service's duration; each other start is refused for the first of these that fails |
| SalonRules.PhoneIs | apps/pc-server/src/local_voice_agent_server/domain/salon_booking.py:431-438 | A phone number is its digits, accepted exactly with 10 or 11 of them beginning with 01 |
| SalonRules.ChoiceIff | apps/pc-server/src/local_voice_agent_server/domain/salon_booking.py:394-422 | The choice is the first member of staff in the policy's order who is wanted, offers the service and is free; a wish for nobody's id is refused as unknown staff, anything else as unavailable |
| SalonRules.AvailableIff | apps/pc-server/src/local_voice_agent_server/domain/salon_booking.py:206-228 | Availability is answered exactly for an acceptable start, with the free members in the policy's order |
| SalonRules.CreateMakes | apps/pc-server/src/local_voice_agent_server/domain/salon_booking.py:230-277 | Create succeeds exactly for an acceptable request that somebody can take, and appends a confirmed reservation with the requested name, phone, service and start, the duration of the service of that id, and the first member who can take it |
| SalonRules.CreateRefuses | apps/pc-server/src/local_voice_agent_server/domain/salon_booking.py:230-277 | Which refusal a request gets: unknown service, window, phone, name, a confirmed reservation of the same phone at the same time, unknown staff, or nobody free |
| SalonRules.CancelIff | apps/pc-server/src/local_voice_agent_server/domain/salon_booking.py:279-304 | The reservation whose id alone begins with the code is cancelled exactly if it is confirmed and the phone is its customer's; another phone is refused as a mismatch |
| SalonRules.ModifyMakes | apps/pc-server/src/local_voice_agent_server/domain/salon_booking.py:306-353 | Exactly when and how the reservation of the code moves to the new start, service and staff, and which refusal it is otherwise |
| SalonRules.ModifyRefuses | apps/pc-server/src/local_voice_agent_server/domain/salon_booking.py:306-333 | A code of no reservation, and a service nobody offers |
| SalonReservations.SalonReservationService.AvailableStaffAt | apps/pc-server/src/local_voice_agent_server/domain/salon_booking.py:206-228 | The availability answer for the list on file, which it leaves alone |
| SalonReservations.SalonReservationService.FreeMembers | apps/pc-server/src/local_voice_agent_server/domain/salon_booking.py:214-228 | The loop over the staff collects exactly the free members in order |
| SalonReservations.SalonReservationService.StaffHasOverlap | apps/pc-server/src/local_voice_agent_server/domain/salon_booking.py:441-456 | True exactly if a confirmed reservation of that member overlaps |
| SalonReservations.SalonReservationService.Book | apps/pc-server/src/local_voice_agent_server/domain/salon_booking.py:230-277 | The list on file becomes what create makes of it, or stays; it stays safe |
| SalonReservations.SalonReservationService.Annul | apps/pc-server/src/local_voice_agent_server/domain/salon_booking.py:279-304 | The same for cancel |
| SalonReservations.SalonReservationService.Change | apps/pc-server/src/local_voice_agent_server/domain/salon_booking.py:306-353 | The same for modify |
| SalonReservations.FileReservationStore.Mutate | apps/pc-server/src/local_voice_agent_server/infrastructure/file_reservations.py:52-71 | A mutation runs on the current document; success backs it up and raises the version by one, an error or repeated ids change nothing |
| SalonReservations.FileReservationStore.List | apps/pc-server/src/local_voice_agent_server/infrastructure/file_reservations.py:46-50 | The list on file, created empty if missing |
| AvailabilitySearch.Search | apps/pc-server/src/local_voice_agent_server/application/salon_calls.py:618-728 | The answer is the first three of all slots from the first searched day to the horizon; it is broken off by the alignment error exactly if the search comes, with fewer than three slots, to a day with a candidate inside the booking window and off the slot grid; with aligned opening and requested times there is none |
| AvailabilitySearch.DailyAvailability | apps/pc-server/src/local_voice_agent_server/application/salon_calls.py:554-616 | All free grid starts of a day; broken off exactly if one of them is inside the booking window and off the slot grid |
| AvailabilitySearch.Scan | apps/pc-server/src/local_voice_agent_server/application/salon_calls.py:679-709 | Stopping at the third slot misses no earlier one; broken off exactly by a candidate off the grid that comes before the third slot |
| AvailabilitySearch.DayCandidates | apps/pc-server/src/local_voice_agent_server/application/salon_calls.py:643-677 | A day's starts, whether by the requested time or by the daily answer, and when the latter fails |
| AvailabilitySearch.AlignedIsOnGrid | apps/pc-server/src/local_voice_agent_server/application/salon_calls.py:571-608 | Opening and requested times on the slot grid put every candidate on it |
| AvailabilitySearch.SearchIsEarliest | apps/pc-server/src/local_voice_agent_server/application/salon_calls.py:618-728 | An available start missing from the answer comes after three that are in it, in chronological order |
| AvailabilitySearch.SlotIsAccepted | apps/pc-server/src/local_voice_agent_server/application/salon_calls.py:679-709 | Each slot is accepted by create for a customer without a reservation at that time, with the staff it names |
| AvailabilitySearch.GridComplete | apps/pc-server/src/local_voice_agent_server/application/salon_calls.py:571-608 | The grid holds exactly the starts a whole number of slots behind the opening that end before closing |
| AvailabilitySearch.Chronological | apps/pc-server/src/local_voice_agent_server/application/salon_calls.py:641-643 | All candidates in increasing order, day after day |
| AvailabilitySearch.Rescan | apps/pc-server/src/local_voice_agent_server/application/salon_calls.py:664-697 | Filtering by any member first loses no start of the one who is asked for |
| SearchRules.SlotsSuit | apps/pc-server/src/local_voice_agent_server/application/salon_calls.py:618-728 | Every slot of the answer is bookable, not before today, not on or before an excluded day that is not over, at the requested time or on the day's grid, and names exactly those who can serve then, in increasing order |
| SearchRules.EarliestSuit | apps/pc-server/src/local_voice_agent_server/application/salon_calls.py:618-728 | Every start that suits in this sense is in the answer or comes after three that are |
| SalonCall.CommitsWithinRaises | apps/pc-server/src/local_voice_agent_server/application/salon_calls.py:215-490 | In every call, rule-led, model-led or mixed, with other sessions replacing the list by any safe one between its turns: committed changes never outnumber the turns that asked for a confirmation, and the reservations stay safe |
| SalonCall.CommitNeedsConfirmation | apps/pc-server/src/local_voice_agent_server/application/salon_calls.py:215-490 | A reservation changes only on a positive text in a turn that found the flag raised, and that turn lowers it; other turns change no reservation |
| SalonCall.RuleCommitsItsAction | apps/pc-server/src/local_voice_agent_server/application/salon_calls.py:903-979 | Over every rule-led call: a change carries out the action whose confirmation was last asked for, and the text names no other |
| SalonCall.CommitsTheAskedIff | apps/pc-server/src/local_voice_agent_server/application/salon_calls.py:215-490 | Exact condition over every call: a change is what the action whose confirmation was last asked for would have done if and only if the turn's own action is that one; in the model-led path, if the model proposes it again |
| SalonCall.FlagHasAnAction | apps/pc-server/src/local_voice_agent_server/application/salon_calls.py:215-490 | Over every call the flag is up exactly while an action other than an availability question has been asked for; in a rule-led call it is the call's own action |
| SalonCall.CommitsTheChosen | apps/pc-server/src/local_voice_agent_server/application/salon_calls.py:215-490 | One turn commits its chosen action: the call's own in the rule-led path, the proposed one in the model-led path |
| SalonCall.ActionsDiffer | apps/pc-server/src/local_voice_agent_server/domain/salon_booking.py:230-353 | With the same slots two different actions never come to the same list |
| SalonCall.ModelFlagIsNotBound | apps/pc-server/src/local_voice_agent_server/application/salon_calls.py:433-490 | Counterexample: a flag raised for a modification is taken as the confirmation of a cancellation |
| SalonCall.TurnKeepsSafe | apps/pc-server/src/local_voice_agent_server/application/salon_calls.py:215-490 | Whatever a turn commits keeps the reservations safe |
| SalonCall.SalonCallState.RuleMessage | apps/pc-server/src/local_voice_agent_server/application/salon_calls.py:215-277 | The rule-led turn on the call's fields |
| SalonCall.SalonCallState.ModelMessage | apps/pc-server/src/local_voice_agent_server/application/salon_calls.py:279-370 | The model-led turn on the call's fields |
| SalonCall.SalonCallState.Execute | apps/pc-server/src/local_voice_agent_server/application/salon_calls.py:416-431 | The confirmed action and the end of its transaction |
| SalonCallRules.RuleCommitsIff | apps/pc-server/src/local_voice_agent_server/application/salon_calls.py:215-277 | A rule-led turn changes a reservation exactly if the confirmation in question is answered positively, the details are there and the service accepts; the call then starts over, as behind a negative answer |
| SalonCallRules.RuleGoesOn | apps/pc-server/src/local_voice_agent_server/application/salon_calls.py:215-277 | What any other text does: the details remembered, the action the call is about, and whether a confirmation is awaited |
| SalonCallRules.ModelCommitsIff | apps/pc-server/src/local_voice_agent_server/application/salon_calls.py:279-490 | A model-led turn changes a reservation exactly if a raised flag meets a confirmed decision and a positive text about a change with its details |
| SalonCallRules.ModelGoesOn | apps/pc-server/src/local_voice_agent_server/application/salon_calls.py:279-490 | What any other decision does to details, action and flag |
| SalonCallRules.DetailsAreRemembered | apps/pc-server/src/local_voice_agent_server/application/salon_calls.py:790-812 | A detail that is told replaces the one remembered and the others stay; in the model-led path a date alone forgets the time |
| SalonCallRules.PromiseIff | apps/pc-server/src/local_voice_agent_server/application/salon_calls.py:399-415 | The flag for a booking goes up only if the wanted member, or anybody, can serve then |
| SalonCallRules.BookingIff | apps/pc-server/src/local_voice_agent_server/application/salon_calls.py:416-431 | A booking is carried out exactly if the told service exists, the request is acceptable and somebody can take it |
| SalonCallRules.BookingIsTold | apps/pc-server/src/local_voice_agent_server/application/salon_calls.py:903-935 | The reservation made has the told name, phone, service, time and, if one was told, member of staff |
| SalonCallRules.CancellationIff | apps/pc-server/src/local_voice_agent_server/application/salon_calls.py:937-954 | A cancellation is carried out exactly if code and phone name a confirmed reservation |
| SalonCallRules.CancellationIsTold | apps/pc-server/src/local_voice_agent_server/application/salon_calls.py:937-954 | The reservation cancelled is the one of the told code and phone |
| SalonCallRules.ModificationIff | apps/pc-server/src/local_voice_agent_server/application/salon_calls.py:956-979 | When a change is carried out |
| SalonCallRules.ModificationIsTold | apps/pc-server/src/local_voice_agent_server/application/salon_calls.py:956-979 | The reservation of the told code and phone moves to the told time, with the told service and staff if there are any |
| AudioOutput.Output.EmitStreamedSynthesizedAudio | apps/pc-server/src/local_voice_agent_server/application/voice_turn.py:600-664 | Accepts exactly a non-empty run of whole-frame pieces of one format and, for every way of cutting the unit, emits the bytes of the batch path for the whole unit, behind one speaking event, in chunks of at least one byte and at most the chunk size |
| AudioOutput.Output.EmitSynthesizedAudio | apps/pc-server/src/local_voice_agent_server/application/voice_turn.py:666-696 | The batch path emits the finished unit, or nothing; chunk numbers and durations stay right |
| AudioOutput.Output.EmitPcmChunks | apps/pc-server/src/local_voice_agent_server/application/voice_turn.py:698-748 | The chunks are the PCM, contiguously numbered across units, behind one speaking event |
| AudioOutput.Output.EndAudioOutput | apps/pc-server/src/local_voice_agent_server/application/voice_turn.py:750-795 | Trailing silence after audible output, then the end event; all announced durations stay right if and only if the whole frames of the silence differ from its milliseconds by at most one, which is always so at 500 Hz and above |
| AudioOutput.Output.Deliver | apps/pc-server/src/local_voice_agent_server/application/voice_turn.py:820-846 | One event is appended; chunks only behind the speaking event |
| AudioOutput.SummedDurations | apps/pc-server/src/local_voice_agent_server/application/voice_turn.py:698-748 | Summed durations are within one millisecond per chunk of the true length |
| AudioOutput.TailTimed | apps/pc-server/src/local_voice_agent_server/application/voice_turn.py:750-795 | The announced tail silence is within a millisecond of its data exactly under that condition |
| AudioOutput.HoldBack | apps/pc-server/src/local_voice_agent_server/application/voice_turn.py:630-655 | What may be emitted now and what is held back |
| ChunkRules.ChunksAre | apps/pc-server/src/local_voice_agent_server/application/voice_turn.py:719-748 | Chunk i holds the bytes from i times the chunk size on, is numbered in order and lasts its bytes to the nearest millisecond, at least one; together they are the PCM |
| ChunkRules.TailSilenceIs | apps/pc-server/src/local_voice_agent_server/application/voice_turn.py:757-768 | The closing silence is zeros, for the nearest whole number of frames |
| ChunkRules.JoinedParts | apps/pc-server/src/local_voice_agent_server/application/voice_turn.py:611-640 | Pieces of a unit join in order |
| ChunkRules.AudioParts | apps/pc-server/src/local_voice_agent_server/application/voice_turn.py:719-748 | So does the audio of the chunks, and counts and durations add up |
| SpeechFade.HoldingBack | apps/pc-server/src/local_voice_agent_server/application/voice_turn.py:600-664 | Finishing only the held-back tail finishes the whole unit |
| SpeechFade.ReleaseIsGentle | apps/pc-server/src/local_voice_agent_server/application/voice_turn.py:932-970 | Faded samples never exceed the original magnitude, so they fit 16 bits, and the last faded frame is zero |
| SpeechPcm.FinishSpeechUnit | apps/pc-server/src/local_voice_agent_server/application/voice_turn.py:932-970 | The loop over the buffer is the specified fade plus silence, and fails exactly on partial frames |
| SpeechPcm.FadeFrame | apps/pc-server/src/local_voice_agent_server/application/voice_turn.py:948-966 | One frame in place, every channel scaled |
| SpeechPcm.ScaledFits | apps/pc-server/src/local_voice_agent_server/application/voice_turn.py:955-964 | Scaling by at most one, rounded half to even, never enlarges a sample |
| SpeechPcm.RoundedNear | apps/pc-server/src/local_voice_agent_server/application/voice_turn.py:937-964 | Rounding is to the nearest integer |
| SpeechRules.FinishedSamples | apps/pc-server/src/local_voice_agent_server/application/voice_turn.py:932-970 | Sample by sample, without naming the functions: the fade covers the nearest whole number of frames to its milliseconds, at most all; samples before it are unchanged, in it each little-endian sample is scaled by the number of frames behind it over the length of the fade and rounded half to even; then so many frames of zeros as the silence makes |
| SpeechRules.NearestIsRounded | apps/pc-server/src/local_voice_agent_server/application/voice_turn.py:944-964 | Rounding half to even is the only nearest quotient with ties to the even one |
| SalonSpeech.Synthesize | apps/pc-server/src/local_voice_agent_server/application/salon_speech.py:47-182 | Succeeds exactly when every unit can be spoken; the chunks then carry each unit's faded audio and silence under one numbering, behind one speaking event and before the end event that tells how it went |
| SalonSpeech.SpeakUnit | apps/pc-server/src/local_voice_agent_server/application/salon_speech.py:86-160 | One unit through the hold-back loop equals finishing it whole |
| SalonSpeech.PublishPcm | apps/pc-server/src/local_voice_agent_server/application/salon_speech.py:197-228 | The chunks are the PCM, numbering continued |
| SalonSpeech.OnlyLastIsFinal | apps/pc-server/src/local_voice_agent_server/application/salon_speech.py:143-155 | Only the last unit of a reply is followed by the final silence, the others by the pause between units |
| SpeechSegments.StreamReply | apps/pc-server/src/local_voice_agent_server/application/voice_turn.py:453-566 | For every way of cutting the reply into deltas the queue holds exactly its non-space characters in order, as the takes from each delta on and a last rest cut them; fails exactly on a reply too long or empty |
| SpeechSegments.TakeCompleteSpeechUnits | apps/pc-server/src/local_voice_agent_server/application/voice_turn.py:889-929 | The three loops are the specified take |
| SpeechSegments.TakeSentences | apps/pc-server/src/local_voice_agent_server/application/voice_turn.py:892-906 | The loop over hard boundaries |
| SpeechSegments.TakeClauses | apps/pc-server/src/local_voice_agent_server/application/voice_turn.py:908-916 | The loop over clauses |
| SpeechSegments.TakeForced | apps/pc-server/src/local_voice_agent_server/application/voice_turn.py:917-928 | The loop of forced splits |
| SpeechSegments.TakeKeeps | apps/pc-server/src/local_voice_agent_server/application/voice_turn.py:889-929 | A take loses and invents no visible character, leaves fewer than 72 stripped characters, and only sentence units can exceed 73 |
| SpeechSegments.ClauseCutKeeps | apps/pc-server/src/local_voice_agent_server/application/voice_turn.py:908-916 | Clause units have at most 72 characters |
| SpeechSegments.ForcedCutKeeps | apps/pc-server/src/local_voice_agent_server/application/voice_turn.py:917-928 | Forced units have at most 73 characters |
| SpeechSegments.SpeechUnits | apps/pc-server/src/local_voice_agent_server/application/voice_turn.py:849-865 | The batch segmentation keeps the visible characters, fails exactly without any, and joins a rest to a short last unit exactly if the two fit |
| SegmentRules.TakeIs | apps/pc-server/src/local_voice_agent_server/application/voice_turn.py:889-929 | A take is three cuts, each stated over positions: sentences at the first hard boundary behind at least 18 characters; clauses at the first mark from 22 characters on that ends within 72; and by force, only while 72 or more are left, behind the last clause mark, else the last white space, else 72 characters of the window |
| SegmentRules.CharactersAre | apps/pc-server/src/local_voice_agent_server/application/voice_turn.py:808-812 | Which characters end a sentence or a clause or are white space |
| SegmentRules.SentencesAre | apps/pc-server/src/local_voice_agent_server/application/voice_turn.py:892-906 | Hard boundaries are all the white space behind the end of a sentence or two or more line feeds; the first that leaves a unit long enough ends it, and no other does |
| SegmentRules.ClausesAre | apps/pc-server/src/local_voice_agent_server/application/voice_turn.py:908-916 | Clauses end at these marks and at no other |
| SegmentRules.ForcedAre | apps/pc-server/src/local_voice_agent_server/application/voice_turn.py:917-928 | Forced splits happen at these places and only when needed |
| VadWorker.AnalyzeAll | apps/pc-server/workers/vad_worker.py:107-148 | The counters depend only on the concatenated audio, not on how it was cut into requests |
| VadWorker.StreamState.Analyze | apps/pc-server/workers/vad_worker.py:107-148 | One request continues the scan of everything heard so far |
| VadWorker.StreamState.Score | apps/pc-server/workers/vad_worker.py:117-138 | One frame's effect on the counters |
| VadWorker.CountersMean | apps/pc-server/workers/vad_worker.py:107-148 | Processed samples are whole frames and at most 1,920,512; voiced samples are those of the voiced frames and, once speech has started, silent ones those of all the quiet frames at the very end; the probability is the last frame's |
| VadWorker.EndOfSpeech | apps/pc-server/workers/vad_worker.py:133-138 | Speech ends exactly past the limit or with enough voiced and trailing silent samples |
| VadWorker.EndIsFinal | apps/pc-server/workers/vad_worker.py:107-148 | More audio never takes the end of speech back |
| VadWorker.ScanOfPrefix | apps/pc-server/workers/vad_worker.py:107-148 | The scan of a prefix is the prefix of the scan |
| UnifiedPatch.ApplyUnifiedPatch | apps/tool-executor/src/local_voice_agent_tool_executor/mutations.py:381-438 | The single pass succeeds exactly when the patch parses and its hunks are ordered, in range, matching and count-consistent, and is the application of the hunks last to first |
| UnifiedPatch.ForwardIsBackwards | apps/tool-executor/src/local_voice_agent_tool_executor/mutations.py:381-438 | One pass forward equals independent slice replacements last to first |
| UnifiedPatch.ResultLength | apps/tool-executor/src/local_voice_agent_tool_executor/mutations.py:381-438 | The result is longer by the sum of the hunks' growth |
| UnifiedPatch.ConsumeBody | apps/tool-executor/src/local_voice_agent_tool_executor/mutations.py:409-431 | A hunk body is consumed exactly if it matches the source |
| PatchRules.HeaderIff | apps/tool-executor/src/local_voice_agent_tool_executor/mutations.py:30-33 | A line is read as a hunk header exactly if it is spelled as one, with the numbers spelled in it; an absent count is 1 |
| PatchRules.ParsedIff | apps/tool-executor/src/local_voice_agent_tool_executor/mutations.py:381-431 | A patch is accepted by the reader exactly if it is file headers followed by at least one hunk, each a header line and marked lines, and is read as these hunks |
| PatchRules.MarkersMean | apps/tool-executor/src/local_voice_agent_tool_executor/mutations.py:413-431 | A context line is expected and left, a removed one only expected, an added one only left |
| PatchRules.BodyParts | apps/tool-executor/src/local_voice_agent_tool_executor/mutations.py:413-431 | The lines of a body count in order |
| PatchText.ApplyPatchText | apps/tool-executor/src/local_voice_agent_tool_executor/mutations.py:381-438 | On texts: accepts exactly a patch that parses and fits, renders with one newline, and the result's lines are the patched lines if and only if those can be represented (no lines needs no final newline, no trailing empty line without one) |
| PatchText.RenderedLines | apps/tool-executor/src/local_voice_agent_tool_executor/mutations.py:435-438 | A rendered text splits into the lines it came from exactly if they are representable |
| PatchText.EmptiedTextKeepsALine | apps/tool-executor/src/local_voice_agent_tool_executor/mutations.py:435-438 | Counterexample: removing the only line of a text that ends with a newline leaves one empty line |
| TextRules.TextRoundTrip | apps/tool-executor/src/local_voice_agent_tool_executor/mutations.py:381-438 | On texts: a text and a rendered edit script for it are always accepted, and the result is the second text in the newline convention of the first if and only if every block that only inserts stands at the start or repeats the line before it |
| TextRules.ConventionSeen | apps/tool-executor/src/local_voice_agent_tool_executor/mutations.py:384-385 | A text shows the newline it was written with as soon as it has one, and whether it ends with one |
| PatchRendering.RoundTrip | apps/tool-executor/src/local_voice_agent_tool_executor/mutations.py:381-438 | A patch rendered from a two-file edit script in the POSIX format is always accepted, and reproduces the second file if and only if every block that only inserts stands at the start or repeats the line before it |
| PatchRendering.InsertionAfterALine | apps/tool-executor/src/local_voice_agent_tool_executor/mutations.py:404 | Counterexample: inserting after line 1 puts the new line before it |
| PatchRendering.HeaderRead | apps/tool-executor/src/local_voice_agent_tool_executor/mutations.py:30-33 | A rendered hunk header is read back |
| PatchRendering.RenderingRead | apps/tool-executor/src/local_voice_agent_tool_executor/mutations.py:381-438 | A rendered patch parses into its hunks |
| PatchRendering.Placed | apps/tool-executor/src/local_voice_agent_tool_executor/mutations.py:381-438 | Where each rendered hunk is applied |
| FileMutation.UndoRestores | apps/tool-executor/src/local_voice_agent_tool_executor/mutations.py:109-301 | Any sequence of successful writes and patches of one file, rolled back in reverse under fresh ids, always succeeds and restores the file system exactly, absence included |
| FileMutation.InterleavedUndoRestores | apps/tool-executor/src/local_voice_agent_tool_executor/mutations.py:109-301 | Changes of one file and their rollbacks from the last on, nested in each other and interleaved with any requests on other files: every rollback succeeds, the file ends as it began, absence included, and every other file is what the other requests alone make of it |
| FileMutation.NestedRestores | apps/tool-executor/src/local_voice_agent_tool_executor/mutations.py:109-166 | The invariant behind it: the backups of the changes not yet undone lead from the file's content back to what it was |
| FileMutation.OthersUntouched | apps/tool-executor/src/local_voice_agent_tool_executor/mutations.py:109-301 | Requests on other files do the same with and without the changes of this one |
| FileMutation.BackupIsPreImage | apps/tool-executor/src/local_voice_agent_tool_executor/mutations.py:168-260 | A request changes nothing, or leaves a backup with the exact content before and after and touches no other file or backup |
| FileMutation.RollbackOfRollback | apps/tool-executor/src/local_voice_agent_tool_executor/mutations.py:109-166 | Rolling back a rollback redoes the change exactly if it restored a content; a removal cannot be redone |
| FileMutation.IdActsOnce | apps/tool-executor/src/local_voice_agent_tool_executor/mutations.py:225-260 | In every run an execution id changes files at most once |
| FileMutation.UsedIdChangesNothing | apps/tool-executor/src/local_voice_agent_tool_executor/mutations.py:225-245 | A used id changes nothing |
| FileMutation.FailedButReplacedIff | apps/tool-executor/src/local_voice_agent_tool_executor/mutations.py:203-213 | Exact condition: a request fails although the file was replaced if and only if a write passed every guard over content that is not UTF-8 |
| FileMutation.FailedButReplaced | apps/tool-executor/src/local_voice_agent_tool_executor/mutations.py:441-447 | Counterexample: overwriting the single byte 255 |
| FileMutation.FileMutationExecutor.ReplaceFile | apps/tool-executor/src/local_voice_agent_tool_executor/mutations.py:168-223 | Files and backups in place: exactly the specified result |
| FileMutation.FileMutationExecutor.WriteContent | apps/tool-executor/src/local_voice_agent_tool_executor/mutations.py:53-74 | Files and backups in place: exactly the specified result |
| FileMutation.FileMutationExecutor.PatchContent | apps/tool-executor/src/local_voice_agent_tool_executor/mutations.py:76-107 | Files and backups in place: exactly the specified result |
| FileMutation.FileMutationExecutor.RollbackChange | apps/tool-executor/src/local_voice_agent_tool_executor/mutations.py:109-166 | Files and backups in place: exactly the specified result |
| FileRules.CarriedOutIff | apps/tool-executor/src/local_voice_agent_tool_executor/mutations.py:53-223 | Exactly when a write, a patch or a rollback is carried out, and then what the file holds, what the backup records and what is answered; otherwise nothing changes |
| FileRules.RefusedAs | apps/tool-executor/src/local_voice_agent_tool_executor/mutations.py:53-223 | Which error each refused request gets |
| FileRules.Utf8Iff | apps/tool-executor/src/local_voice_agent_tool_executor/mutations.py:90-93 | A content passes as UTF-8 exactly if it is the shortest-form encoding of Unicode scalar values (RFC 3629, section 3) |
| UiSnapshot.SnapshotTree | apps/tool-executor/src/local_voice_agent_tool_executor/windows_ui.py:541-581 | Exactly the first max_nodes entries of the recursive preorder of the limited tree; without truncation nothing is missing or cut |
| UiSnapshot.SnapshotWellNested | apps/tool-executor/src/local_voice_agent_tool_executor/windows_ui.py:541-581 | Every record's parent is the last one before it that is not as deep, one level up; only the root has none |
| UiSnapshot.PreorderWellNested | apps/tool-executor/src/local_voice_agent_tool_executor/windows_ui.py:541-581 | The same for the whole preorder |
| UiSnapshot.PushedSiblings | apps/tool-executor/src/local_voice_agent_tool_executor/windows_ui.py:574-577 | Pushing children in reverse walks them in order |
| UiSnapshot.PopReadable | apps/tool-executor/src/local_voice_agent_tool_executor/windows_ui.py:554-578 | One pop is one preorder entry followed by its children |
| UiSnapshot.WalkIsComplete | apps/tool-executor/src/local_voice_agent_tool_executor/windows_ui.py:554-578 | Below every recorded element above the depth limit exactly the readable ones among its first 500 children are recorded, in order and with their own attributes |
| ReplayWindow.Connect | apps/pc-server/src/local_voice_agent_server/api.py:946-1019 | Without a state on file a resume behind an event is refused as expired and others start afresh if there is room; with one, a client that is connected, gives no resume point or is ahead is refused as such, any other is refused as expired exactly when a replayable event above its resume point has left the window, and otherwise the replay is exactly the replayable events sent under the present state above it, in order |
| ReplayWindow.SessionReplayState.Append | apps/pc-server/src/local_voice_agent_server/api.py:193-227 | The window stays the longest suffix within 256 events and 4 MiB; floor and byte count follow |
| ReplayWindow.SessionReplayState.SendEvent | apps/pc-server/src/local_voice_agent_server/api.py:1032-1051 | Every event gets the next number; a replayable one enters the window |
| ReplayWindow.FloorTest | apps/pc-server/src/local_voice_agent_server/api.py:984-1009 | The floor test is exact |
| ReplayWindow.LongestIsLongest | apps/pc-server/src/local_voice_agent_server/api.py:193-227 | No longer suffix fits |
| ReplayWindow.LongestFits | apps/pc-server/src/local_voice_agent_server/api.py:193-227 | The window stays within its limits |
| ReplayWindow.UpToDateIsAccepted | apps/pc-server/src/local_voice_agent_server/api.py:995-1009 | While its state is on file, a client that has seen everything is at or above the floor and has nothing to be sent |
| SessionRegistry.ReplaysAllIff | apps/pc-server/src/local_voice_agent_server/api.py:946-1019 | Exact condition over every run of connects, sends, disconnects, expiries and evictions: an accepted resume replays all replayable events ever sent to the session above its resume point, in order, if and only if none of those sent under its dropped states is above it |
| SessionRegistry.NoDropNoLoss | apps/pc-server/src/local_voice_agent_server/api.py:946-1019 | Over every run that never drops the session's state every accepted resume replays all of them |
| SessionRegistry.ResumeIsSeamless | apps/pc-server/src/local_voice_agent_server/api.py:995-1051 | A client that had received everything and whose state is not dropped is refused exactly if it is still connected or a replayable event it missed has left the window, and otherwise is sent exactly the replayable events it missed, whatever other sessions do |
| SessionRegistry.ExpiryLosesEvents | apps/pc-server/src/local_voice_agent_server/api.py:1324-1338 | Counterexample run: an event sent, a disconnect, the end of the grace period, and a resume from -1 that is accepted with an empty replay |
| SessionRegistry.RunKeeps | apps/pc-server/src/local_voice_agent_server/api.py:966-1051 | Over every run at most 1024 states, each with gap-free numbers |
| SessionRegistry.StepExtends | apps/pc-server/src/local_voice_agent_server/api.py:966-1051 | A step that does not drop a session's state loses nothing of it |
| SessionRegistry.SessionStates.Connect | apps/pc-server/src/local_voice_agent_server/api.py:966-1019 | The registry's objects in place: a connection attempt, with the eviction of an idle state at the limit is exactly the corresponding step, and all windows stay valid |
| SessionRegistry.SessionStates.Resume | apps/pc-server/src/local_voice_agent_server/api.py:995-1019 | The registry's objects in place: an attempt on a state on file is exactly the corresponding step, and all windows stay valid |
| SessionRegistry.SessionStates.Begin | apps/pc-server/src/local_voice_agent_server/api.py:969-994 | The registry's objects in place: an attempt without one is exactly the corresponding step, and all windows stay valid |
| SessionRegistry.SessionStates.SendEvent | apps/pc-server/src/local_voice_agent_server/api.py:1032-1051 | The registry's objects in place: one event is exactly the corresponding step, and all windows stay valid |
| SessionRegistry.SessionStates.Disconnect | apps/pc-server/src/local_voice_agent_server/api.py:1320-1322 | The registry's objects in place: a disconnect is exactly the corresponding step, and all windows stay valid |
| SessionRegistry.SessionStates.Expire | apps/pc-server/src/local_voice_agent_server/api.py:1329-1338 | The registry's objects in place: the end of a grace period is exactly the corresponding step, and all windows stay valid |
| SessionRegistry.ExpiredIff | apps/pc-server/src/local_voice_agent_server/api.py:966-1002 | Exact condition over every run: a client is refused as expired if it names an event and its state is not on file; and with its state on file if and only if it is not connected, not ahead, and a replayable event above its resume point has left the window |
| SessionRegistry.UpToDateExpiresIff | apps/pc-server/src/local_voice_agent_server/api.py:966-1019 | Over every run a client that has seen every replayable event ever sent to its session is refused as expired if and only if it names an event and its state is no longer on file; with its state on file and its last number it is accepted |
| SessionRegistry.ExpiryRefusesUpToDate | apps/pc-server/src/local_voice_agent_server/api.py:968-970 | Counterexample run: a client that has received everything is refused as expired after its grace period |
| ReplayRules.MissedAre | apps/pc-server/src/local_voice_agent_server/api.py:1014-1019 | What a resume needs are exactly the replayable events sent with a higher number, in order |
| ReplayRules.WindowIs | apps/pc-server/src/local_voice_agent_server/api.py:193-227 | A run of the latest events is in the window exactly if it has at most 256 events and 4 MiB |
| ReplayRules.AdmittedIff | apps/pc-server/src/local_voice_agent_server/api.py:966-1019 | Who is admitted: an unknown session that asks for nothing or everything while there is room or an idle state to evict, a known one that is not connected and resumes behind what it was sent with everything newer still kept; and with exactly the events missed |
| ReplayRules.RefusedWith | apps/pc-server/src/local_voice_agent_server/api.py:966-1002 | Which refusal everybody else gets |
| ReplayRules.RegistryStep | apps/pc-server/src/local_voice_agent_server/api.py:966-1051 | After every step, for every session: whether it has a state, whether a client is connected, what was sent under the state and what is lost |

## Left out

- Sockets, HTTP, WebSocket frames, subprocesses, SQL text, JSON Schema, Playwright, pywinauto and model inference: only the
  state they guard is modelled.
- Authentication, tickets, path and link checks: outside the state machines.
- SessionOwnership.OwnedUnlessEarly: audio turns are identified by their session, request ids are the input `matches` of a cancel,
  and the cache of cancel results is not modelled; one foreground request per session at a time is the discipline of the
  WebSocket loop (apps/pc-server/src/local_voice_agent_server/api.py:1248-1318) and is an enabling condition here; so is that a
  cancelled task does not swallow its cancellation.
- SessionRuns.UsersCounted: the wait of begin_switch ends by draining, timeout or cancellation as separate steps; times are not modelled.
- ModelSwitch.SwitchKeeps: emitted events and durations are left out; the port returns matching receipts or refuses, and a switch
  is not cancelled. "One occupied runtime" is about recorded states: a runtime whose stop failed is FAILED.
- DurableExecution.LogMatchesRow: arguments, result metadata and sessions are left out of the rows; `create_tool_execution` is not
  on the lifecycle path.
- DurableStore.DurableToolExecutionLifecycle.Execute: the method is proved for a run that nobody disturbs between its transactions;
  every interleaving with other clients and crashes is in the state machine of DurableExecution.
- BoundExecution.AtMostOneCallPerKey: is about the life of one process, and requires execution ids that belong to one key, which
  the planner's fresh ids give but the service does not check; BoundExecution.CallsExactly is the statement without the latter,
  BoundExecution.CallsOverRestarts without either. The checks before the cache and the time checks behind it are verdicts of
  the request; the audit store does not fail except by refusing to overwrite evidence.
- ReservationStore.FileIsCommitted: fsync durability and the JSON encoding are left out; a document is read back as it was written.
- SalonBooking.CreateKeeps: names are taken as already stripped, codes as already normalized, and digits are ASCII digits.
- SalonReservations.SalonReservationService.Book: requires the drawn id to be new to the list; the store itself refuses a repeated one.
- AvailabilitySearch.Search: one reservation list and one clock reading for the whole search.
- SalonCall.CommitsWithinRaises: that other sessions leave a safe list is required here and is ReservationStore.NeverDoubleBooked;
  replies, history and notifications are left out.
- VadWorker.AnalyzeAll: 16 kHz mono only; resampling at 24 and 48 kHz restarts with each chunk and is meant to. The registry limit of
  streams is left out.
- SpeechSegments.StreamReply: the concurrent consumer of the queue is left out, and so is the rewriting of units for the synthesizer.
- UnifiedPatch.ApplyUnifiedPatch: the limit on the size of a patch is left out, and digits in hunk headers are ASCII digits.
- FileMutation.UndoRestores: crashes between backup and replacement, and interference by other programs, are left out; a patch is a function
  from content to content here, and what that function is on texts is PatchText.
- UiSnapshot.SnapshotTree: the tree does not change while it is read, and unreadable elements are marked as such.
- ReplayWindow.Connect: envelopes have a size instead of their JSON text.
- SessionRegistry.ReplaysAllIff: which idle state is the oldest one without a running grace period is an input of a connection attempt,
  and the end of a grace period may come at any time.
- The model router, the percentile helpers, the input audio aggregate, the policy and all scripts and migrations: finite or
  single-branch code.
