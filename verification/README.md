# Verification of the realtime runtime kernel

A Dafny model of the realtime kernel in `framework/` and of two streaming loops in `core/`,
with proofs of the guarantees their docstrings and error paths state. Where the code gives
less than its documentation says, the model keeps the code's behaviour, the exact condition
under which the guarantee holds is proved, and a concrete run shows the failure.

`dafny verify dfyconfig.toml` checks the whole project.

## What is modelled

- **Backpressure** (`Backpressure.dfy`, `BackpressureRuntime.dfy`): the admission controller
  as a value and as a class whose deque and dictionary change in place, with the validity
  rules of every record it builds.
- **Event hub** (`EventHub.dfy`, `EventHubProtocol.dfy`, `EventHubDelivery.dfy`,
  `EventHubRequests.dfy`, `EventHubRefinement.dfy`): `emit` over two controllers with rollback, the drain loop, and a
  step relation in which any number of emitters (callbacks re-entering `emit` among them),
  pause, resume, subscribe, unsubscribe, close and the drainer interleave. The step relation
  splits the emit section at each controller call, since the drainer uses the controllers
  without the hub lock. `EventHubRequests.dfy` says of every accepted delivery which call
  asked for it and what each token is given; `EventHubRefinement.dfy` connects step relation
  and `emit`: an emit nobody interferes with is the atomic one.
- **Generation gate and motion** (`GenerationGate.dfy`, `MotionPublish.dfy`,
  `MotionSession.dfy`): freshness ownership, its counters, and the publication of motion
  results decided by the gate but emitted after its lock is released, as a step relation and
  as a method over the gate's and the hub's classes.
- **Execution bridge** (`ExecutionBridge.dfy`, `ExecutionBridgeSubmit.dfy`,
  `ExecutionBridgeClass.dfy`): the start and shutdown protocol between callers and one loop
  thread, and what becomes of the coroutines submitted to it.
- **Voice cancellation** (`VoiceCancel.dfy`, `VoiceCancelAnswers.dfy`,
  `VoiceCancelStage.dfy`): a synthesis worker with a completion and a release section, cancels
  with two sections around a bounded wait, and flushes, over the gate and the artifact store;
  and what every cancel answers.
- **Fake scheduler** (`FakeScheduler.dfy`, `FakeSchedulerClass.dfy`): the deterministic
  priority scheduler with paused stages.
- **Streaming and emotion tags** (`Streaming.dfy`, `Emotion.dfy`): chunked against batch
  parsing of a response.
- **Text-chat turn** (`TextChatTurn.dfy`, `TextChatSession.dfy`): the `ask_stream` generator,
  `interrupt_result` and `close`, first with other threads between any two steps, then as
  the loop a single-threaded host consumes.
- **Public sanitizer** (`PublicSafety.dfy`): recursive redaction of arbitrary object graphs.
- `Common.dfy`: an option type and sequence facts.

Concurrent components are state machines in which one lock section, or one action between
two, is one step; a property of "every run" is proved for every sequence of steps. Classes
next to them give the sections in their imperative form, with the step as their contract.

## Where the code falls short of its documentation

- A cancel that enters between the worker's completion section and its release reports
  COMPLETED and `future_delivery_suppressed`, yet the audio is returned, against the
  docstring at `framework/_realtime_voice_output_control.py:107-111`. The FW artifact of that
  audio is dead in every case; a provider URL is not.
- A duplicate cancel is documented to return the established result
  (`docs/v600_realtime_voice_output_contract.md:1733`). It does as long as that result stands:
  no new work claimed, and no cancel of another work has reported since. A late canceller of
  an earlier work overwrites it, and the same cancel is then answered NO_ACTIVE_GENERATION; a
  closed stage answers ALREADY_CLOSED.
- After a flush that saw a work active, an artifact of that work can still come to be opened
  if and only if, at the flush's last step, the work still runs with no cancel noted (which
  happens only when the cancel inside finds the stage closed) and no gate stands in the way
  for good. A provider URL that was handed over before the cancel inside is taken back by no
  flush.
- A shutdown between the worker's read of `_closed` and `run_forever` loses its stop for
  good: every later shutdown skips the stop because the bridge is closed already.
- A coroutine submitted before a shutdown but posted while the worker's finally block is
  between its last run of the loop and `loop.close()` is neither run nor rejected: its future
  is never done, although the shutdown reports True.
- A motion result accepted by the gate may be published after its generation is retired.
- With a delivery limit of one, an emit with an overflow factory on a full history is
  rejected as retryable, and no retry can succeed.
- A response cut inside its emotion tag shows the tag; a cut after a space loses the space;
  an empty first chunk turns tag parsing off.
- An accepted interrupt is documented to suppress future chunks. One accepted before the flag
  is reset at the start of the turn is forgotten, and one accepted while a delta is past its
  interrupt check does not stop that delta. (An interrupt accepted after the last interrupt
  check changes nothing: the turn ends as completed.)
- A callback can hear two terminal events of one turn: when the session is closed between the
  generator's last closed check and the end of its context, and the generator's own terminal
  event comes before the close clears the callbacks. A host that closes from its
  TURN_COMPLETED callback is enough. A close from RESPONSE_COMPLETED is not: the turn still
  completes, but nobody hears it. A close between the first check and the start of the
  context lets the turn end with no terminal event at all.
- The sanitizer keeps mapping keys as they are, so a key that is a private path survives.

## Model

| member | source | states |
|---|---|---|
| `BackpressureRuntime.RunIsSound` | framework/backpressure_runtime.py:104-320 | over any sequence of calls and any limits: identities stay distinct and both bounds hold; every accepted item is in exactly one of pending, in flight, completed, withdrawn; pending keeps admission order |
| `BackpressureRuntime.ClosedIsFinal` | framework/backpressure_runtime.py:235-270 | once closed, closed for the rest of any run, and nothing new is ever owned |
| `BackpressureRuntime.AdmissionIsExact` | framework/backpressure_runtime.py:104-173 | every answer of `admit` after any calls, each as an iff: duplicate iff accepted more often than completed or withdrawn; closed or paused as the calls left it; capacity iff the place asked for is full; accepted otherwise, and then owned there |
| `BackpressureRuntime.FlowIsRead` | framework/backpressure_runtime.py:229-282 | after any calls: closed iff `close` was called, else paused iff the last pause or resume was a pause |
| `BackpressureRuntime.OverflowCountsRefusals` | framework/backpressure_runtime.py:104-173 | the overflow count is the number of capacity refusals in the run |
| `BackpressureRuntime.MovesAreExact` | framework/backpressure_runtime.py:175-227 | claims, completions and withdrawals move exactly the named identity, a claim iff it is pending and there is room |
| `BackpressureRuntime.OldestIsClaimed` | framework/backpressure_runtime.py:175-204 | without a key the head of the queue is claimed, iff there is one and there is room |
| `BackpressureRuntime.BoundedBackpressureRuntime.Admit` | framework/backpressure_runtime.py:104-173 | outcome and new state, duplicate error included; every result and overflow record built passes its own validator; overflow is reported exactly for capacity |
| `BackpressureRuntime.BoundedBackpressureRuntime.TakeFirst` | framework/backpressure_runtime.py:183-227 | the deque-rebuilding loop removes the first match only and keeps the order of the rest |
| `BackpressureRuntime.BoundedBackpressureRuntime.Claim` | framework/backpressure_runtime.py:175-204 | claims a pending id if and only if there is room in flight; the rest keeps its order |
| `BackpressureRuntime.BoundedBackpressureRuntime.ClaimOldest` | framework/backpressure_runtime.py:175-204 | without a key the oldest pending item is claimed |
| `BackpressureRuntime.BoundedBackpressureRuntime.Complete` | framework/backpressure_runtime.py:206-210 | only an in-flight id completes, and it leaves the controller |
| `BackpressureRuntime.BoundedBackpressureRuntime.WithdrawPending` | framework/backpressure_runtime.py:212-227 | removes exactly the pending id, nothing in flight |
| `BackpressureRuntime.BoundedBackpressureRuntime.Control` | framework/backpressure_runtime.py:242-282 | pause and resume change state exactly when allowed, and their record passes its validator in every case |
| `BackpressureRuntime.BoundedBackpressureRuntime.Close` | framework/backpressure_runtime.py:235-240 | closes and returns a valid snapshot |
| `EventHub.RejectedEmitChangesNothing` | framework/realtime_event_hub.py:356-371 | a backpressure-rejected emit, whichever delivery and controller refused, leaves the hub (but its rejection counter) and what both controllers own as before |
| `EventHub.EmitAnswers` | framework/realtime_event_hub.py:315-407 | closed error iff closed, counted; sequence error iff a factory moved its sequence, changing nothing; an accepted emit returns its own event and queues it with the projection it was given, for whoever is registered |
| `EventHub.RetryTakesTheSameSequence` | framework/realtime_event_hub.py:330-407 | a retry that succeeds takes the sequence number the rejected emit had |
| `EventHub.ExactAdmission` | framework/realtime_event_hub.py:337-363 | on an open, accepting hub an emit is accepted if and only if pending plus its one or two records fit the limit; only the subscriber boundary can refuse |
| `EventHub.ExactNonDeltaAdmission` | framework/realtime_event_hub.py:337-363 | the same for non-delta emits whatever the state of the response controller, with the exact rejection |
| `EventHub.LimitOneNeverAdmitsOverflow` | framework/realtime_event_hub.py:146-147 | limit one, full history and an overflow factory: rejected in every state, so the retryable rejection never succeeds |
| `EventHub.HeadIsClaimed` | framework/realtime_event_hub.py:456-496 | the oldest queued delivery can be claimed from every controller it is in, and agreement with the rest remains |
| `EventHub.RealtimeEventHub.EmitLocked` | framework/realtime_event_hub.py:315-407 | the emit section computes the atomic emit, whose answer, queue entry and legacy projection EmitAnswers pins, and elects one dispatcher |
| `EventHub.RealtimeEventHub.BuildEvents` | framework/realtime_event_hub.py:328-355 | the events, the drop count and the overflow arguments, or the changed-sequence error |
| `EventHub.RealtimeEventHub.AdmitAllLocked` | framework/realtime_event_hub.py:356-371 | all records admitted, or those admitted so far withdrawn |
| `EventHub.RealtimeEventHub.AdmitDeliveryLocked` | framework/realtime_event_hub.py:498-518 | subscriber first, response for deltas, the first undone when the second refuses |
| `EventHub.RealtimeEventHub.WithdrawAll` | framework/realtime_event_hub.py:362-371 | the rollback loop withdraws each admitted record from the controllers it is in |
| `EventHub.RealtimeEventHub.CommitLocked` | framework/realtime_event_hub.py:373-407 | sequence, counters, evicted history, queue and dispatcher election of an accepted emit; the deliveries are those DeliveriesFor makes, whose events and projections EmitAnswers and AcceptedAsRequested pin |
| `EventHub.RealtimeEventHub.DeliverPopped` | framework/realtime_event_hub.py:464-496 | drift is raised exactly when a claim would fail; otherwise each callback is called once and the claims are completed |
| `EventHub.RealtimeEventHub.DrainDeliveries` | framework/realtime_event_hub.py:456-496 | the drain loop delivers the whole queue in order, never drifts, and leaves queue and controllers empty and in agreement |
| `EventHub.RealtimeEventHub.Subscribe` | framework/realtime_event_hub.py:267-286 | registers unless closed |
| `EventHub.RealtimeEventHub.Unsubscribe` | framework/realtime_event_hub.py:288-298 | removes the token and says whether it was there; queued deliveries are untouched |
| `EventHub.RealtimeEventHub.Close` | framework/realtime_event_hub.py:412-423 | the first close clears registrations and closes both controllers, keeping queued deliveries; later ones change nothing |
| `EventHubProtocol.EveryStateHasInv` | framework/realtime_event_hub.py:300-518 | the whole protocol invariant in every state of every interleaving |
| `EventHubProtocol.StructuresAgree` | framework/realtime_event_hub.py:456-518 | at every step the subscriber controller holds the popped-unclaimed id, the queue in order and the emit's admitted records; the response controller the delta part of the same, up to the second claim |
| `EventHubProtocol.NoDriftNoDuplicateNoLostWakeup` | framework/realtime_event_hub.py:464-496 | both drift errors and the duplicate-id error are unreachable; at most one drainer; a non-empty queue has one |
| `EventHubProtocol.HistoryIsASuffix` | framework/realtime_event_hub.py:373-400 | history is the contiguous suffix of accepted sequences, all of them up to its limit and exactly the limit beyond; first retained is overflow count + 1; emitted = retained + dropped; next = emitted + 1 |
| `EventHubProtocol.OverflowRecordNamesTheLoss` | framework/realtime_event_hub.py:337-355 | the overflow diagnostic's arguments are exactly the range this emit evicts |
| `EventHubDelivery.ExactlyOnceInOrder` | framework/realtime_event_hub.py:403-496 | in every state of every run each subscriber has received a prefix of what it is owed, in strictly increasing order, and all of it when no drainer is active |
| `EventHubDelivery.AcceptedWhileRegistered` | framework/realtime_event_hub.py:430-454 | an accepted event is owed to exactly the tokens registered at its commit, whatever unsubscribes or closes later |
| `EventHubRequests.AcceptedAsRequested` | framework/realtime_event_hub.py:315-454 | every accepted delivery comes from one `emit` call of the run: its event is what that call's factory, or its overflow factory with the exact loss, made of the next sequence, and its legacy event is that call's projection of it |
| `EventHubRequests.WhatATokenIsOwed` | framework/realtime_event_hub.py:430-454 | for every token and accepted delivery: a canonical registration is owed the event, a legacy one its projection if there is one, anybody else nothing; with ExactlyOnceInOrder that is what is received |
| `EventHubRequests.RegisteredIff` | framework/realtime_event_hub.py:267-298 | who is registered in any state of any run: iff subscribed and not unsubscribed since, with no close so far |
| `EventHubRequests.CallsInOrder` | framework/realtime_event_hub.py:474-487 | the calls of one delivery: canonical callbacks in registration order, then the legacy ones with the projection |
| `EventHubRequests.CallsAreInSequence` | framework/realtime_event_hub.py:456-496 | all callback invocations of a run, whoever they go to, are in sequence order |
| `EventHubRequests.FlowIff` | framework/realtime_event_hub.py:255-265 | in any state of any run each controller is closed iff the closer got to it, else paused iff the last pause or resume of its own boundary was a pause |
| `EventHubRequests.RejectionsAreCounted` | framework/realtime_event_hub.py:300-371 | the rejection counters are the numbers of emits that found the hub closed and of emits that were rolled back |
| `EventHubDelivery.LockSectionEnds` | framework/realtime_event_hub.py:315-423 | whoever holds the hub lock, emitter or closer, at whatever controller call, can finish its section |
| `EventHubDelivery.DrainerFinishes` | framework/realtime_event_hub.py:456-496 | from every reachable state the lock holder can finish and the drainer, never blocked, then empties the queue and stops with everything owed received |
| `EventHubDelivery.RejectedEmitLeavesNoTrace` | framework/realtime_event_hub.py:356-371 | the transactional emit also when pauses, claims, callbacks and completions fall into the middle of it: the hub is as it was, no controller owns an identity from the next sequence on, and their pending ids are exactly the queue and what the drainer has yet to claim |
| `EventHubDelivery.DeltaRefusedForCapacity` | framework/realtime_event_hub.py:498-518 | the response controller refuses a delta for capacity if and only if the drainer stands between its two claims of a delta, the subscriber side is full and everything waiting is a delta |
| `EventHubDelivery.DeltaRefusalIsReachable` | framework/realtime_event_hub.py:464-472 | a run that reaches that refusal |
| `EventHubRefinement.EmitIsASoloRun` | framework/realtime_event_hub.py:300-410 | from every reachable state, the fine-grained emit steps without interference compute the atomic emit |
| `EventHubRefinement.ExactAdmissionInRuns` | framework/realtime_event_hub.py:337-363 | exact admission in every reachable state with the lock free and no drainer between two claims |
| `EventHubRefinement.LimitOneStarvesOverflow` | framework/realtime_event_hub.py:337-371 | limit one: once history is full it stays full, and for the rest of every run an emit with an overflow factory is refused at once and never commits under interference |
| `GenerationGate.RunIsSound` | framework/realtime_generation_gate.py:193-278 | over every run: known = retired plus active, active and reserved never coexist, and all counters account for identities and completions |
| `GenerationGate.ClassificationIsExact` | framework/realtime_generation_gate.py:320-375 | accepted iff the active id with the active turn; retired, unknown and mismatch otherwise, each iff; the known-but-not-active rejection is dead code |
| `GenerationGate.GateIsRead` | framework/realtime_generation_gate.py:207-278 | owner, reservation, latest identity and accepted count are what the calls of the run say, read off without the gate's state |
| `GenerationGate.StartMakesCurrent` | framework/realtime_generation_gate.py:207-233 | a start returns the reserved identity if the last start or reset reserved one, else the new one, and makes it current in the given turn |
| `GenerationGate.ResetReturnsIff` | framework/realtime_generation_gate.py:251-264 | a reset returns nothing iff no turn was ever started; otherwise the identity issued last, its turn running, terminal or not yet begun, and the new one |
| `GenerationGate.GenerationsMoveForward` | framework/realtime_generation_gate.py:207-278 | between any two points of a run a generation only moves forward through reserved, active, retired, with turn and reason fixed |
| `GenerationGate.RetiredIsForever` | framework/realtime_generation_gate.py:324-337 | once retired, refused for good with the reason it was retired by |
| `GenerationGate.RetirementIsExact` | framework/realtime_generation_gate.py:221-278 | the reason kept for good is that of the call that took the generation from being current: NEW_TURN for a start, RESET for a reset, its argument for an advance; the turn is the owner's |
| `GenerationGate.RetiredOnlyBy` | framework/realtime_generation_gate.py:221-278 | nothing is retired in any other way |
| `GenerationGate.ResetReservesTheNextStart` | framework/realtime_generation_gate.py:235-264 | once any turn was started, a reset gives up the identity issued last, and the next start takes exactly the other one it returns, whatever completions and advances come between |
| `GenerationGate.ResetRetiresForGood` | framework/realtime_generation_gate.py:235-264 | once any turn was started, the identity issued last before a reset is never accepted again in the rest of any run, new starts and resets included |
| `GenerationGate.RealtimeGenerationGate.StartGeneration` | framework/realtime_generation_gate.py:207-233 | in place: retires, binds the reserved or a new identity |
| `GenerationGate.RealtimeGenerationGate.ResetGeneration` | framework/realtime_generation_gate.py:235-264 | in place: retires and reserves, or reports nothing to reset, which ResetReturnsIff says is exactly before the first start |
| `GenerationGate.RealtimeGenerationGate.ApplyCompletion` | framework/realtime_generation_gate.py:292-318 | the callback receives the value once if accepted, never otherwise |
| `MotionPublish.PublishedAsDecided` | framework/motion_session.py:1160-1309 | a gated request publishes its result iff its generation and turn were current at the decision, and otherwise the stale diagnostic with the gate's own reason and retirement reason |
| `MotionPublish.CurrentAtPublishIff` | framework/motion_session.py:1265-1309 | an accepted result's generation is still current at the emit if and only if no start, reset or advance came in between |
| `MotionPublish.RetiredResultIsPublished` | framework/motion_session.py:1265-1309 | the run that publishes a result of a retired generation |
| `MotionSession.MotionEventsFit` | framework/motion_session.py:618-747 | a result needs two places on a full history, the diagnostic one: exactly when each is accepted by an accepting hub, and that a result fits only where a diagnostic does |
| `MotionSession.MotionSession.ApplyMotionCompletion` | framework/motion_session.py:1160-1186 | bypasses the gate, or applies the result once iff accepted |
| `MotionSession.MotionSession.PublishMotionResult` | framework/motion_session.py:1265-1309 | result and new state go out iff accepted or bypassed, the stale diagnostic otherwise |
| `ExecutionBridge.StopIsLostExactlyInTheWindow` | framework/realtime_execution_bridge.py:163-186 | the closing shutdown loses its stop if and only if the worker stands between its read of the closed flag and `run_forever` |
| `ExecutionBridge.OneVerdictPerRun` | framework/realtime_execution_bridge.py:78-186 | from that check on, for the rest of every run, the bridge is bound to stop or lost, as decided there |
| `ExecutionBridge.VerdictIsFinal` | framework/realtime_execution_bridge.py:78-186 | no step of anybody changes either verdict |
| `ExecutionBridge.WillStopStops` | framework/realtime_execution_bridge.py:78-105 | bound to stop means: at most four enabled steps end the worker and set the stopped event |
| `ExecutionBridge.OthersDoNotBlock` | framework/realtime_execution_bridge.py:78-186 | whatever anybody else does first, the next of those steps stays the next one and enabled |
| `ExecutionBridge.ReportedStopIsTrue` | framework/realtime_execution_bridge.py:172-186 | a shutdown that reports True is right, and no start can bring a worker back |
| `ExecutionBridge.CallsAreExact` | framework/realtime_execution_bridge.py:107-186 | in every run a start makes a worker iff none was ever made and no shutdown was called; a shutdown reports True at once iff no worker was ever made, and after its wait iff the worker has exited |
| `ExecutionBridge.StopCanBeLost` | framework/realtime_execution_bridge.py:78-186 | the run that loses the stop, later shutdowns included |
| `ExecutionBridgeSubmit.PostedAt` | framework/realtime_execution_bridge.py:78-141 | in every run, by where the worker is when a submission is posted: before the loop is left, its future is done by the time the loop is closed; after the close, it is rejected; in between with no more run of the loop to come, it is stuck for good; only those in between can be stuck |
| `ExecutionBridgeSubmit.CapturedIff` | framework/realtime_execution_bridge.py:126-141 | in every run a submission is taken iff no shutdown was called and the worker has found the bridge open; else refused |
| `ExecutionBridgeSubmit.SubmissionGetsStuck` | framework/realtime_execution_bridge.py:126-186 | the run that leaves a future pending for ever while shutdown reports True |
| `ExecutionBridgeClass.RealtimeExecutionBridge.StartSection` | framework/realtime_execution_bridge.py:107-117 | refused iff closed; one thread at most |
| `ExecutionBridgeClass.RealtimeExecutionBridge.PublishLoop` | framework/realtime_execution_bridge.py:78-84 | publishes the loop and reads the closed flag in one section |
| `ExecutionBridgeClass.RealtimeExecutionBridge.ShutdownSection` | framework/realtime_execution_bridge.py:166-170 | closes and takes the snapshot the later steps use |
| `ExecutionBridgeClass.RealtimeExecutionBridge.CheckSnapshot` | framework/realtime_execution_bridge.py:172-180 | returns, sends a stop or goes on to join, as the protocol step says |
| `VoiceCancel.SuppressionIsTrueIff` | framework/_realtime_voice_output_control.py:392-511 | in every run a reported `future_delivery_suppressed` (cached results and timeouts included) is true if and only if its barrier went up before the work completed with audio; the artifact is dead either way |
| `VoiceCancel.VerdictOfABarrier` | framework/_realtime_voice_output_control.py:310-390 | a cancel's first section decides, for the rest of every run, whether the worker hands audio over, and kills the work's artifact for good |
| `VoiceCancel.EveryClaimHasABarrier` | framework/_realtime_voice_output_control.py:418-511 | behind every reported or cached suppression there is a barrier in the same run |
| `VoiceCancel.CompletionIsExact` | framework/_realtime_voice_output_control.py:310-386 | the completion section in every reachable state: raises iff the artifact cannot be bound; hands the audio over as produced iff no cancel came first, the gate still owns generation and turn and it can be bound; else cancelled or stale, by whether a cancel came first; suppressed artifacts are dead, other generations' untouched; the not-active errors never fire |
| `VoiceCancelAnswers.CancelIsAnswered` | framework/_realtime_voice_output_control.py:409-464 | the first section's answer in every reachable state, each as an iff: ALREADY_CLOSED, WORK_MISMATCH, NO_ACTIVE_GENERATION, or none and it waits, over close calls, active work, context, asked id and the reports of the run |
| `VoiceCancelAnswers.RepeatedCancel` | framework/_realtime_voice_output_control.py:418-450 | a repeated cancel returns the established result iff that result still stands, the stage is open, context and id are the reported ones (or no id), and no other work is active |
| `VoiceCancelAnswers.StandsIff` | framework/_realtime_voice_output_control.py:230-511 | what the stage remembers in any run is the last report, as long as no work was claimed and no cancel of another work has reported since |
| `VoiceCancelAnswers.ReportIsExact` | framework/_realtime_voice_output_control.py:468-511 | the second section reports the standing result of its work if there is one, else a new suppressing one, COMPLETED iff its wait saw the work done |
| `VoiceCancelAnswers.LateCancelForgets` | framework/_realtime_voice_output_control.py:418-511 | the run in which a late canceller of an earlier work makes a duplicate cancel answer NO_ACTIVE_GENERATION |
| `VoiceCancelAnswers.ClaimIsTakenIff` | framework/_realtime_voice_output_control.py:230-248 | a claim is taken iff the stage was never closed and no work is between claim and release; the new work starts unprotected |
| `VoiceCancelAnswers.ShutsExactly` | framework/_realtime_voice_output_control.py:209-228 | which artifacts each step shuts: exactly those of the generation it invalidates and one that is dropped; no step reopens one and only a completion binds one |
| `VoiceCancel.FlushIsAirtight` | framework/_realtime_voice_output_control.py:536-580 | after a flush that saw a work active no FW artifact of that work can be opened, now or later, unless the cancel inside found the stage closed |
| `VoiceCancel.FlushVerdict` | framework/_realtime_voice_output_control.py:536-580 | exactly when, after a flush's last step, an artifact of the work it saw is playable in some continuation: iff the work still runs with no cancel noted and the stage is ungated or its generation is unissued, reserved or active in the work's turn; no cancel noted only if the cancel inside found the stage closed |
| `VoiceCancel.CanBeOpenedIff` | framework/_realtime_voice_output_control.py:301-390 | the same for any reachable state: playable now, or unprotected with a gate that owns the generation or still may |
| `VoiceCancel.UnprotectedDelivers` | framework/_realtime_voice_output_control.py:304-386 | a work running without a cancel noted completes with a playable artifact while the gate, if any, owns its generation |
| `VoiceCancel.CancelInTheWindow` | framework/_realtime_voice_output_control.py:387-511 | the run that reports COMPLETED and suppressed while the audio is returned |
| `VoiceCancel.FlushOnAClosedStage` | framework/_realtime_voice_output_control.py:410-416 | the run in which, after a flush on a closed stage, the work completes with an artifact that can be opened |
| `VoiceCancel.FlushLeavesTheUrl` | framework/_realtime_voice_output_control.py:387-580 | the run in which a flush on an open stage reports completed and suppressed and the provider URL is returned all the same |
| `VoiceCancel.StepKeepsInv` | framework/realtime_voice_output.py:439-507 | one work at a time between claim and release, its event known; results honest about released works; produced artifacts bound to their generation |
| `VoiceCancelStage.CancelableVoiceSynthesisStage.ClaimGeneration` | framework/_realtime_voice_output_control.py:230-248 | refused iff closed or busy; resets the cancel state |
| `VoiceCancelStage.CancelableVoiceSynthesisStage.CompletionSection` | framework/_realtime_voice_output_control.py:310-386 | the completion section in place is the protocol's completion step |
| `VoiceCancelStage.CancelableVoiceSynthesisStage.ReleaseSection` | framework/_realtime_voice_output_control.py:387-390 | releases the work and sets its event |
| `VoiceCancelStage.CancelableVoiceSynthesisStage.CancelFirstSection` | framework/_realtime_voice_output_control.py:409-464 | answers at once, with the answer CancelIsAnswered and RepeatedCancel pin, or puts up the barrier on the active work |
| `VoiceCancelStage.CancelableVoiceSynthesisStage.CancelSecondSection` | framework/_realtime_voice_output_control.py:468-511 | reports the result, one per work while it is remembered |
| `FakeScheduler.RunIsOrdered` | framework/realtime_fake_runtime.py:396-545 | over any run with any callbacks: per stage strictly increasing (due tick, sequence), over all stages without pauses; nothing early; every action queued, run once or dropped by close |
| `FakeScheduler.RunningIsSorting` | framework/realtime_fake_runtime.py:471-545 | with inert callbacks, running executes the eligible entries in sorted order and removes exactly those |
| `FakeScheduler.RunDueIsExact` | framework/realtime_fake_runtime.py:533-545 | `run_due`: its errors as iffs; else the unpaused due entries in sorted order, all or as many as asked for, leave the queue, and the clock stands still |
| `FakeScheduler.AdvanceByIsExact` | framework/realtime_fake_runtime.py:547-559 | `advance_by`: the clock moves by just that much; with `run_due` what is due by then runs in sorted order, without it nothing |
| `FakeScheduler.ScheduledBy` | framework/realtime_fake_runtime.py:396-434 | every entry of a run comes from one schedule call on an open scheduler with room: due its delay after that call's clock, with the next number |
| `FakeScheduler.PausedIff` | framework/realtime_fake_runtime.py:436-469 | after any run a stage is paused iff its last pause or resume was a pause and no close was called |
| `FakeScheduler.StageCallsAnswer` | framework/realtime_fake_runtime.py:436-462 | pausing and resuming after any run: an error iff a close was called, else whether the stage was left unpaused or paused, and one trace event exactly when something changed |
| `FakeScheduler.TraceTellsTheRun` | framework/realtime_fake_runtime.py:496-521 | the trace tells of exactly the executions there were, in order, each at its tick |
| `FakeScheduler.SortedIsUnique` | framework/realtime_fake_runtime.py:238-243 | the sorted order of entries is the only one |
| `FakeScheduler.IdleMeansOnlyPausedLeft` | framework/realtime_fake_runtime.py:561-583 | `run_until_idle` executes the unpaused entries in sorted order, leaves exactly the paused, and raises iff more than the limit were unpaused |
| `FakeScheduler.AdvanceSplits` | framework/realtime_fake_runtime.py:547-559 | advancing by a + b is advancing by a and then by b: same executions, queue and clock |
| `FakeScheduler.SplitMattersToCallbacks` | framework/realtime_fake_runtime.py:533-559 | for callbacks that schedule work it is not: two runs with the same clock and different executions |
| `FakeScheduler.PauseBlocksAndResumeRestores` | framework/realtime_fake_runtime.py:436-469 | a pause takes exactly its stage's entries out of reach, a resume brings exactly them back |
| `FakeSchedulerClass.DeterministicFakeScheduler.FindNextRunnable` | framework/realtime_fake_runtime.py:476-488 | the scan finds the least eligible entry, in any order of the heap list |
| `FakeSchedulerClass.DeterministicFakeScheduler.PopNextRunnable` | framework/realtime_fake_runtime.py:471-494 | filling the hole and re-heapifying removes exactly that entry |
| `FakeSchedulerClass.DeterministicFakeScheduler.Schedule` | framework/realtime_fake_runtime.py:381-434 | closed and overflow errors, or one entry with the next sequence number |
| `FakeSchedulerClass.DeterministicFakeScheduler.RunDue` | framework/realtime_fake_runtime.py:533-545 | the loop runs what is due, up to its limit |
| `FakeSchedulerClass.DeterministicFakeScheduler.RunUntilIdle` | framework/realtime_fake_runtime.py:561-583 | the loop and its limit error |
| `FakeSchedulerClass.DeterministicFakeScheduler.InjectDuplicateTerminal` | framework/realtime_fake_runtime.py:741-787 | all copies or none: overflow iff they do not all fit, and then only the trace changed; else consecutive sequences at the stated ticks |
| `FakeSchedulerClass.DeterministicFakeClock.AdvanceTo` | framework/realtime_fake_runtime.py:135-140 | never moves backwards |
| `Emotion.TagIsReadBack` | core/emotion.py:35-78 | a response in the documented format, in any letter case, parses back to its emotion and text |
| `Emotion.CleanOf` | core/emotion.py:54-78 | the visible text and emotion in terms of the left-stripped input: trailing whitespace never makes or breaks a tag |
| `Emotion.EmotionIff` | core/emotion.py:25-33 | an emotion is one of five names iff, padding aside, it spells that name in any case; everything else is neutral |
| `Emotion.HeadIff` | core/emotion.py:57 | which texts open a tag, letter by letter |
| `Emotion.StripIsBetween` | core/emotion.py:55 | stripping takes only whitespace, and all of it, off both ends |
| `Emotion.OnlyStripIsBetween` | core/emotion.py:55 | no other text between blanks is visible at both ends |
| `Streaming.StreamedEqualsBatchIff` | core/streaming.py:26-67 | for every cut of a response the displayed text equals the batch parse up to trailing whitespace if and only if buffer and rest agree at the cut, the first text HeldBackIff does not hold back; a stream never released shows nothing, rightly |
| `Streaming.BatchIff` | core/streaming.py:48-67 | the exact condition for any buffer and any rest |
| `Streaming.HeldBackIff` | core/streaming.py:48-57 | a chunk waits iff the text so far is a whole tag with nothing visible around it and holds the head in small letters; stated without the wait test |
| `Streaming.TaggedStream` | core/streaming.py:40-67 | a response whose first chunk holds the tag, cut anywhere after the bracket: nothing shows before the first visible chunk, then that chunk stripped and the rest as it is, with the batch emotion |
| `Streaming.TaggedStreamIff` | core/streaming.py:40-67 | it shows the batch text up to trailing whitespace iff nothing visible follows that chunk or it does not end in whitespace |
| `Streaming.ChunkShape` | core/streaming.py:40-67 | speech is display; a wait shows nothing and keeps the text; the emotion is reported once, at the release |
| `Streaming.StreamShows` | core/streaming.py:40-67 | what a stream displays is the cleaned buffer and then the rest untouched; what is buffered is what HeldBackIff holds back |
| `Streaming.CutTagLeaks` | core/streaming.py:51-67 | a cut inside the tag shows the tag and loses the emotion |
| `Streaming.CutSpaceIsLost` | core/streaming.py:62-67 | a cut after a space loses it |
| `Streaming.EmptyChunkEndsTheWait` | core/streaming.py:48-60 | an empty or missing first chunk ends the waiting |
| `Streaming.StreamingState.ConsumeStreamChunk` | core/streaming.py:26-67 | one chunk, in place, computing the step that HeldBackIff, ChunkShape and TaggedStream are about |
| `TextChatTurn.RunFollowsTheScript` | framework/facade.py:542-677 | in every interleaving the generator's events are the script for its position and the delivered text, whose completed text CompletedText pins; while open, the session state is its position's |
| `TextChatTurn.DeltasAt` | framework/facade.py:595-610 | deltas are numbered 0 to n-1 and carry the delivered chunks |
| `TextChatTurn.CompletedText` | framework/facade.py:595-625 | in every run RESPONSE_COMPLETED carries the texts of the emitted deltas in their order, which is everything the model sent |
| `TextChatTurn.DeltasCarryWhatWasSent` | framework/facade.py:575-610 | the deltas carry the visible chunks the model sent, in order: all but at most the last, and all of them unless that one is in hand or the turn goes out by interrupt or close |
| `TextChatTurn.ConcatSplits` | framework/facade.py:625 | joining keeps order: the text of two runs of chunks is the text of the first, then of the second |
| `TextChatTurn.InterruptAnswerIff` | framework/facade.py:700-777 | every answer of `interrupt_result` in every run as an iff over close calls and the generator's position; only an accepted one raises the flag |
| `TextChatTurn.TerminalsOfATurn` | framework/facade.py:383-457 | what a callback registered throughout hears, across turn and close: one terminal event; two iff the close came between the last closed check and the end of the context and the generator's own came before the callbacks were cleared; none iff it came between the first check and the context's start; an open session ends idle |
| `TextChatTurn.TerminalsEmitted` | framework/facade.py:542-677 | the same count for what is emitted, heard or not |
| `TextChatTurn.NoDeltaAfterInterrupt` | framework/facade.py:575-610 | no delta follows an accepted interrupt but the one already past its check; acceptance before the flag is reset is the only exception |
| `TextChatTurn.DeltaInFlight` | framework/facade.py:578-610 | the run in which the delta past its check follows an accepted interrupt |
| `TextChatTurn.InterruptTakesEffectIff` | framework/facade.py:575-594 | in every run an accepted interrupt sends the generator out as interrupted iff that was already so or an interrupt check is made afterwards |
| `TextChatTurn.InterruptOrCompletion` | framework/facade.py:575-635 | without close, exception or abandonment the turn then ends as interrupted if such a check comes and as completed if not: an interrupt accepted after the last check still ends in TURN_COMPLETED |
| `TextChatTurn.InterruptAfterTheLastChunk` | framework/facade.py:611-635 | a run that ends so |
| `TextChatTurn.InterruptForgotten` | framework/facade.py:546-549 | the run in which an accepted interrupt is reset and a delta follows |
| `TextChatTurn.CloseFromTheLastCallback` | framework/facade.py:626-677 | a host that closes from its TURN_COMPLETED callback hears two terminal events |
| `TextChatTurn.CloseRacesTheEnd` | framework/facade.py:400-453 | the concurrent run: the turn completes between the closing section and the clearing of the callbacks |
| `TextChatTurn.CloseWhileCompleting` | framework/facade.py:446-453 | a close from RESPONSE_COMPLETED is heard as the only terminal event; the turn's own is emitted to nobody |
| `TextChatSession.TextChatSession.AskStream` | framework/facade.py:542-677 | the consumed turn of a single-threaded host that acts at the yields: chunks delivered and how it ends as WhatIsDelivered says, what the callbacks hear follows the script with exactly one terminal event and, by ConcatSplits, the chunks' text in order; on a closed session nothing |
| `TextChatSession.TextChatSession.Deliver` | framework/facade.py:575-610 | the loop with its closed and interrupt checks delivers exactly the chunks up to the host's reaction |
| `TextChatSession.WhatIsDelivered` | framework/facade.py:575-635 | the delivered chunks are the visible texts up to the one the host reacts to; a close ends the turn closed, an interrupt interrupted if the model sends more, else it fails or completes as the model does |
| `TextChatSession.TextChatSession.Close` | framework/facade.py:383-477 | idempotent; reports the closed session once, iff a turn was active, and then clears the callbacks |
| `TextChatSession.TextChatSession.InterruptResult` | framework/facade.py:685-777 | accepted iff open with an active turn |
| `PublicSafety.SanitizedIsSafe` | framework/public_safety.py:118-230 | on every finite graph, cyclic or not: no private string in any value, nothing under a secret key, nesting at most the depth limit and at most the number of containers |
| `PublicSafety.PrivateKeysAreLeft` | framework/public_safety.py:134-146 | a private string is left anywhere in the result iff a rendered mapping has a private key |
| `PublicSafety.PrivateKeySurvives` | framework/public_safety.py:136-140 | one entry under a private key is enough |
| `PublicSafety.PositionRule` | framework/public_safety.py:118-176 | every position shows the value there, sanitized with exactly its ancestors active |
| `PublicSafety.CyclesAreAncestors` | framework/public_safety.py:128-131 | the cycle marker appears iff the container is its own ancestor; shared containers are rendered in full, slot for slot |
| `PublicSafety.MarkersAreExact` | framework/public_safety.py:199-230 | at every position each marker appears iff the graph has there the one kind of value it stands for: non-finite, binary, exception, path or private text, unknown object, container at the depth limit; any other scalar stands as it is |
| `PublicSafety.Idempotent` | framework/public_safety.py:179-230 | sanitizing a stored sanitized value changes nothing |
| `PublicSafety.SlotsAreADictionary` | framework/public_safety.py:134-146 | keys that become the same string appear once, with the last value |
| `PublicSafety.SlotsAreTheContents` | framework/public_safety.py:133-176 | a list is rendered from its items in order without keys, a mapping or record from each key once with its last value |
| `PublicSafety.Sanitizer.SanitizeContainer` | framework/public_safety.py:118-176 | the recursion that adds to and removes from one shared set computes the same and restores the set |
| `PublicSafety.Sanitizer.SanitizeEntries` | framework/public_safety.py:134-146 | the dictionary-filling loop |

## Left out

- asyncio and threading internals: a lock section is one step, an event a flag, the loop open, running or closed with a stop-queued bit; the loop takes what is posted a batch at a time, tasks end once they are cancelled, and timeouts of `start` and of the waits only choose a branch.
- The rest of `framework/motion_session.py`: applying, stopping and closing, legacy callbacks, result builders, metadata and the draining that follows an emit.
- Hub factories and projectors are pure functions; the step relation also takes them to keep their sequence. A factory that re-enters `emit`, a projector that raises, an overflow callback that re-enters the hub and callbacks raising BaseException are outside the model.
- Callback errors and slow-callback counters, clocks, UUIDs (identities are fresh numbers), messages and public metadata.
- Item identities are numbers; their text format and normalization are not modelled.
- `artifact_invalidated` of a cancel result, artifact stores without `invalidate_generation`, and the file side of the store.
- The base synthesis stage beyond claim and release, the pending synthesis queue of flush, terminal registry and session close plans: collaborators that are not part of this model.
- `clear_trace` of the fake scheduler.
- FakeSchedulerClass: callbacks are not run by the class methods; everything a callback may do is in FakeScheduler's runs.
- `heapq` is not part of this model: the list may be rearranged in any way.
- The generation half of `DeterministicRealtimeRaceHarness`, late-completion and cancellation-timeout injection: thin wrappers over `schedule`.
- Streaming chunks carry no escape sequences, so removing them is the identity.
- Which keys look secret and which strings look private are parameters of the sanitizer; how keys become strings is not modelled.
- In TextChatTurn `interrupt_result` is one step; turns of one session do not overlap; callbacks registered during a turn and `reset` are not modelled; legacy events are the projection of the canonical ones.
- The phase-transition table, barge-in, interrupt ordering, capability snapshots, manifests, provider and device code: finite case splits or input and output.
