# EasyCat: proofs about its task ownership, streaming audio and small state machines

EasyCat is a voice-agent runtime on asyncio. This project models the parts of it whose correctness
depends on many callers, many chunks or many steps, and proves what they promise for all of them. One
module stands for one source file or for the protocol that several of its functions form.

* `Supervision`, `CapacityLedger`, `OwnedTaskProtocol`: the two-level capacity allocator, reservations,
  owner states, parking and lifecycle locks; then every interleaving of `start_owned`, `hard_timeout`,
  `reap`, parking, completion, callbacks and closing. `OwnedTaskLaws`: who is admitted, and when calls go on.
* `SessionManager`, `SessionTeardown`: the keyed session registry with shared stop tasks, force
  escalation, failed starts, key reuse and abandonment; then every interleaving of its callers.
  `RemoveLaws`: how a call of `remove` ends.
* `Pcm16`, `LinearResampler`, `PolyphaseIndex`, `StreamResampler`, `NoiseReduction`: 16-bit samples,
  the dependency-free streaming resampler, the index arithmetic of the polyphase one, the segmenting
  resampler on top, and the four-layer noise reducer; output never depends on how a stream was cut.
  `SignalLaws`: what comes out, in terms of straight lines, clicks and superposition.
* `BoundedQueue`, `CancelToken`, `LineReader`, `HealthCheck`, `ProviderCatalog`, `TurnLog`: the smaller
  state machines, over any sequence of operations.
* `JustRecipes`, `RefactorMetrics`, `ReportLaws`: dependency resolution, and an order-independent report with
  greedy clustering and what its numbers mean.
* `Prelude`: datatypes and facts about sequences and division.

Classes carry the fields the source updates. Their methods are proved equal to functions on values, and
the protocols and laws are proved about those functions. A protocol is a state machine whose steps are the
stretches of code between two awaits (for `CancelToken`, between two accesses to shared fields or calls on loop and event), in any
order the event loop or the threads may choose; its theorems quantify over all runs.

## What is assumed

* Code between two awaits is atomic; journal and metric callbacks do not call back into the modelled object.
* A task runs its done-callbacks in the order in which they were added; awaiting a finished task does not
  suspend; a coroutine cancelled before its first step runs none of its body.
* `cancelling()` never decreases, and each delivered cancellation of a caller has raised it.
* `RuntimeTaskScope` only spawns and joins tasks. It is not part of this model.
* Each `Session` object is added at most once. Starting and stopping a session succeeds, fails or is
  cancelled at any time.
* Samples are integers, filter taps arbitrary reals, interpolation exact; the denoiser is an arbitrary
  stateful function on frames, and for the length law it returns at least one frame per frame.
* The clock, readiness of descriptors, timeouts and cancellation are inputs.

## Where the code does less than its description

* `remove`: a caller that carries an earlier cancellation request takes one scheduling turn before it awaits
  the stop. If the stop ends in that turn, `remove` returns before the done-callback has dropped the session.
  `RemoveLeavesGone` says that this is the only exception.
* `CancelToken`: between the locked section of the winning `cancel()` and its dispatch, a blocked waiter has no
  wakeup pending yet. `StrandedOnlyInFlight` says that this is the only exception.
* The health checker: a `start` between the cancellation of a loop that has not begun and its end leaves
  `running` set with no loop. `SafeExactly` says that no other call does.

`record_audio_sent` takes size and duration separately, and eviction and reader treat an entry with playing
time and no bytes differently. This is a precondition on its callers: the router passes durations computed
from the bytes, and `ChunksAreNotSilent` and `ChunkLogLosesNothing` show that such logs lose nothing.

## Model

| member | source | states |
|---|---|---|
| `Supervision.RuntimeSupervisor.Reserve` | src/easycat/_concurrency.py:210-230 | A reservation is charged under a fresh id, or the runtime quota refuses and nothing changes. |
| `Supervision.RuntimeSupervisor.Release` | src/easycat/_concurrency.py:243-248 | A second release of the same reservation changes nothing; the first takes it out of the charged set. |
| `Supervision.RuntimeSupervisor.LifecycleLockReleased` | src/easycat/_concurrency.py:256-261 | The count of a task goes down by one and its entry disappears at zero. |
| `Supervision.SurvivorRegistry.Reserve` | src/easycat/_concurrency.py:384-404 | Empty labels, a closed owner, a full root and a full runtime refuse, in that order, with both quotas untouched; otherwise both are charged. |
| `Supervision.RuntimeSupervisor.Activate` | src/easycat/_concurrency.py:232-236 | Only a reserved slot becomes active, with its task; any other state is refused and nothing changes. |
| `Supervision.SurvivorRegistry.Activate` | src/easycat/_concurrency.py:406-408 | As the supervisor, with the handle taken in even when the state is refused. |
| `Supervision.SurvivorRegistry.Park` | src/easycat/_concurrency.py:410-412 | Parking an active slot closes the owner with survivors and keeps both charges; any other state is refused and nothing changes. |
| `Supervision.SurvivorRegistry.Release` | src/easycat/_concurrency.py:414-430 | Both quotas are given back once, and the last survivor of an owner closed with survivors leaves it closed. |
| `Supervision.SurvivorRegistry.CloseOwner` | src/easycat/_concurrency.py:337-349 | The owner is closed with survivors exactly when it still has work. |
| `Supervision.SurvivorRegistry.ForgetClosedOwner` | src/easycat/_concurrency.py:351-359 | Only a fully closed owner without work is forgotten. |
| `Supervision.OwnedTask.Park` | src/easycat/_concurrency.py:471-483 | A done task settles instead, a parked or released slot is left alone, one that is not active raises, a held lock refuses, anything else parks. |
| `Supervision.OwnedTask.ParkOrCloseOwner` | src/easycat/_concurrency.py:785-801 | As park, and a held lock closes the owner to admission. |
| `Supervision.LifecycleLock.Granted` | src/easycat/_concurrency.py:504-513 | The task that was granted the lock owns it and its count goes up. |
| `Supervision.LifecycleLock.Release` | src/easycat/_concurrency.py:515-522 | Only the owning task can release, and its count goes down with it. |
| `CapacityLedger.AdmitAdvances` | src/easycat/_concurrency.py:384-404 | Admission keeps accounts, quotas, owner states and handles, and disturbs nothing that is charged. |
| `CapacityLedger.ReleaseAdvances` | src/easycat/_concurrency.py:414-430 | So does a release, which leaves the reservation released and every other one alone. |
| `CapacityLedger.CloseAdvances` | src/easycat/_concurrency.py:337-349 | So does closing an owner; one that has work ends up closed with survivors. |
| `CapacityLedger.ForgetAdvances` | src/easycat/_concurrency.py:351-359 | So does forgetting an owner. |
| `CapacityLedger.ActivateAnchored` | src/easycat/_concurrency.py:406-408 | A root keeps the handle of every charged reservation that has a task, from the spawn on, |
| `CapacityLedger.ReleaseAnchored` | src/easycat/_concurrency.py:414-430 | until its slot is given back, and of no other. |
| `CapacityLedger.ParkOrCloseAdvances` | src/easycat/_concurrency.py:785-801 | Afterwards the slot is released or its owner admits nothing; a park is refused exactly for an active task that holds a lock. |
| `CapacityLedger.ContainedStays` | src/easycat/_concurrency.py:337-430 | A slot that is released or behind an owner closed with survivors stays so, whatever happens next. |
| `OwnedTaskProtocol.StepKeeps` | src/easycat/_concurrency.py:210-655 | Every step of every interleaving keeps the whole invariant and undoes nothing. |
| `OwnedTaskProtocol.RunsAreSafe` | src/easycat/_concurrency.py:210-655 | Every state of every run satisfies the invariant, from an empty supervisor on. |
| `OwnedTaskProtocol.RunsGoForward` | src/easycat/_concurrency.py:232-248 | Ids persist and are never reused, and reservations only move from reserved towards released. |
| `OwnedTaskProtocol.SlotsReturnOnce` | src/easycat/_concurrency.py:243-248 | A slot that was charged and no longer is never becomes charged again, in the supervisor or in any root. |
| `OwnedTaskProtocol.ChargedIsDisjointUnion` | src/easycat/_concurrency.py:384-430 | The supervisor's charged set is the disjoint union of the roots' sets and both quotas hold. |
| `OwnedTaskProtocol.SettledMeansEmpty` | src/easycat/_concurrency.py:485-493 | Once no bare reservation is in progress and every done-callback has run, all counts are zero and no owner is closed with survivors. |
| `OwnedTaskProtocol.ParkingHoldsNoLock` | src/easycat/_concurrency.py:471-483 | The step to PARKED is only taken for a task that owns no lifecycle lock object. |
| `OwnedTaskProtocol.NoStateIsRefused` | src/easycat/_concurrency.py:293-298 | The state checks of activation and parking never raise: no caller in any interleaving meets a reservation in the wrong state. |
| `OwnedTaskProtocol.AcquireCounts` | src/easycat/_concurrency.py:504-513 | The count of every task equals the number of lock objects it owns, when a lock is granted, |
| `OwnedTaskProtocol.ReleaseCounts` | src/easycat/_concurrency.py:515-522 | and when one is released. |
| `OwnedTaskProtocol.SurvivorsCloseAdmission` | src/easycat/_concurrency.py:384-404 | The owner of a parked task, or of one that refused to park, admits nothing. |
| `OwnedTaskProtocol.StartOwnedExits` | src/easycat/_concurrency.py:540-588 | On every exit of start_owned both quotas are as before or the spawned task is anchored by a charged reservation unless it is done already. |
| `OwnedTaskProtocol.HardTimeoutReturns` | src/easycat/_concurrency.py:626-655 | COMPLETED means released, TIMED_OUT_PARKED parked and charged, a lock-held rejection active, charged and behind a closed owner. |
| `OwnedTaskProtocol.OutcomesLast` | src/easycat/_concurrency.py:591-655 | What start_owned, hard_timeout and reap returned stays true for the rest of the run; a reaped task is released or contained. |
| `OwnedTaskLaws.ShutExactly` | src/easycat/_concurrency.py:337-430 | After any step an owner is shut exactly if it was and has not been forgotten in its closed state, or if the step closed it or parked a running task of it, or tried to. |
| `OwnedTaskLaws.ShutUntilForgotten` | src/easycat/_concurrency.py:384-430 | So in any run such an owner admits nothing from then on, even when its last task has been released, until it is forgotten. |
| `OwnedTaskLaws.AdmittedExactly` | src/easycat/_concurrency.py:384-404 | A start is admitted exactly when its labels are there, its owner is open and both quotas have room; it then holds one fresh slot of both, and otherwise nothing changed. |
| `OwnedTaskLaws.CallsGoOn` | src/easycat/_concurrency.py:540-655 | No call hangs but an unbounded reap of a running task; every move brings a call nearer its end and no other step moves it. |
| `OwnedTaskLaws.CallBackReleases` | src/easycat/_concurrency.py:485-493 | The done-callback of a task gives its slot back to both quotas. |
| `SessionManager.SessionManager.Add` | src/easycat/session_manager.py:151-158 | A taken key refuses and changes nothing; a free one is registered without a leftover force request. |
| `SessionManager.SessionManager.DropFailedStart` | src/easycat/session_manager.py:166-168 | A failed start takes out its own session and no other. |
| `SessionManager.SessionManager.FinishStop` | src/easycat/session_manager.py:335-353 | Bookkeeping of one ended stop: its own operation is dropped, and its own session if it succeeded. |
| `SessionManager.SessionManager.PrepareStop` | src/easycat/session_manager.py:208-240 | The keyed stop to join: a live one of the registered session, or a new one, by force when force has been asked for. |
| `SessionManager.SessionManager.SettleAbandoned` | src/easycat/session_manager.py:299-325 | The settling loop of abandon_pending_stops, entry by entry. |
| `SessionTeardown.StepKeeps` | src/easycat/session_manager.py:151-353 | Every step of any number of callers, stop tasks and callbacks keeps the invariant and re-registers nothing. |
| `SessionTeardown.RunsAreSafe` | src/easycat/session_manager.py:151-353 | So every state of every run satisfies it. |
| `SessionTeardown.LeavesOnlyForCause` | src/easycat/session_manager.py:159-169 | A registered session leaves only by its own failed start or its own successful stop. |
| `SessionTeardown.ReplacementSurvives` | src/easycat/session_manager.py:208-353 | Whatever the step, a registered session stays registered exactly unless its own start fails or a successful stop of its own is settled. |
| `SessionTeardown.AtMostOneLiveStop` | src/easycat/session_manager.py:224-240 | A registered session has at most one live stop task. |
| `SessionTeardown.ForceIsSticky` | src/easycat/session_manager.py:216-236 | After any caller asks for force, every stop task later created for that registration is a force stop. |
| `SessionTeardown.ForceOnlyWhenAsked` | src/easycat/session_manager.py:155-158 | And no session is stopped by force that nobody asked it for, not even under a reused key. |
| `SessionTeardown.RemoveReturns` | src/easycat/session_manager.py:171-206 | A remove that returned normally, if forced, joined at most one graceful stop; its registration is gone or only the done-callback of its successful stop is outstanding. |
| `SessionTeardown.RemoveLeavesGone` | src/easycat/session_manager.py:385-403 | For a forced remove, `returned` implies `gone` in every run exactly for callers that carry no earlier cancellation request. |
| `RemoveLaws.ResumeExactly` | src/easycat/session_manager.py:186-206 | Where a caller goes from the stop it joined: a forced one goes on from every graceful stop, however that ended, and no one raises but for a failed stop that is not escalated. |
| `RemoveLaws.RaisedExactly` | src/easycat/session_manager.py:171-206 | In any run a call has raised exactly if it was cancelled, or the stop it joined failed and force was not still to be tried. |
| `RemoveLaws.ForcedRaisesOnlyAfterForce` | src/easycat/session_manager.py:188-195 | A forced call that raised was cancelled or its force stop failed: the force attempt is never lost. |
| `RemoveLaws.ForcedJoinsOneGraceful` | src/easycat/session_manager.py:179-206 | In any run a forced call learns at most once of the end of a graceful stop of its session, |
| `RemoveLaws.NextAttemptIsForce` | src/easycat/session_manager.py:179-206 | and what it joins for that session after it is a force stop. |
| `RemoveLaws.TargetIsFirstFound` | src/easycat/session_manager.py:208-240 | The session a call is for is the one that holds its key when it first looks. |
| `RemoveLaws.RemoveGoesOn` | src/easycat/session_manager.py:171-206 | No call hangs on a stop that has ended and run its callback. |
| `SessionTeardown.PrepareFindsLive` | src/easycat/session_manager.py:208-240 | In any run a caller either finds its key free and returns, or joins a live stop of the session that holds the key, by its request for force. |
| `SessionTeardown.FailedStopCanBeRetried` | src/easycat/session_manager.py:335-353 | In any run, after a failed or cancelled stop the session stays registered and every later caller joins another stop that is still live, until the session fails its start or is stopped successfully. |
| `SessionTeardown.AbandonedStaysForced` | src/easycat/session_manager.py:299-316 | A stop cancelled by abandon leaves its session registered with force requested and its operation dropped, whether or not its done-callback has run. |
| `SessionTeardown.AbandonForcesLaterStops` | src/easycat/session_manager.py:299-316 | So in any run every stop task created for that session afterwards is a force stop. |
| `Pcm16.PackUnpack` | src/easycat/_audio_utils.py:225-226 | Unpacking and packing little-endian 16-bit samples is the identity on whole samples, |
| `Pcm16.UnpackPack` | src/easycat/_audio_utils.py:356 | and packing then unpacking is the identity on samples. |
| `Pcm16.PackIsLittleEndian` | src/easycat/_audio_utils.py:356 | The bytes of a sample are its value modulo 65536, low byte first. |
| `Prelude.RoundHalfEven` | src/easycat/_audio_utils.py:349 | Rounding is to the nearest integer, ties to even. |
| `Pcm16.ToSampleOfInteger` | src/easycat/_audio_utils.py:349 | and a value that is a sample already is kept. |
| `Pcm16.ToSampleIsNearest` | src/easycat/_audio_utils.py:349 | No 16-bit sample is closer to the value, inside the range it is within one half, and of two the even one is taken. |
| `Pcm16.ToMono` | src/easycat/_audio_utils.py:647-665 | Whole frames are averaged per frame, one channel passes through, a non-positive channel count is refused. |
| `Pcm16.MonoAppend` | src/easycat/_audio_utils.py:647-665 | Downmixing whole frames can be done piece by piece. |
| `Pcm16.AverageOfEqualChannels` | src/easycat/_audio_utils.py:661-663 | Channels that agree are reproduced exactly. |
| `Pcm16.SumAppend` | src/easycat/_audio_utils.py:661 | The channels of a frame are each added once. |
| `Pcm16.MonoAt` | src/easycat/_audio_utils.py:657-665 | Sample k of the downmix is the nearest to the average of the channels of frame k. |
| `Pcm16.AudioFrameAligner.Align` | src/easycat/_audio_utils.py:682-700 | However a stream of one format is cut, the pieces are the whole frames of the joined stream and the carry is its rest; a format change drops the carry. |
| `LinearResampler.ReadyIff` | src/easycat/_audio_utils.py:331-338 | Within the target count, a position can be output exactly when it needs no sample that has not arrived. |
| `LinearResampler.EmittedIsPrefix` | src/easycat/_audio_utils.py:325-356 | What has been emitted is a prefix of what any continuation emits and of what finishing emits. |
| `LinearResampler.HistorySuffices` | src/easycat/_audio_utils.py:363-386 | Convolving behind the kept history gives the sums of the whole-stream convolution. |
| `LinearResampler.StreamingLinearState.Process` | src/easycat/_audio_utils.py:325-356 | A chunk emits exactly the whole-stream outputs that became ready, or all that are owed when final, and retains less than (from + to) / to samples. |
| `LinearResampler.StreamingLinearState.Advance` | src/easycat/_audio_utils.py:325-356 | Accumulated output equals the whole-stream computation after every chunk and after finishing. |
| `LinearResampler.StreamingLinearState.Filter` | src/easycat/_audio_utils.py:363-386 | Filtered chunks concatenate to the filter of the whole stream. |
| `LinearResampler.StreamingLinearState.PendingOutputBytes` | src/easycat/_audio_utils.py:358-361 | Pending bytes are those still missing from floor(N * to / from) samples. |
| `LinearResampler.RetainedBound` | src/easycat/_audio_utils.py:351-355 | Fewer than 1 + from / to samples can still be needed by a later output. |
| `PolyphaseIndex.CancelDivisor` | src/easycat/_audio_utils.py:441-443 | Dividing both rates by a common divisor does not change how many samples are owed. |
| `PolyphaseIndex.PositionsAt` | src/easycat/_audio_utils.py:465-475 | Output k of the stream is taken k strides beyond the delay of the filter. |
| `PolyphaseIndex.StreamingPolyphaseState.Process` | src/easycat/_audio_utils.py:458-489 | The polyphase backend selects each position in turn, and on the final call every one that is owed. |
| `PolyphaseIndex.StreamingPolyphaseState.PendingOutputBytes` | src/easycat/_audio_utils.py:498-501 | Two bytes for every output that is owed for what was received and not emitted yet. |
| `PolyphaseIndex.EmittedPositions` | src/easycat/_audio_utils.py:458-489 | Over any chunking the positions emitted are the first floor(N * to / from). |
| `StreamResampler.PCM16StreamResampler.Process` | src/easycat/_audio_utils.py:551-576 | A chunk at the current rate continues the segment; another rate first finishes it; odd bytes are carried. |
| `StreamResampler.PCM16StreamResampler.Finish` | src/easycat/_audio_utils.py:578-591 | Finishing completes the segment to its whole-stream result and leaves a fresh resampler. |
| `StreamResampler.PCM16StreamResampler.PendingOutputBytes` | src/easycat/_audio_utils.py:544-549 | Equals the number of bytes that Finish would emit now. |
| `StreamResampler.EmittedNeverRevised` | src/easycat/_audio_utils.py:551-576 | Bytes already emitted are a prefix of everything emitted later. |
| `StreamResampler.ResampleStream` | src/easycat/_audio_utils.py:551-591 | Any pieces at any rates, cut anywhere, yield the concatenation of independent results of the runs of equal rate. |
| `StreamResampler.ChunkingIsImmaterial` | src/easycat/_audio_utils.py:551-591 | At one rate, only the joined bytes matter. |
| `StreamResampler.FinishedLength` | src/easycat/_audio_utils.py:331-361 | A finished segment of N samples has floor(N * to / from) samples. |
| `StreamResampler.ResampleLinear` | src/easycat/_audio_utils.py:223-257 | The one-shot resampler computes the same outputs of its low-passed input; when upsampling it equals the finished stream. |
| `StreamResampler.LowPassForDownsampling` | src/easycat/_audio_utils.py:282-303 | The nested loops compute the edge-extended centred FIR. |
| `SignalLaws.UpsampledInterpolates` | src/easycat/_audio_utils.py:325-356 | Every sample of a finished upsampled stream is the nearest to the straight line through the two input samples around its position, or is the last input sample. |
| `SignalLaws.FinishedInterpolates` | src/easycat/_audio_utils.py:325-356 | At any two rates the same holds of the low-passed signal. |
| `SignalLaws.SameRateCopies` | src/easycat/_audio_utils.py:551-576 | At equal rates a stream is its own whole samples. |
| `SignalLaws.OneShotInterpolates` | src/easycat/_audio_utils.py:223-257 | The one-shot resampler interpolates in the same sense, upwards the samples and downwards their centred low-pass. |
| `SignalLaws.ImpulseResponse` | src/easycat/_audio_utils.py:363-386 | One click comes out of the streaming filter as its taps, in order, from the click on, |
| `SignalLaws.Superposition` | src/easycat/_audio_utils.py:363-386 | and the filter is linear, so this fixes it. |
| `SignalLaws.LowPassOfClick` | src/easycat/_audio_utils.py:282-303 | One click inside the signal comes out of the one-shot low-pass as its taps, centred on the click; |
| `SignalLaws.LowPassCombines` | src/easycat/_audio_utils.py:282-303 | it is linear, |
| `SignalLaws.LowPassExtendsEdges` | src/easycat/_audio_utils.py:282-303 | and the signal goes on at both edges as its first and its last sample. |
| `NoiseReduction.RNNoiseReducer.ProcessBufferedFrames` | src/easycat/noise_reduction.py:212-239 | The while loop consumes whole 48 kHz frames in order through the stateful filter; a flush adds the zero-padded tail. |
| `NoiseReduction.RNNoiseReducer.Process` | src/easycat/noise_reduction.py:149-210 | Output so far stays equal to the whole-pipeline output of the mono stream so far; format and rate changes keep or drop exactly what they should. |
| `NoiseReduction.RNNoiseReducer.Flush` | src/easycat/noise_reduction.py:241-265 | Completes the stream to the whole-pipeline result and resets the stream; with no stream it is empty at 48 kHz. |
| `NoiseReduction.RNNoiseReducer.TakeFrames` | src/easycat/noise_reduction.py:187-193 | Whole source frames go on, the rest is carried. |
| `NoiseReduction.DenoiseStream` | src/easycat/noise_reduction.py:149-265 | All process outputs and the flush depend only on the joined input, even when cut inside a sample or frame; at 48 kHz a denoiser that returns its frames hands the mono input through. |
| `NoiseReduction.CleaningIsRunning` | src/easycat/noise_reduction.py:212-239 | Cleaning piece by piece is running the denoiser over the whole stream filled up with silence, cutting what it returns to the length of the stream, and rounding; the denoiser ends in the same state. |
| `NoiseReduction.CleanedIsNearest` | src/easycat/noise_reduction.py:76-92 | Every cleaned sample is the nearest there is to what the denoiser returned for it. |
| `NoiseReduction.NothingToClean` | src/easycat/noise_reduction.py:212-239 | A denoiser that returns every frame as it got it changes no byte, |
| `NoiseReduction.NothingToDenoise` | src/easycat/noise_reduction.py:149-265 | and the whole reducer then resamples to 48 kHz and back and does nothing else. |
| `NoiseReduction.Pipeline.CleanedGrows` | src/easycat/noise_reduction.py:222-229 | Framing the stream piece by piece submits the same frames in the same filter states. |
| `NoiseReduction.RoundTripBounds` | src/easycat/noise_reduction.py:199-210 | Up to 48 kHz and back loses at most one sample, and none exactly when the rate divides 48000 N. |
| `NoiseReduction.StreamLength` | src/easycat/noise_reduction.py:149-265 | N complete frames at up to 48 kHz give N or N - 1 samples, N when the rate divides 48000. |
| `BoundedQueue.BoundedAudioQueue.Put` | src/easycat/_bounded_queue.py:117-132 | Accepts, evicts the oldest, rejects, blocks or refuses, by policy, fullness and closing; the queue and its history say so exactly. |
| `BoundedQueue.BoundedAudioQueue.WakePut` | src/easycat/_bounded_queue.py:159-178 | A woken producer takes a free slot, gives up, or waits again; a closed queue refuses it. |
| `BoundedQueue.BoundedAudioQueue.TimeOutPut` | src/easycat/_bounded_queue.py:167-170 | A timed-out producer leaves the queue as it is and counts a drop. |
| `BoundedQueue.BoundedAudioQueue.Get` | src/easycat/_bounded_queue.py:180-193 | Delivers the oldest chunk, waits on an open empty queue, raises on a closed empty one. |
| `BoundedQueue.BoundedAudioQueue.GetNowait` | src/easycat/_bounded_queue.py:195-204 | Delivers the oldest chunk and releases every blocked producer. |
| `BoundedQueue.BoundedAudioQueue.Flush` | src/easycat/_bounded_queue.py:206-213 | Everything queued is returned and recorded as flushed. |
| `BoundedQueue.BoundedAudioQueue.FlushForNewTurn` | src/easycat/_bounded_queue.py:215-224 | As flush, with the next turn id and no drops counted. |
| `BoundedQueue.BoundedAudioQueue.Close` | src/easycat/_bounded_queue.py:226-231 | Nobody is left waiting; contents stay. |
| `BoundedQueue.FatesAddUp` | src/easycat/_bounded_queue.py:117-213 | Chunks that left were delivered, flushed or evicted, each once. |
| `BoundedQueue.DropsAreCounted` | src/easycat/_bounded_queue.py:70-72 | The drop counter counts the rejected and evicted chunks since it was last set back. |
| `BoundedQueue.BoundedAudioQueue.ReadyIsWoken` | src/easycat/_bounded_queue.py:117-231 | Whoever is suspended and could go on has been woken. |
| `BoundedQueue.Replay` | src/easycat/_bounded_queue.py:117-237 | In any run of any callers: size bound, truthful flags while open, accepted = delivered + flushed + evicted + queued in order, evictions only under DROP_OLDEST; and nobody is lost: who was told to wait is suspended, with his chunk, until he is answered or cancelled. |
| `CancelToken.CancelToken.MarkCancelled` | src/easycat/cancel.py:55-58 | Exactly one cancel wins the test-and-set. |
| `CancelToken.CancelToken.BindLoop` | src/easycat/cancel.py:76-79 | The first wait binds the loop. |
| `CancelToken.CancelToken.Dispatch` | src/easycat/cancel.py:65-72 | A running loop that was seen and takes the callback gets the set scheduled; otherwise the event is set at once and everybody waiting is released. |
| `CancelToken.CancelToken.Cancel` | src/easycat/cancel.py:49-72 | The first call dispatches by what the loop answers, later ones change nothing. |
| `CancelToken.CancelToken.Wait` | src/easycat/cancel.py:74-84 | Binds the loop, and blocks exactly when the token is neither cancelled nor set. |
| `CancelToken.CancelAlone` | src/easycat/cancel.py:49-72 | The interleaved steps of one cancel, taken in one go, change the token as the method does, |
| `CancelToken.WaitAlone` | src/easycat/cancel.py:74-84 | and so do those of one wait, which suspends exactly when the method blocks. |
| `CancelToken.NobodyMissedKept` | src/easycat/cancel.py:49-84 | No step lets a cancel that saw no loop coexist with a waiter past its check, or one about to set the event with a waiter between check and queue, or a waiter enqueue on a set event. |
| `CancelToken.RunsAreSafe` | src/easycat/cancel.py:49-84 | So the invariant holds in every state of every run of any threads and waiters. |
| `CancelToken.StrandedOnlyInFlight` | src/easycat/cancel.py:49-84 | In every reachable state, a blocked waiter of a cancelled token lacks a pending or done set exactly while the winning cancel has not dispatched. |
| `CancelToken.WindowIsReachable` | src/easycat/cancel.py:55-65 | That window is reachable. |
| `CancelToken.WinnerGoesOn` | src/easycat/cancel.py:65-72 | The winner always has a next step, each of them brings it nearer its end and no other step puts it back. |
| `CancelToken.WinnerCanFinish` | src/easycat/cancel.py:65-72 | From any state the winner gets done in at most four steps of its own, whether the loop is busy or not. |
| `CancelToken.WindowCloses` | src/easycat/cancel.py:65-72 | In every run, once the winner is done and no set is outstanding, nobody waits and all who waited meanwhile are woken; an outstanding set can run whenever the loop is free. |
| `CancelToken.WaiterGoesOn` | src/easycat/cancel.py:74-84 | A waiter can go on unless it is suspended and not woken or the loop is busy; each step brings it nearer its return, and a woken one returns. |
| `CancelToken.DoneStaysDone` | src/easycat/cancel.py:74-84 | A wait that has returned stays returned. |
| `CancelToken.EverybodyReturns` | src/easycat/cancel.py:49-84 | In any run, once the winner is done and the loop has nothing left to run, every wait that was ever made has returned. |
| `CancelToken.UnboundCancelMissesNobody` | src/easycat/cancel.py:74-84 | A cancel that found no loop bound has nobody to wake, then or later. |
| `LineReader.FindLineEnd` | src/easycat/push_to_talk.py:47-55 | The first CR or LF, with only plain bytes before it, or -1. |
| `LineReader.CountIsLineEnds` | src/easycat/push_to_talk.py:148-178 | Counting line by line finds exactly the positions where a universal-newline line ends. |
| `LineReader.CountsLikeReadline` | src/easycat/push_to_talk.py:148-178 | The lines counted, while open and at the end, are those that text reading with universal newlines returns. |
| `LineReader.SelectorLineReader.PublishCompleteLines` | src/easycat/push_to_talk.py:148-178 | After any bytes: one line published per line end seen, a CR LF once, a trailing CR at once, the unterminated tail kept. |
| `LineReader.SelectorLineReader.OnReadable` | src/easycat/push_to_talk.py:180-201 | Data, spurious readiness, errors and end of input, the last adding one line for a non-empty tail. |
| `LineReader.SelectorLineReader.Read` | src/easycat/push_to_talk.py:207-214 | Items come out in the order in which they were published. |
| `LineReader.ReadAll` | src/easycat/push_to_talk.py:128-201 | What is published depends only on the joined bytes and on how the input ended, not on read boundaries. |
| `LineReader.ReportsLikeReadline` | src/easycat/push_to_talk.py:148-201 | What is published is that many lines and then how the input ended, an unterminated last line included at its end. |
| `LineReader.JoinedIs` | src/easycat/push_to_talk.py:180-201 | The input is what was read up to the first end or error and nothing after it. |
| `LineReader.AlternatingAt` | src/easycat/push_to_talk.py:291-298 | The first turn action starts a turn, and they alternate. |
| `LineReader.PushToTalkController.Toggle` | src/easycat/push_to_talk.py:291-298 | Turn starts and ends strictly alternate. |
| `LineReader.RunPushToTalk` | src/easycat/push_to_talk.py:318-323 | One turn action per line, start first, for any read boundaries. |
| `HealthCheck.LongRunsStep` | src/easycat/_health_check.py:218-231 | One more outcome completes a maximal failure run of threshold length exactly when the streak reaches the threshold. |
| `HealthCheck.HealthStreak.RecordFailure` | src/easycat/_health_check.py:218-247 | Escalates on the transition only. |
| `HealthCheck.HealthStreak.RecordSuccess` | src/easycat/_health_check.py:204-216 | Resets the streak and reports a recovery only after an escalation. |
| `HealthCheck.CheckAll` | src/easycat/_health_check.py:204-247 | Escalations are as many as maximal failure runs reaching the threshold, recoveries alternate with them, unhealthy means streak >= threshold. |
| `HealthCheck.InTurnAt` | src/easycat/_health_check.py:204-247 | The first notice is an escalation, and each is the other kind of the one before. |
| `HealthCheck.PeriodicHealthChecker.Start` | src/easycat/_health_check.py:114-135 | A running checker is left alone, a live loop is re-armed, otherwise one loop is created. |
| `HealthCheck.PeriodicHealthChecker.Stop` | src/easycat/_health_check.py:137-166 | Not running any more; returns at once from a callback or from the loop itself, otherwise awaits a drain, of the live loop if there is one. |
| `HealthCheck.StartRuns` | src/easycat/_health_check.py:114-135 | After a start the checker is running and has a loop, the one it had or else one new one. |
| `HealthCheck.LoopGoesOn` | src/easycat/_health_check.py:168-202 | A loop can begin unless it was cancelled first; once begun it can end, and stops the checker when it does. |
| `HealthCheck.StopFromInside` | src/easycat/_health_check.py:137-166 | A stop from the checker's callback or loop waits for nobody and cancels nothing. |
| `HealthCheck.StopCanReturn` | src/easycat/_health_check.py:137-166 | In any run the loop that a stop awaits is gone or can end. |
| `HealthCheck.AtMostOneLoop` | src/easycat/_health_check.py:114-202 | At most one probe loop is live in any run of start, stop and re-entrant stop, and it is the checker's own task. |
| `HealthCheck.StopEndsTheLoop` | src/easycat/_health_check.py:137-166 | In any run without a start in between, a stop from outside keeps the checker not running, and leaves no loop and no task once it returns. |
| `HealthCheck.RestartFromCallbackRearms` | src/easycat/_health_check.py:120-129 | Stop and start from a callback keep the loop there is. |
| `HealthCheck.SafeExactly` | src/easycat/_health_check.py:114-202 | In any run, `running` always means a loop that will run, exactly when no caller starts the checker between the cancellation of a loop that has not begun and its end. |
| `HealthCheck.SafeStepExactly` | src/easycat/_health_check.py:114-202 | Of all steps only such a start breaks it. |
| `HealthCheck.DoomedStartLosesLoop` | src/easycat/_health_check.py:120-129 | Every such start leaves a checker that says it is running and loses its loop when that loop ends. |
| `HealthCheck.RunningHasLoopExactly` | src/easycat/_health_check.py:188-202 | The step at which the loop is then lost: the end of a cancelled loop that never began. |
| `HealthCheck.RestartCanLoseItsLoop` | src/easycat/_health_check.py:120-129 | It is reachable: start, stop and start again before the first loop has had a turn. |
| `ProviderCatalog.ProviderCatalog.Register` | src/easycat/_provider_catalog.py:151-236 | Accepted exactly when the name is unused or identical and all names of its configuration are identical; a refused or repeated registration changes nothing. |
| `ProviderCatalog.BlankIsStripped` | src/easycat/_provider_catalog.py:165-172 | An environment variable is blank exactly when stripping leaves nothing of it. |
| `ProviderCatalog.ProviderCatalog.Record` | src/easycat/_provider_catalog.py:228-235 | All seven dictionaries and the configuration map move together. |
| `ProviderCatalog.SaysStill` | src/easycat/_provider_catalog.py:228-235 | They keep one key set and keep saying what was registered. |
| `ProviderCatalog.ProviderCatalog.FirstNameOf` | src/easycat/_provider_catalog.py:194-198 | A known configuration always has a name, and any of its names maps to its provider. |
| `ProviderCatalog.ProviderCatalog.ProviderForConfig` | src/easycat/_provider_catalog.py:292-298 | Found exactly when some name has the configuration; the provider is that of every such name. |
| `ProviderCatalog.ProviderCatalog.CapabilitiesForConfig` | src/easycat/_provider_catalog.py:315-330 | The capabilities of every alias, whichever is found; none for an unknown configuration. |
| `ProviderCatalog.ProviderCatalog.CreateFromConfig` | src/easycat/_provider_catalog.py:367-381 | The lookup never misses and the key requirement does not depend on the alias found. |
| `ProviderCatalog.Build` | src/easycat/_provider_catalog.py:91-149 | Initial specifications are accepted exactly when aliases agree, and are then what the catalog says. |
| `TurnLog.TurnContext.RecordAudioSent` | src/easycat/_turn_context.py:137-144 | The log stays the end of the history and the base the fold of what fell out of it. |
| `TurnLog.TurnContext.RecordEviction` | src/easycat/_turn_context.py:146-160 | One entry is folded into bytes, start and cursor. |
| `TurnLog.BytesAreConserved` | src/easycat/_turn_context.py:137-149 | Base and retained bytes are the bytes sent exactly when no evicted entry had a negative size. |
| `TurnLog.CursorContinues` | src/easycat/_turn_context.py:146-160 | Continuing the cursor from the base over the retained entries is the cursor of the unbounded history. |
| `TurnLog.CursorCoversPlaytime` | src/easycat/_turn_context.py:146-160 | The folded cursor is at least the base start plus all evicted playtime. |
| `TurnLog.CursorIsLatestFinish` | src/easycat/_turn_context.py:146-160 | The folded cursor is the latest time at which playout from any evicted entry on would end without a break. |
| `TurnLog.BaseStartsWithFirst` | src/easycat/_turn_context.py:146-160 | The base starts when the first evicted entry that takes time was sent. |
| `TurnLog.ReaderAndEvictionAgree` | src/easycat/session/interruption.py:199-215 | The reader's cursor rule and the eviction's agree on every starting cursor exactly when no entry takes time without carrying bytes. |
| `TurnLog.SilentEntryDiverges` | src/easycat/session/interruption.py:199-202 | What `record_audio_sent` needs of its callers: an entry with playing time and no bytes makes the two rules differ. |
| `TurnLog.ChunksAreNotSilent` | src/easycat/audio_format.py:71-79 | The durations that audio chunks report never give such an entry, nor a negative size. |
| `TurnLog.AudioBytesLikelyHeard` | src/easycat/session/interruption.py:170-224 | The estimation loop computes base bytes heard plus each retained entry's share, or all bytes without a cutoff. |
| `TurnLog.HeardIsShare` | src/easycat/session/interruption.py:199-224 | Of an entry that takes time, the bytes heard are the whole bytes of the share that has played by the cutoff. |
| `TurnLog.BaseHeardIsShare` | src/easycat/session/interruption.py:144-168 | Of the evicted audio they are the share of its span before the cutoff, and all of it without a cutoff. |
| `TurnLog.EstimateLosesNothing` | src/easycat/session/interruption.py:144-224 | Without a cutoff, or with one after the evicted audio has played, base and retained log give the estimate of the unbounded history. |
| `TurnLog.ChunkLogLosesNothing` | src/easycat/session/_audio_router.py:1186-1193 | A log of audio chunks, all the router writes, loses neither bytes nor playout cursor nor estimate, with no condition on its entries. |
| `JustRecipes.ElementsGrow` | scripts/_justfile.py:115-118 | Each nested call has fewer recipes that are not on its stack, on every graph. |
| `JustRecipes.ResolvesExactly` | scripts/_justfile.py:115-123 | Resolution succeeds exactly when no cycle and no undefined dependency can be reached. |
| `JustRecipes.CycleExactly` | scripts/_justfile.py:116-118 | With every dependency defined, the cycle error is raised exactly when a cycle can be reached. |
| `JustRecipes.FailureIsGenuine` | scripts/_justfile.py:116-118 | A reported cycle is a walk through the dependencies that repeats a recipe. |
| `JustRecipes.ResolvesToPostOrder` | scripts/_justfile.py:119-123 | The command is the non-empty commands in post-order, each dependency before its dependant, joined once. |
| `JustRecipes.JoinedIsJoinAll` | scripts/_justfile.py:123 | Joining writes the parts that are not empty one after the other, in order, with the separator between them. |
| `JustRecipes.ResolvedIsWrittenOut` | scripts/_justfile.py:115-123 | So a resolved command is the own commands of all recipes in post-order, written out in full. |
| `RefactorMetrics.SortedForgetsOrder` | scripts/refactor_metrics.py:127-128 | Commits with distinct ids sort the same from any order. |
| `RefactorMetrics.GroupMetrics` | scripts/refactor_metrics.py:229-260 | The accumulating loop, the comprehensions and the rounded rates compute the metrics of the sorted commits. |
| `RefactorMetrics.DensityIsAFraction` | scripts/refactor_metrics.py:250-260 | A fix density lies between 0 and 1 and is absent exactly when nothing was touched. |
| `RefactorMetrics.MetricsList` | scripts/refactor_metrics.py:241-249 | They list the ids of touching commits and of the fixes among them, in order. |
| `RefactorMetrics.Clusters` | scripts/refactor_metrics.py:292-300 | The nested loops cut the sorted fixes into contiguous clusters, each within the window, each starting more than a window after the one before starts. |
| `RefactorMetrics.GreedyIsUnique` | scripts/refactor_metrics.py:292-300 | There is only one such way to cut them. |
| `RefactorMetrics.RecurrenceCandidates` | scripts/refactor_metrics.py:274-324 | For any commits, repeated ids included: candidates are the clusters with several fixes and several affected members, per bug class. |
| `RefactorMetrics.ByShaForgetsOrder` | scripts/refactor_metrics.py:274-284 | Looking commits up by id does not depend on their order when ids are distinct. |
| `RefactorMetrics.IndexForgetsOrder` | scripts/refactor_metrics.py:479-490 | The touching index does not depend on the order of commits. |
| `RefactorMetrics.ReportForgetsOrder` | scripts/refactor_metrics.py:581-647 | With distinct commit ids no permutation of the history changes a cohort's report. |
| `RefactorMetrics.WholeReportForgetsOrder` | scripts/refactor_metrics.py:650-669 | Nor the report over all cohorts. |
| `ReportLaws.MatchedExactly` | scripts/refactor_metrics.py:100-118 | A commit touches an entry exactly when it changes a path that the last entry of that id registers. |
| `ReportLaws.RegisteredExactly` | scripts/refactor_metrics.py:102-103 | The registered paths are those of all entries, earlier ones of the same id included. |
| `ReportLaws.LinesAddUp` | scripts/refactor_metrics.py:119-124 | Changed lines add up over files, each counting in full when its path is registered. |
| `ReportLaws.MetricsAddUp` | scripts/refactor_metrics.py:229-249 | Group metrics add up over commits. |
| `ReportLaws.MetricsOfOne` | scripts/refactor_metrics.py:229-249 | A commit counts exactly when it touches an entry, with its changed lines, and as a fix when it is one. |
| `ReportLaws.FixExactly` | scripts/refactor_metrics.py:241-249 | A touching commit is a fix exactly when it is classified so and affects an entry it touches. |
| `ReportLaws.RatesAreNearest` | scripts/refactor_metrics.py:250-260 | Both rates are the nearest millionth, absent exactly over nothing. |
| `ReportLaws.IndexExactly` | scripts/refactor_metrics.py:479-490 | The touching index holds exactly the entries touched by commits of each id, repeated ids included. |
| `ReportLaws.TouchedExactly` | scripts/refactor_metrics.py:486-489 | A cohort is touched through its members and through its controls. |
| `ReportLaws.WindowsExactly` | scripts/refactor_metrics.py:94-99 | The windows end and begin with the second of completion and count whole seconds. |
| `ReportLaws.WindowCounts` | scripts/refactor_metrics.py:461-476 | A window counts the commits in it up to the report's date that are not migrations, each as often as it occurs. |
| `ReportLaws.MissingExactly` | scripts/refactor_metrics.py:448-452 | A migration is missing exactly when the history has no commit of that id. |
| `ReportLaws.GroupsExactly` | scripts/refactor_metrics.py:493-512 | Treated commits touch members, control commits touch controls, in order of time. |
| `ReportLaws.OneReportEach` | scripts/refactor_metrics.py:650-669 | One report for each cohort, in order, pending ones included. |
| `ReportLaws.FixesExactly` | scripts/refactor_metrics.py:284-291 | A commit enters the clusters of a bug class exactly when it is a fix of that class that affects a member. |
| `ReportLaws.AffectedExactly` | scripts/refactor_metrics.py:301-309 | A cluster affects exactly the members its commits are classified to affect. |
| `ReportLaws.ReportedExactly` | scripts/refactor_metrics.py:302-323 | A cluster is reported exactly when it has several fixes and several affected members, with their ids, members and times. |
| `ReportLaws.RecurrencesExactly` | scripts/refactor_metrics.py:274-324 | Recurrences are what is reported of the clusters of the bug classes, all of it and nothing else. |
| `ReportLaws.IdsExactly` | scripts/refactor_metrics.py:281 | Member ids are those of the registered entries. |
| `ReportLaws.EndIsOfLastListed` | scripts/refactor_metrics.py:282 | Of several commits with the id of the last fix, the last one listed dates the end of a recurrence. |
| `ReportLaws.LastIsLast` | scripts/refactor_metrics.py:318-320 | With distinct ids a recurrence ends when the last fix of its cluster was committed. |

## Left out

- Provider networking, WebSocket, WebRTC and telephony servers, the CLI, logging and telemetry: input and output without a deep invariant.
- soxr, the numerical part of the scipy backend, NumPy's convolution and RNNoise: library internals; soxr's own length claim rests on the library.
- The design of the low-pass taps, floating-point rounding and mel features: taps are arbitrary and arithmetic is exact.
- `shielded_cleanup` and `swallow_cancel`: they join or suppress one cancellation; how requests coalesce is asyncio's own rule.
- `resample_chunk`, `to_mono_chunk`, `chunk_frames` and WAV output: per-channel and per-chunk applications of what is proved here.
- Parsing the justfile (line folding, recipe and variable patterns): text processing in front of the resolution that is modelled.
- The threaded line reader, text adopted from a wrapped stream (here the first chunk), and a session call that raises inside `toggle`, which ends the loop.
- Entry-point discovery, name normalisation and construction of providers: `Register` takes a stripped lower-case name and the model stops at the lookups.
- Review of classifications and adjudications, deltas between densities, rendering and the final verdict: parameters of the cohort report, which sees the history only through the modelled evidence.
- `stop_all`: its `remove` calls run together, each of them a caller of the session protocol.
- `Session`, `TurnManager`, journal and scope classes: only what the core relies on is assumed.
- When a stop task is asked to cancel itself: in the session protocol any stop may end as cancelled at any time, so that no step needs to record the request.
- Cancellation of a coroutine suspended in `CancelToken.wait`, and a second event loop waiting on one token: the event itself handles the first, the second is outside the class's contract.
