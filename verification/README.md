# Verified models of the camera, audio, display and file cores

This project models the stateful cores of the repository in Dafny and proves properties of whole runs of them.
Drivers, codecs, the kernel and every other device are oracles: each call that reaches one takes the answers as
parameters, and every theorem holds for all answers.

## How the project is organised

Code that changes objects step by step is a class with the same fields; every method that changes state is proved
equal to a specification function on values. The functions form a transition system, and the theorems are about
all its runs.

| part | class that updates in place | specification and theorems |
|---|---|---|
| V4L2 capture device | `CameraSource` in `V4L2CameraSource.dfy` | same file |
| camera manager | `Manager` in `CamManager.dfy` | `CameraProtocol`, `CameraSafety`, `CameraConservation`, `CameraAccounting`, `CameraTheorems`, `CameraCounterexamples`, `CameraRecovery`, `CameraRestarts`, `CameraCompletion`, `CameraDeferral`, `CameraIteration` |
| capture clock | `CaptureClock` in `AudioClock.dfy` | same file, `Division` |
| AAC and Opus re-blocking | `Encoder` in `FrameEncoder.dfy` | same file |
| encoder node | `EncoderWorker` in `EncoderNode.dfy` | same file, end to end in `AudioTimeline`, `AudioContiguity` and `AudioFrames` |
| DMA pool, DRM display, presenter | `BufferPool`, `DrmContext`, `Pipeline` | `DmaBufferPool`, `DrmDisplay`, `DrmPresenter` |
| playback ring | `Ring` in `PlaybackQueue.dfy` | same file |
| Annex-B splitter | loops in `AnnexB.dfy` | same file |
| packet file, ADTS, scopes | `Writer`, `Reader` and loops | `PacketFile`, `AdtsFile`, `ScopeText`, `Bytes` |

The camera protocol interleaves freely. One poll thread executes commands, drains returned frames, dequeues and stamps
leases; between any two of its steps another thread may request a start, stop, delete or recovery, push a command it
announced earlier, or drop a frame. `Manager.PollOnce` is proved to be such a run, and `CameraIteration` says what the run
achieves.

## What turned out not to hold

Each of these is stated in Dafny with a concrete run or an exact condition.

- A StartCamera that executes on a camera in Error whose buffers are allocated and stopped is not made to wait for
  borrowed frames: the wait at `src/core/cam/CamManager.cpp:1104` covers only the state Stopped. The start queues a
  buffer that a sink still reads (`HazardIsReachable`). The frame that was out is counted for ever after, so from then on
  no RestartCamera, and no StartCamera on a stopped camera, touches the device again (`ExcessIsForever`,
  `HazardLeavesExcess`).
- A StartCamera that executes while the slot has failed but the device still streams only resets the slot
  (`src/core/cam/CamManager.cpp:1113-1127`). A buffer whose frame came back in the meantime was not requeued
  (`src/core/cam/CamManager.cpp:1396-1400`), belongs to nobody, and stays so until the device is started anew
  (`LostUntilRestart`). It happens when a start arrives after the drain of commands at the top of `pollOnce`
  (`src/core/cam/CamManager.cpp:579-583`) and before that iteration has dealt with a frame a sink refuses; the camera can
  then end up streaming without a single buffer (`LossIsReachable`). The manager's own fields show the condition in
  advance: fewer queued bits and counted frames than buffers (`StrandingIsVisible`).
- Conservation, which is that frames are counted exactly, that no buffer has two holders and that while the camera streams
  none has lost its holder, therefore holds of all runs without these two kinds of start, and the next executed command
  keeps it for all driver answers if and only if it is neither (`ConservationIsKeptIff`).
- Recovery does not always complete. Over every run, a failed camera with no user command pending can be brought back to
  streaming without a further request if and only if every frame that is counted is out under the current lease
  generation (`RecoveryCanCompleteIff`). A hazardous start breaks this in two ways: a frame that came back stale is counted
  for ever, and one that a sink still holds will be (`HeldStaleFrameBlocksRecovery`). The same condition decides whether a
  start that was deferred for borrowed frames can ever stream (`DeferredStartCompletesIff`).
- The gap detector ignores differences up to one millisecond of its own expectation. In every reachable state the next
  block is joined to the frame under construction across a gap if and only if it does not continue that frame and its
  timestamp is at most that far off (`SplicesExactlyUnnoticedGaps`), and over whole runs every frame is free of gaps if
  and only if no block is joined (`RunsIffNothingIsJoined`). Two concrete runs, one with a loss in the raw pool and one with an
  eviction from the queue, make the codec accept a spliced frame (`SplicedFramesAreAccepted`). Blocks that last longer
  than a millisecond rule it out (`NoFrameSpansAGap`).
- The packet file writer accepts payloads up to 4 GiB while the reader refuses more than 1 MiB; a written file reads back
  completely if and only if no payload is larger (`FileRoundTrip`, with the packet of `LargePacketIsLost`).
- `include/core/audio/AudioPacketFile.h:48` calls the result 0 a normal end of file. The code also returns it when the
  file is cut less than a record header behind the end of a record, and only then (`TruncatedFile`, with the cut of
  `CutHeaderReadsAsEnd`).
- The playback gate can never open when the prebuffer is longer than what the queue holds (`GateReachability`, with the
  configuration of `SomeGatesNeverOpen`).
- A diagnostic session stops at the first record that one of its files refuses, and does not take back what the other
  already holds. Read back, the two files hold the same number of packets if and only if there is no such record, or the
  packet file does not take it, or it is too large for the packet file's reader (`WriteEncodedFiles`). A disk that fills up
  between the two writes of an ordinary packet makes them differ (`FullDiskDivides`).

The ADTS header function has two limits that its callers stay within, since packets have at most 2048 bytes
(`src/core/audio/AudioPipeline.cpp:85`) and the encoder takes at most two channels: it refuses payloads of more than 8184
bytes (`OverlongPacketDivides`), and it writes the channel count into a field in which seven stands for eight
(`StreamRoundTrip`).

## Model

| member | source | states |
|---|---|---|
| CameraTheorems.LeasesAreConserved | src/core/cam/CamManager.cpp:763-790 | over every run without a hazardous start each buffer has at most one holder, the in-flight counter is exactly the number of frames out, all of them are of the current generation, and no leased buffer belongs to the driver; without a stranding start each buffer of a streaming camera has exactly one holder |
| CameraTheorems.ConservationIsKeptIff | src/core/cam/CamManager.cpp:1103-1272 | after a run without hazardous and stranding starts the next executed command keeps counts exact, holders single and every buffer held, for all driver answers, if and only if it is neither |
| CameraConservation.NoBufferIsLost | src/core/cam/CamManager.cpp:1342-1427 | over every run without a stranding start, hazardous or not, each buffer of a streaming camera has exactly one holder |
| CameraConservation.StrandingIsTheOnlyLoss | src/core/cam/CamManager.cpp:1113-1127 | the next executed command loses no buffer, for all driver answers, if and only if it is not a start that resumes a failed slot over a streaming device with a buffer nobody holds |
| CameraConservation.StepKeepsWhole | src/core/cam/CamManager.cpp:579-840 | no step of any thread takes the last holder of a buffer while the camera streams, except such a start |
| CameraConservation.NoResumeNoStranding | src/core/cam/CamManager.cpp:1113-1127 | it suffices that no start finds the device streaming behind a slot that is not |
| CameraAccounting.StrandingIsVisible | src/core/cam/CamManager.cpp:1103-1127 | after any hazard-free run, when a command can execute, some buffer belongs to nobody if and only if queued bits plus the in-flight counter are fewer than the buffers; so a stranding start can be told beforehand |
| CameraConservation.LostUntilRestart | src/core/cam/CamManager.cpp:1374-1404 | a buffer without a holder has none along every run in which the device streams on |
| CameraCounterexamples.LossIsReachable | src/core/cam/CamManager.cpp:1113-1127 | a concrete run, without a hazardous start, after which the camera streams, nothing is pending, and its only buffer belongs to nobody |
| CameraTheorems.HazardIsTheOnlyBreak | src/core/cam/CamManager.cpp:1104-1162 | after a run without hazardous starts the next executed command keeps counts exact and holders single for all driver answers if and only if it is not a StartCamera on a failed, stopped, allocated camera with frames out |
| CameraCounterexamples.HazardIsReachable | src/core/cam/CamManager.cpp:1103-1162 | a concrete run from a freshly added camera after which the driver owns a buffer that a live lease still reads |
| CameraTheorems.ReturnedFrameIsCountedAndIdle | src/core/cam/CamManager.cpp:1374-1404 | in every run, hazardous or not, a drained current-generation return finds the counter positive, and while streaming its QBUF names an existing buffer the driver does not own |
| CameraTheorems.RestartTouchesOnlyUnborrowedBuffers | src/core/cam/CamManager.cpp:1213-1237 | in every run, hazardous or not, RestartCamera and StartCamera on a stopped camera change the device only when no frame of any generation is out |
| CameraTheorems.ExcessIsForever | src/core/cam/CamManager.cpp:1379-1394 | once a frame is counted that nobody has, the miscount never shrinks while the camera is registered, and no restart or start from stopped touches the device again |
| CameraCounterexamples.HazardLeavesExcess | src/core/cam/CamManager.cpp:1379-1394 | the hazardous run ends in that trap as soon as the sink drops its frame |
| CameraSafety.StepKeepsInv | src/core/cam/CamManager.cpp:579-840 | every step of any thread keeps the safety invariant, and keeps counts exact and holders single unless it is a hazardous start |
| CameraSafety.RunKeepsInv | src/core/cam/CamManager.cpp:579-840 | the same along runs of any length |
| CameraSafety.ExecHasEffect | src/core/cam/CamManager.cpp:1103-1272 | an executed command never changes the frame counter, bumps the lease generation only together with a source that streams, and with frames out can only leave the source alone or stop it unless it is the hazardous start |
| CameraSafety.InitialInv | src/core/cam/CamManager.cpp:291-416 | a freshly added camera satisfies both the invariant and exact conservation |
| CameraProtocol.RunConcat | src/core/cam/CamManager.cpp:842-861 | runs compose |
| CameraRecovery.RecoveryNeverForgets | src/core/cam/CamManager.cpp:947-1028 | in every run a registered camera in Error has exactly one of three obligations: one pending ProcessError of the current generation, waiting, or one pending RestartCamera of the current generation |
| CameraRecovery.StepKeepsRecovery | src/core/cam/CamManager.cpp:1129-1272 | every step of any thread keeps that bookkeeping |
| CameraRecovery.StopHolds | src/core/cam/CamManager.cpp:1164-1216 | after any run, once StopCamera executes the source cannot stream again until a StartCamera executes or recovery is requested anew, whatever stale commands remain; a slot in Streaming always means a streaming source |
| CameraRecovery.StopIsFinal | src/core/cam/CamManager.cpp:1164-1178 | a stopped camera stays stopped along every run without an executed start or a new recovery request |
| CameraRecovery.EscalationBound | src/core/cam/CamManager.cpp:1239-1256 | within one recovery episode at most two light attempts fail, and after the second a rebuild is required until the episode ends |
| CameraRecovery.FailuresSpendBudget | src/core/cam/CamManager.cpp:1180-1256 | the light failures of an episode and what it may still fail never exceed the budget it began with |
| CameraRecovery.RebuildSucceedsIffDriverAgrees | src/core/cam/CamManager.cpp:1218-1237 | a rebuild attempt from any device state succeeds if and only if the driver accepts every phase; no call is rejected for coming in the wrong state |
| CameraRecovery.LightSucceedsIff | src/core/cam/V4L2CameraSource.cpp:460-482 | a light attempt succeeds if and only if the buffers are set up and the driver takes every idle one and STREAMON |
| CameraCompletion.RecoveryCanComplete | src/core/cam/CamManager.cpp:979-1272 | from every failed state of a conservative run some continuation without further requests ends the failure, in streaming unless a stop or removal was pending |
| CameraCompletion.RecoveryCanCompleteIff | src/core/cam/CamManager.cpp:1206-1216 | over every run, hazardous or not, a failed camera with no user command pending can be brought back to streaming without a request if and only if every counted frame is out under the current lease generation |
| CameraCompletion.StuckForever | src/core/cam/CamManager.cpp:1366-1394 | a failed camera that counts a frame which can never be uncounted stays failed until a user command arrives |
| CameraCounterexamples.HeldStaleFrameBlocksRecovery | src/core/cam/CamManager.cpp:1379-1387 | a reachable failed camera with nothing miscounted that still cannot recover, because the frame out is of an older generation |
| CameraDeferral.StartIsHonoured | src/core/cam/CamManager.cpp:1103-1162 | after any run in which every counted frame can still come back, a StartCamera that executes with no stop or removal behind it leaves the camera where some continuation without a request ends in streaming, whatever the driver answered and whether the start streamed, was deferred or failed |
| CameraDeferral.DeferredStartCompletesIff | src/core/cam/CamManager.cpp:1104-1111 | over every run, a stopped camera with a deferred start and no stop or removal pending can reach streaming without a request if and only if every counted frame is out under the current lease generation |
| CameraDeferral.DeferredStartIsPostedOnce | src/core/cam/CamManager.cpp:988-995 | a deferred start is posted by the first check that finds no frame out, and not again, however many checks follow, until a command settles it |
| CameraDeferral.StartOutcome | src/core/cam/CamManager.cpp:1103-1162 | an executed start with frames out on a stopped camera leaves the device alone and is remembered; any other streams or leaves a failure to recover from |
| CameraRestarts.StoppedDeviceStartsFromScratch | src/core/cam/CamManager.cpp:1164-1185 | after any run, once a stop or a current ProcessError has executed on a streaming device, the driver holds no buffer until the next attempt to stream, and that attempt succeeds if and only if the driver takes every buffer and STREAMON |
| CameraRestarts.RestartsWaitForBackoff | src/core/cam/CamManager.cpp:998-1021 | after any run, a step announces a RestartCamera if and only if it is a check while the camera waits with nothing out, not before the last failure plus the back-off for the failures in a row, both recorded without the manager's counter and clock |
| CameraRestarts.RunIsTimely | src/core/cam/CamManager.cpp:1129-1256 | along every run the manager's counter is the number of failures in a row and its next restart time is the last failure plus their back-off |
| CameraRestarts.AlarmsLeadToRebuild | src/core/cam/CamManager.cpp:947-977 | after any run, a fault or request and any continuation of its episode: a rebuild is required if and only if it was a hang-up, a request to reopen or a refused buffer, or a light attempt failed as the third failure in a row; in the first case no light attempt is made, and the next restart streams if and only if the driver accepts what is then required |
| CameraRestarts.AlarmOpensEpisode | src/core/cam/CamManager.cpp:511-539 | a fault, a request or a refused buffer fails the camera, opens a new recovery generation with one ProcessError to execute, and leaves the device and the failure count alone |
| CameraRestarts.OldRecoveryIsOver | src/core/cam/CamManager.cpp:1113-1178 | after any run, an executed stop and a start that finds the camera streaming drop every deferred start and pending restart and make all pending recovery commands stale |
| CameraRestarts.StreamingIsClean | src/core/cam/CamManager.cpp:1148-1162 | in every run a streaming camera has no recovery flag set and no failure counted |
| CamManager.Manager.constructor | src/core/cam/CamManager.cpp:291-416 | addCamera registers exactly when the request is well formed, open, configure and buffer setup succeed in turn, and an MJPEG camera gets its decode worker; the state, counters and device it leaves in every case |
| CamManager.AddedCameraIsInitial | src/core/cam/CamManager.cpp:291-416 | a camera addCamera accepts starts the protocol with every buffer owned by the driver |
| CamManager.Manager.PollOnce | src/core/cam/CamManager.cpp:579-840 | one iteration of the poll loop is exactly the run of poll-thread steps listed for it, whatever the device answers and whoever keeps, displaces or refuses the frame |
| CameraIteration.PreparationServesAll | src/core/cam/CamManager.cpp:579-591 | the first part of every iteration executes all queued commands, drains all returned frames and posts what is due: nothing is returned or due afterwards, and the queue holds only what came up meanwhile |
| CameraIteration.FaultIsServed | src/core/cam/CamManager.cpp:713-719 | a fault that poll reports fails the camera with one ProcessError, with a rebuild wanted exactly for a hang-up |
| CameraIteration.KeptFrameIsOut | src/core/cam/CamManager.cpp:725-837 | a frame some sink keeps is out, counted once, its buffer no longer the driver's, and nothing else has changed |
| CameraIteration.UnkeptFrameGoesBack | src/core/cam/CamManager.cpp:725-837 | a frame no sink keeps is with the driver again at the end of the iteration as if it had not been dequeued, or its refusal fails the camera |
| CameraIteration.DecoderTakesFrame | src/core/cam/CamManager.cpp:800-812 | a frame the decoder takes is out, and one it displaces waits in the return queue |
| CameraIteration.RefusalFailsCamera | src/core/cam/CamManager.cpp:820-831 | a sink's refusal fails the camera without asking for a rebuild; a frame nobody keeps is uncounted and its buffer parked |
| CameraIteration.DecoderRefusalFailsCamera | src/core/cam/CamManager.cpp:800-831 | so does the decoder's |
| CamManager.Manager.ExecuteCommand | src/core/cam/CamManager.cpp:1070-1280 | the in-place execution of a command is the protocol's step on the slot and touches neither queue |
| CamManager.Manager.ExecuteStart | src/core/cam/CamManager.cpp:1103-1162 | all four outcomes of a start with every counter and flag; a start that has to wait is remembered |
| CamManager.Manager.ExecuteStop | src/core/cam/CamManager.cpp:1164-1178 | stop ends streaming, drops every pending start or restart and opens a new recovery generation |
| CamManager.Manager.ExecuteProcessError | src/core/cam/CamManager.cpp:1180-1204 | a current failure stops the source and schedules a restart; a stale one changes nothing |
| CamManager.Manager.ExecuteRestart | src/core/cam/CamManager.cpp:1206-1272 | stale, waiting, failing and successful restarts with every counter and flag |
| CamManager.Manager.AttemptRecovery | src/core/cam/CamManager.cpp:1218-1237 | the optional rebuild and the start stop at the first refusal |
| CamManager.Manager.DrainCommands | src/core/cam/CamManager.cpp:1051-1068 | exactly the commands queued on entry are executed, in order |
| CamManager.Manager.DrainReturnedFrames | src/core/cam/CamManager.cpp:1342-1427 | exactly the returns queued on entry are processed in order, and the recovery commands of refused QBUFs are posted at the end |
| CamManager.Manager.ReturnOne | src/core/cam/CamManager.cpp:1366-1410 | one return: ignored, counted, requeued, or turned into a failure |
| CamManager.DrainIsARun | src/core/cam/CamManager.cpp:1342-1427 | draining the return queue in one go is that many single steps of the protocol |
| CamManager.DrainCommandsIsARun | src/core/cam/CamManager.cpp:1051-1068 | draining the command queue in one go is that many single steps |
| CamManager.Manager.CheckAndPostCameraRestartCommands | src/core/cam/CamManager.cpp:979-1028 | a deferred start is posted when nothing is out, and a restart when nothing is out and its back-off is over, each once |
| CamManager.Manager.ReportCameraFault | src/core/cam/CamManager.cpp:947-977 | only a registered camera that is neither failed nor deleting fails, with one ProcessError of a new generation and a rebuild wanted exactly for a hang-up |
| CamManager.Manager.RequestCameraRecovery | src/core/cam/CamManager.cpp:511-539 | the same for a request from outside, with a rebuild wanted exactly if asked for, and when it is refused |
| CamManager.Manager.DelCamera | src/core/cam/CamManager.cpp:450-481 | deletion marks the camera, and removes it at once only when no poll thread runs |
| CamManager.Manager.RequestStart | src/core/cam/CamManager.cpp:483-495 | a start is queued for a registered camera that is not being deleted |
| CamManager.Manager.RequestStop | src/core/cam/CamManager.cpp:497-509 | a stop likewise |
| CamManager.Manager.StampLease | src/core/cam/CamManager.cpp:760-772 | a frame is counted and stamped only while the camera is registered and streaming |
| CamManager.Manager.PostReturnedFrame | src/core/cam/CamManager.cpp:1282-1291 | a dropped lease is appended to the return queue |
| CameraProtocol.RestartBackoff | src/core/cam/CamManager.cpp:73-77 | the back-off after each number of attempts: 0, 0, 1, 2, 5 seconds, then ten |
| V4L2CameraSource.RebuildNeedsOnlyTheDriver | src/core/cam/V4L2CameraSource.cpp:119-383 | close, open, configure, set up from any state succeeds exactly when a positive number of buffers is asked for and the driver accepts every phase, and then all buffers are fresh and queued |
| V4L2CameraSource.StartAfterStop | src/core/cam/V4L2CameraSource.cpp:460-494 | a stopped device starts if and only if the driver takes every buffer again and STREAMON |
| V4L2CameraSource.QueueFromEffect | src/core/cam/V4L2CameraSource.cpp:460-474 | queueing every idle buffer succeeds if and only if the driver refuses none, and on refusal exactly the buffers before the refused one are queued |
| V4L2CameraSource.CameraSource.SetupDmaImportBuffers | src/core/cam/V4L2CameraSource.cpp:299-383 | import, or the export fallback when the driver refuses imported memory, or no buffers at all |
| V4L2CameraSource.CameraSource.SetupMmapExportBuffers | src/core/cam/V4L2CameraSource.cpp:385-458 | all buffers mapped, exported and queued, or none kept |
| V4L2CameraSource.CameraSource.StartStreaming | src/core/cam/V4L2CameraSource.cpp:460-482 | only an allocated device starts; also after a failed start the queued bits are exactly the buffers the driver holds |
| V4L2CameraSource.CameraSource.StopStreaming | src/core/cam/V4L2CameraSource.cpp:484-494 | STREAMOFF takes every buffer from the driver, and the queued bits again say exactly which buffers it holds |
| V4L2CameraSource.CameraSource.DequeueFrame | src/core/cam/V4L2CameraSource.cpp:521-570 | only the dequeued buffer leaves the driver |
| V4L2CameraSource.CameraSource.RequeueFrame | src/core/cam/V4L2CameraSource.cpp:572-580 | a requeue needs a streaming device and an idle buffer |
| V4L2CameraSource.CameraSource.QueueBuffer | src/core/cam/V4L2CameraSource.cpp:597-635 | exactly an existing idle buffer that the driver takes is queued, and then the driver holds it |
| V4L2CameraSource.CameraSource.OpenDevice | src/core/cam/V4L2CameraSource.cpp:119-165 | only a closed device opens |
| V4L2CameraSource.CameraSource.ConfigureDevice | src/core/cam/V4L2CameraSource.cpp:181-286 | only an open or configured device is configured |
| V4L2CameraSource.CameraSource.CloseDevice | src/core/cam/V4L2CameraSource.cpp:167-179 | closing works from every state and keeps no buffer |
| AudioContiguity.NoFrameSpansAGap | src/core/audio/AudioPipeline.cpp:533-570 | whatever the pool and the queue lose and whichever codec calls fail, every frame the codec accepts is a stretch of consecutive captured samples, frames are disjoint and increasing, and each timestamp is within one microsecond of the exact time of its first sample |
| AudioContiguity.ResetsExactlyAtGaps | src/core/audio/AudioPipeline.cpp:63-70 | at every point of every run, whatever the block lengths, the detector does not fire on a block that continues the last one; if all blocks last more than a millisecond it fires on every other |
| AudioContiguity.GapFreeInputNeverResets | src/core/audio/AudioPipeline.cpp:533-570 | along a run that loses no block, however short the blocks, the detector never fires and every accepted frame is a stretch of consecutive samples |
| AudioContiguity.DetectorIsExact | src/core/audio/AudioPipeline.cpp:63-70 | the one-millisecond comparison of rounded times decides exactly whether samples are missing |
| AudioContiguity.SplicesExactlyUnnoticedGaps | src/core/audio/AudioPipeline.cpp:533-570 | in every reachable state, whatever was lost before, a worker turn puts the block next to the frame under construction across a gap if and only if the block does not continue it and its timestamp is at most a millisecond off what the node expects |
| AudioContiguity.RunsIffNothingIsJoined | src/core/audio/AudioPipeline.cpp:533-570 | over any run, everything cached or accepted is always free of gaps if and only if no block is joined that way |
| AudioContiguity.UnjoinedFramesAreSpans | src/core/audio/AudioPipeline.cpp:533-570 | in every run without a joined block every accepted frame is a stretch of consecutive samples behind all earlier ones |
| AudioContiguity.SplicedFramesAreAccepted | src/core/audio/AudioPipeline.cpp:432-455 | two concrete runs, a loss in the raw pool and an eviction from the queue, after which the codec has accepted a frame across the gap |
| AudioFrames.FrameLasts | src/core/audio/OpusEncoder.c:179 | an accepted Opus frame lasts exactly the configured duration, and an AAC frame has 1024 samples |
| AudioFrames.LosslessFramesAreEven | src/core/audio/AudioPipeline.cpp:533-570 | along a run that loses nothing, with a codec that accepts everything, frame i is the captured samples from i frame sizes on |
| AudioFrames.OpusFramesAreEvenlyTimed | src/core/audio/OpusEncoder.c:162-179 | then Opus frame i carries the anchor plus i frame durations, or a microsecond less, so successive timestamps differ by the duration up to a microsecond |
| AudioFrames.FramesHaveOneFormat | src/core/audio/AudioPipeline.cpp:546-551 | however the formats of the blocks change and whatever is dropped or fails, every accepted frame holds samples of one accepted format and is as long as frames of that format are |
| AudioFrames.TurnExpectsNext | src/core/audio/AudioPipeline.cpp:552-568 | after a turn the node expects the next block where this one ends if and only if the block was not empty and every codec call succeeded |
| AudioTimeline.FramesAreOrderedAndTimed | src/core/audio/AudioPipeline.cpp:432-570 | in every run, without any hypothesis on block lengths, accepted frames are full, in order, disjoint and timed within one microsecond of their first sample |
| AudioTimeline.StepIsGood | src/core/audio/AudioPipeline.cpp:432-570 | every capture, loss and worker turn keeps the end-to-end invariant |
| AudioTimeline.PushKeepsOrder | src/core/audio/AacEncoder.c:91-128 | pushing a block that lies behind the cache, also a refused full one, keeps frames in order and timed |
| AudioContiguity.PushKeepsRuns | src/core/audio/AacEncoder.c:91-128 | pushing a block that continues the cache, or one that follows a refused full cache, puts out only gap-free frames |
| AudioClock.ClockNeverDrifts | src/core/audio/AudioCapture.c:227-245 | however the stream is cut into blocks the clock equals the anchor plus the exact time of all frames, rounded down once |
| AudioClock.AdvanceStaysOnTime | src/core/audio/AudioCapture.c:25-29 | one advance keeps clock and remainder exact |
| AudioClock.FramesToUsAdds | src/core/audio/AudioPipeline.cpp:50-61 | rounding two stretches separately loses at most one microsecond |
| AudioClock.CaptureClock.BlockRead | src/core/audio/AudioCapture.c:227-245 | every block's timestamp is the exact time of its first frame since the anchor, and the anchor is one block before now |
| FrameEncoder.UnitsIgnoreBlocking | src/core/audio/AacEncoder.c:91-128 | what the codec receives is the fixed-size cut of the concatenated input, however it was blocked |
| FrameEncoder.PushIsReblocking | src/core/audio/AacEncoder.c:91-128 | a successful push extends accepted frames and cache by exactly the input, a failed one by a prefix of it; the loop ends even when entered with a full cache |
| FrameEncoder.PushShape | src/core/audio/OpusEncoder.c:67-104 | every accepted frame is full and stays; after success the cache is short of a frame, after failure it is empty or holds the refused frame |
| FrameEncoder.PushSucceedsIff | src/core/audio/AacEncoder.c:91-128 | a push succeeds if and only if every codec call it comes to succeeds, one for each frame that cache and input fill |
| FrameEncoder.PushAccepts | src/core/audio/OpusEncoder.c:38-65 | exactly the frames the codec takes are accepted, the last one also when its subscriber fails |
| FrameEncoder.FullUnitsAreTheCut | src/core/audio/AacEncoder.c:100-126 | full frames and a short rest are the only way to cut a stream |
| FrameEncoder.Encoder.PushPcm | src/core/audio/AacEncoder.c:91-128 | the copying loop over the cache array is that re-blocking |
| FrameEncoder.Encoder.EncodeCachedFrame | src/core/audio/OpusEncoder.c:38-65 | a refused frame stays cached, an accepted one is released even if the subscriber fails |
| FrameEncoder.Encoder.ResetState | src/core/audio/AacEncoder.c:144-165 | a reset discards the unfinished frame whatever the codec answers |
| EncoderNode.EncoderWorker.WorkOnce | src/core/audio/AudioPipeline.cpp:533-570 | one worker turn: take the oldest block, rebuild or reset if needed, push, and expect the next timestamp |
| EncoderNode.EncoderWorker.PrepareFor | src/core/audio/AudioPipeline.cpp:502-531 | a format change rebuilds the encoder, a gap resets it, and a failed reset rebuilds it |
| EncoderNode.EncoderWorker.EnqueueBlock | src/core/audio/AudioPipeline.cpp:432-455 | a full queue drops its oldest block and counts it |
| EncoderNode.EncoderWorker.constructor | src/core/audio/AudioPipeline.cpp:383-408 | a start succeeds exactly for formats the encoder accepts, and then has an empty cache of the codec's frame size; the capacity is at least one |
| EncoderNode.AcceptedFramesAreNotEmpty | src/core/audio/OpusEncoder.c:162-169 | every format the create functions accept gives a positive frame size |
| EncoderNode.FormatAcceptedIff | src/core/audio/OpusEncoder.c:160-168 | which rates, channels and durations are taken; the check for whole samples refuses none of them |
| DrmPresenter.ScreenBuffersAreNeverReused | drm/rtsp_drm_sink_demo.cpp:92-150 | in every run the buffer being scanned out and the one waiting for its flip stay lent out, so the pool hands out neither; with three buffers the pool always has one; no lease leaks |
| DrmPresenter.StepKeepsInv | drm/rtsp_drm_sink_demo.cpp:92-210 | every lend, drop, flip, hand-over and submit keeps the correspondence of slots, leases and framebuffers |
| DrmPresenter.Pipeline.CopyAndPresent | drm/rtsp_drm_sink_demo.cpp:422-481 | presenting one decoded frame is a run of those steps for every outcome of copy, initialisation and kernel, and it reports success exactly when a buffer was free, the copy worked and the presenter took the frame |
| DrmPresenter.Pipeline.Present | drm/rtsp_drm_sink_demo.cpp:92-150 | a frame is submitted only after catching up with flips; the frame counts as displayed exactly if the presenter keeps it, and the call succeeds exactly if it is kept or a flip is still outstanding |
| DrmPresenter.VerdictIsFate | drm/rtsp_drm_sink_demo.cpp:92-150 | a frame is displayed if and only if it ends as front or pending packet, otherwise its buffer is back in the pool, and it is skipped exactly if a flip stays outstanding |
| DrmPresenter.Pipeline.ConsumeDrmEvents | drm/rtsp_drm_sink_demo.cpp:197-210 | packets are handed over exactly when no flip is outstanding |
| DrmDisplay.EveryRunIsSafe | drm/drm_display.c:723-769 | after any submits and flips every slot but front and pending is FREE, those two hold live framebuffers, no two slots cache the same frame, and without an outstanding flip a slot that is not on screen is found |
| DrmDisplay.SubmitIsSafe | drm/drm_display.c:1073-1182 | a submit never changes the framebuffer on screen, is refused while a flip is outstanding, and on success the slot holds exactly the submitted frame |
| DrmDisplay.SubmittedFrameIsShown | drm/drm_display.c:682-741 | a submit succeeds exactly for a valid frame, no flip outstanding, cached or imported, whose commit the kernel takes; the slot then shows it with pitch and offset of every plane, format by format |
| DrmDisplay.FramebuffersStay | drm/drm_display.c:754-769 | a cached framebuffer is given up only if the frame is not cached and every slot is in use |
| DrmDisplay.FramebuffersAreTheKernels | drm/drm_display.c:815-892 | a submit caches no framebuffer that the kernel did not make |
| DrmDisplay.FlipIsSafe | drm/drm_display.c:904-939 | a flip shows the queued framebuffer and frees the old one; a stray event changes nothing |
| DrmDisplay.FrameFindsASlot | drm/drm_display.c:815-902 | finding or importing a frame fails only if the kernel refuses and leaves the front slot alone |
| DrmDisplay.FreeSlotExists | drm/drm_display.c:754-769 | without an outstanding flip there is a slot that is neither queued nor on screen |
| DrmDisplay.DrmContext.DisplaySubmit | drm/drm_display.c:1073-1182 | the in-place submit over the slot array computes the specified submit |
| DrmDisplay.DrmContext.PageFlipHandler | drm/drm_display.c:904-939 | likewise the flip handler |
| DrmDisplay.DrmContext.ImportBufAsFb | drm/drm_display.c:815-892 | a failed import leaves the chosen slot empty, a successful one holds the frame |
| DrmDisplay.DrmContext.FindCachedFb | drm/drm_display.c:743-752 | the first slot that holds the frame, if any |
| DrmDisplay.DrmContext.FindFreeFbSlot | drm/drm_display.c:754-769 | the first unused slot, else the first one in state FREE |
| DmaBufferPool.LendingIsExact | src/core/memory/DmaBufferPool.cpp:68-103 | lending fails exactly when everything is out, changes one slot, keeps the summary state right, and is undone by returning |
| DmaBufferPool.ReturningIsExact | src/core/memory/DmaBufferPool.cpp:105-139 | returning succeeds exactly for a slot that is out and changes only that slot |
| DmaBufferPool.BufferPool.AcquireFrame | src/core/memory/DmaBufferPool.cpp:68-103 | the scan over the slots lends the first free one |
| DmaBufferPool.BufferPool.ReleaseFrame | src/core/memory/DmaBufferPool.cpp:105-139 | a foreign or free slot is refused |
| PlaybackQueue.EvictsShortestPrefix | src/core/audio/AudioPlaybackPipeline.cpp:200-209 | a push evicts exactly the shortest prefix that makes room |
| PlaybackQueue.PushKeepsInv | src/core/audio/AudioPlaybackPipeline.cpp:187-218 | a push is refused exactly on a mode clash, else appends behind what is kept, within both limits |
| PlaybackQueue.RunKeepsInv | src/core/audio/AudioPlaybackPipeline.cpp:187-253 | along every run the item limit holds, the budget holds unless a single item exceeds it, and accepted equals popped plus dropped plus queued |
| PlaybackQueue.PlaysOldestIff | src/core/audio/AudioPlaybackPipeline.cpp:239-250 | over every run the worker takes the oldest item if and only if there is one and an item has come out since the device last ran dry, or the prebuffer is reached |
| PlaybackQueue.PlayedInOrder | src/core/audio/AudioPlaybackPipeline.cpp:187-253 | over every run items come out in the order they were accepted, and only evicted ones are missing |
| PlaybackQueue.GateReachability | src/core/audio/AudioPlaybackPipeline.cpp:239-243 | with items of constant duration the start-up gate can open if and only if the prebuffer is at most what the queue can hold |
| PlaybackQueue.SomeGatesNeverOpen | src/core/audio/AudioPlaybackPipeline.cpp:52-64 | an accepted configuration whose gate stays closed after any number of pushes |
| PlaybackQueue.GateAfter | src/core/audio/AudioPlaybackPipeline.cpp:239-243 | after n pushes the gate is open exactly when the items still held are long enough |
| PlaybackQueue.Ring.Enqueue | src/core/audio/AudioPlaybackPipeline.cpp:187-218 | the array ring behaves as the sequence, and its running total is the exact sum of durations |
| PlaybackQueue.Ring.EvictFor | src/core/audio/AudioPlaybackPipeline.cpp:200-209 | the eviction loop drops and counts what the specification evicts |
| PlaybackQueue.Ring.TakeNext | src/core/audio/AudioPlaybackPipeline.cpp:231-253 | the worker takes the oldest item exactly when the gate is open |
| PlaybackQueue.Ring.Clear | src/core/audio/AudioPlaybackPipeline.cpp:220-229 | clearing empties the queue and closes the gate, and keeps mode and counters |
| AnnexB.SplitIsExact | demo/codec/mpp_decoder_demo.cpp:255-286 | the units tile the data from its first start code to its end, each begins with a start code, there are max(1, v) of them for v video NAL units, and with v at least 1 each holds exactly one |
| AnnexB.UnitsByPosition | demo/codec/mpp_decoder_demo.cpp:224-286 | the same with NAL units defined by position: a start code that is not the tail of a longer one, and the header bytes that make a video unit for each codec |
| AnnexB.VideosByPosition | demo/codec/mpp_decoder_demo.cpp:211-253 | counting video units along the scan is counting them by position |
| AnnexB.UnitsCoverTheStream | demo/codec/mpp_decoder_demo.cpp:255-286 | the units put together are everything from the first start code on |
| AnnexB.FindStartSkipsNothing | demo/codec/mpp_decoder_demo.cpp:211-222 | no start code lies before the one that is found |
| AnnexB.SplitAnnexBAccessUnits | demo/codec/mpp_decoder_demo.cpp:255-286 | the scanning loop returns exactly those units |
| AnnexB.FindStartCode | demo/codec/mpp_decoder_demo.cpp:211-222 | the byte scan finds the first start code or the end |
| PacketFile.FileRoundTrip | src/core/audio/AudioPacketFile.c:79-194 | a written file opens with the same description, and reads back the same packets if and only if every payload is at most 1 MiB |
| PacketFile.LargePacketIsLost | src/core/audio/AudioPacketFile.c:162-194 | a packet of 1048577 bytes is written and never read back |
| PacketFile.TruncatedFile | src/core/audio/AudioPacketFile.c:162-194 | a file cut anywhere behind its header still opens and yields exactly the packets before the cut, and ends as a normal end of file if and only if the cut lies less than a record header behind the end of a record |
| PacketFile.CutHeaderReadsAsEnd | src/core/audio/AudioPacketFile.c:162-194 | a file with one packet, cut five bytes into its record header, reads as an empty file that ends normally |
| PacketFile.TruncationGivesPrefix | src/core/audio/AudioPacketFile.c:162-194 | cutting any file gives a prefix of what it gave before |
| PacketFile.RecordIsReadIff | src/core/audio/AudioPacketFile.c:162-194 | a complete record is returned if and only if its payload is at most 1 MiB |
| PacketFile.BodyRoundTrip | src/core/audio/AudioPacketFile.c:162-194 | reading gives the records up to the first one the reader refuses, and says which way it ended |
| PacketFile.HeaderRoundTrip | src/core/audio/AudioPacketFile.c:106-160 | a written header is read back as it was, whatever follows |
| PacketFile.HeaderLayout | src/core/audio/AudioPacketFile.c:23-40 | a written header byte by byte: the tag and seven little-endian fields, 36 bytes |
| PacketFile.RecordLayout | src/core/audio/AudioPacketFile.c:35-38 | a record byte by byte: timestamp, size, padding, payload |
| PacketFile.VersionOneOpensIff | src/core/audio/AudioPacketFile.c:124-158 | exactly which version 1 headers open, and as what; the samples to a frame follow from its duration |
| PacketFile.VersionTwoOpensIff | src/core/audio/AudioPacketFile.c:137-158 | exactly which version 2 headers open, and as what |
| PacketFile.NothingElseOpens | src/core/audio/AudioPacketFile.c:120-153 | no other tag and no shorter file opens |
| PacketFile.Writer.Open | src/core/audio/AudioPacketFile.c:45-77 | only supported, complete descriptions are written, and only if the file can be created and takes the header |
| PacketFile.Writer.Write | src/core/audio/AudioPacketFile.c:79-94 | a packet of the file's codec with a non-empty payload is appended as far as the disk takes it, and succeeds if it takes all; anything else leaves the file alone |
| PacketFile.Reader.Open | src/core/audio/AudioPacketFile.c:106-160 | both header versions, and nothing else, open |
| PacketFile.Reader.Read | src/core/audio/AudioPacketFile.c:162-194 | the four outcomes of a read and the position after each |
| AdtsFile.StreamRoundTrip | src/core/audio/AudioDiagnosticCapture.cpp:101-123 | parsing the concatenated frames by their 13-bit lengths recovers rate, channel field and payload of every packet; the field means the packet's channels if and only if there are at most six |
| AdtsFile.HeaderFields | src/core/audio/AudioDiagnosticCapture.cpp:101-123 | the seven header bytes carry the length, sampling index and channel field |
| AdtsFile.HeaderIsTheStandards | src/core/audio/AudioDiagnosticCapture.cpp:101-123 | all 56 bits of the header, field by field |
| AdtsFile.RateIndices | src/core/audio/AudioDiagnosticCapture.cpp:89-99 | the index of each of the thirteen rates, and of no other |
| AdtsFile.HeaderPossibleIff | src/core/audio/AudioDiagnosticCapture.cpp:101-108 | a header exists exactly for those rates, one to seven channels and at most 8184 bytes |
| AdtsFile.BothFilesAgree | src/core/audio/AudioDiagnosticCapture.cpp:125-171 | after a complete session both files give back the same payloads |
| AdtsFile.StoreAll | src/core/audio/AudioDiagnosticCapture.cpp:156-167 | records go into both files up to the first one that either refuses for its contents or for want of disk, and what that record leaves behind in each |
| AdtsFile.WriteEncodedFiles | src/core/audio/AudioDiagnosticCapture.cpp:125-171 | success exactly when both files open and close and no record is refused; read back, the files hold equally many packets if and only if no record is refused, or the first refused one is not taken by the packet file or too large for its reader |
| AdtsFile.FullDiskDivides | src/core/audio/AudioDiagnosticCapture.cpp:156-167 | an ordinary 300-byte packet, with a disk that takes its record and three bytes of its frame, leaves the packet file one packet ahead |
| AdtsFile.OverlongPacketDivides | src/core/audio/AudioDiagnosticCapture.cpp:101-123 | the limit of the header function: a payload of 8185 bytes would end up in the packet file alone |
| ScopeText.ScopesRoundTrip | src/onvif/OnvifServer.cpp:420-423 | for any model and hardware id the assembled string is cut into exactly three items, and the last two percent-decode to the originals |
| ScopeText.ScopesAreNamed | src/onvif/OnvifServer.cpp:420-423 | the literal URI of each scope: the model appears behind the name prefix, the hardware id behind the hardware prefix |
| ScopeText.NamesAcceptedIff | src/onvif/OnvifServer.cpp:36-42 | the two names pass the fixed fields if and only if neither is empty or has 96 bytes or more and together, with two more characters for every escape, they take at most 271 characters of the scope string |
| ScopeText.DecodeEncode | src/onvif/OnvifServer.cpp:54-73 | percent-decoding undoes the encoding for any bytes |
| ScopeText.EncodedByte | src/onvif/OnvifServer.cpp:54-73 | letters, digits and the four marks stand for themselves, any other byte is a percent sign and two capital hexadecimal digits of its value |
| ScopeText.CutJoin | src/onvif/OnvifSoapService.c:318-346 | cutting space-joined items gives the items back |
| ScopeText.EncodeScopeSegment | src/onvif/OnvifServer.cpp:54-73 | the loop computes that encoding |
| ScopeText.GetScopes | src/onvif/OnvifSoapService.c:318-346 | the filling pass fills the array of the counted size exactly, for every string |
| ScopeText.CountScopes | src/onvif/OnvifSoapService.c:318-330 | the counting pass counts the maximal runs without spaces |

## Left out

- ioctl, ALSA, libdrm, MPP, RGA, FDK-AAC, Opus, WebRTC, gSOAP, live555, EGL, Qt and FreeType are oracles or absent; codec output is opaque.
- Real threads, eventfd and condition variables: steps under one lock are atomic, external threads interleave between them, and no scheduling liveness is claimed. `RecoveryCanComplete` says a continuation exists, not that it is taken.
- Several cameras: the map is a set of independent slots, and one is modelled. Commands for an unknown camera behave like commands for a removed one.
- Deleting while no poll thread runs takes two locked sections in the source and one step here.
- 32-bit and 64-bit wrap-around of generations, counters and microsecond timestamps.
- The branch for an empty source pointer, lease-wait warnings, log output and last-error strings.
- FrameHub, the decoder's own thread and the sinks: whoever holds a frame may drop it at any time.
- A device closed by the last frame reference after the camera was removed: the destructor runs in another thread and is not modelled.
- Whether a later user command wins over an earlier one: an automatically posted StartCamera carries no generation, so this is not claimed.
- XRUN re-anchoring inside the contiguity theorem: a re-anchor below one millisecond is invisible to the gap detector. `CaptureClock` covers re-anchoring itself.
- The audio processing node, encoder flush and packet subscriptions.
- A second display setup in mid-run, reuse of a closed descriptor number, GEM handles and framebuffer ids, plane selection and mode setting. The cache key has no modifier, as in the code.
- Replacing the output pool when the decoded geometry changes; the pool and its frame layout are fixed for a run.
- The lifecycle of the playback device and decoder; `Ring.constructor` begins at an accepted start.
- Buffering in the C library: a byte the disk takes is in the file at once; reads do not fail; closing the packet file reports nothing, as in the code.
- Record padding bytes: the source leaves them unspecified, so they are arbitrary parameters.
- Video stride and plane layout, configuration defaults, name tables, getters and plain counters: only easy members.
- Qt display, RTSP and ONVIF networking, device discovery, diagnostic text files and demo mains.
