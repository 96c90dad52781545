# SoundVolumeControl: a verified model

SoundVolumeControl carries an output device's audio from a HAL driver through a shared ring into a helper that
plays it on the physical device at a software volume. A broker decides which ring a helper may map. This project
models that pipeline and that protocol in Dafny and proves what they promise.

The pieces, in the order the audio and the permissions travel:

- `SharedAudio`, `RingHistory`, `SlotInterleaving`: the 32768-frame tagged ring, the driver's captures into it, what
  it contains after any history, and what a load can return between the stores of a running writer.
- `Driver`, `DriverRace`: starting, stopping, mixing, and the zero time stamps of the virtual device; and starts, stops
  and mixes that interrupt one another.
- `Streaming`: from the host's mix calls through the ring to what a reader plays.
- `Reader`, `LogRefinement`, `Interpolation`, `Synchronization`, `ControlArithmetic`, `Controller`, `Stall`, `Recovery`,
  `Jitter`: the drift-correcting reader. A method filling an array is proved against a specification function; that
  function is shown to read an unbounded log of the stream, to play straight lines as straight lines, to keep its place
  exactly as long as it may, to stay locked to its target latency for ever, to reach it from wherever it stands, to ride
  out blocks that come early or late, and never to replay a stalled stream.
- `OverlappingReads`, `LiveRuns`, `ResetOverlap`: calls that run between the steps of the writer or of a reset, and whole
  runs of such calls.
- `Gaps`, `GapRuns`: streams whose captures leave gaps.
- `Gain`, `Remap`, `Forwarding`: the gain ramp, the spreading of channels over the output device's buffers, and the
  callback that joins reader and gain.
- `Lease`: reclamation of rings under any interleaving of render callbacks with the control queue.
- `Broker`, `Session`, `Authorisation`, `CurrentRing`, `Dismissal`: the broker, then the whole system of broker, writers
  and readers as message channels, and what holds over every run of it.
- `ReaderConnection`, `ReaderErrors`: the life of a reader's connection under every ordering of reply, error, timeout and
  close, and which error a failed one reports.
- `LineFraming`: how the application cuts the helper's output into lines and ignores a helper it has given up.
- `Policy`: the printer and the checker of the reader's code requirement.
- `Types`, `Products`: small shared values, and facts about products of reals.

Where the source changes state step by step the model has classes with methods over fields, arrays and loops, each
proved equal to a function of the old state; the theorems are about those functions and about runs of steps.

Some properties one might expect are false, and the exact conditions are proved: a tagged load is sound if and only if
its slot never leaves a frame and comes back to it (`LoadsAreSafeIff`); lease counting is safe for n simultaneous
callbacks if and only if n is below 2^32 (`SafeIffCountCannotWrap`); a ring that was granted is still the one its
writer fills, once that writer has handled the rotations sent to it, if and only if no further generation has begun
(`StillFilledIff`, with the run `HelloAgainStrandsReader` in which it is not); a mix leaves the stream active for as
long as the device runs if and only if no start has its reset and no stop its deactivation outstanding
(`StaysActiveIff`, with the run `OvertakenStopSilences`); the reader stays in its band whatever the
latency inside it if and only if the rates differ by at most half a percent (`BandIsKeptIff`); and the helper's target
covers four device buffers if and only if these have at most 2048 frames (`TargetCoversFourBuffers`). The reader's second
look at the epoch keeps a call from playing two streams if and only if the call does not load both the epoch and the
write frame between the reset's stores of these two, and the stream's start before the last tag is cleared
(`SafeIffOutsideWindow`, with the run `WindowMixesStreams` for each place in that window).

Assumptions: atomics are sequentially consistent; floating-point values are exact reals apart from a separate value for
infinities and NaN; 64-bit counters do not wrap. The 32-bit channel sums, the 32-bit running and lease counts, the
ring's 32-bit statistics and the 32-bit product behind the target latency are modelled with their wrap-around.

## Model

| member | source | states |
|---|---|---|
| SharedAudio.SharedAudio.Initialize | common/SharedAudio.h:62-82 | the mapping ends up valid, inactive, with every counter and the stream at zero and no frame loadable, whatever it held before |
| SharedAudio.SharedAudio.StoreFrame | common/SharedAudio.h:86-95 | three separate stores amount to putting the frame into its residue class and nothing else |
| SharedAudio.SharedAudio.LoadFrame | common/SharedAudio.h:97-106 | on a ring at rest a load succeeds exactly when the slot holds that frame |
| SharedAudio.SharedAudio.ResetStream | driver/SoundVolumeControl.c:94-108 | stops the stream of a valid ring, sets its epoch, its ends and its statistics, and leaves no frame loadable; leaves an invalid ring alone |
| SharedAudio.SharedAudio.CaptureOutput | driver/SoundVolumeControl.c:110-136 | rejects unusable mixes; otherwise stores the last 32768 frames at most, starts a stream when none was active, and publishes its end |
| SharedAudio.HeaderIsChecked | common/SharedAudio.h:51-59 | a mapping is used iff all of its header fields agree with a valid one and it has a sample rate; a new mapping with a rate is |
| SharedAudio.LastSampleTime | driver/SoundVolumeControl.c:113-117 | sample times are captured up to 2^53 - 1 and not at 2^53 |
| RingHistory.RingHoldsLastStores | driver/SoundVolumeControl.c:94-136 | after any resets, captures with gaps and oversize mixes, and stops, loading f gives s iff f with s was stored last in f's residue class since the last reset |
| RingHistory.OversizeCaptureKeepsLastLap | driver/SoundVolumeControl.c:117-122 | an oversize mix leaves exactly its last 32768 frames loadable |
| RingHistory.LoadBeforeBlock | common/SharedAudio.h:86-106 | a capture leaves every older frame loadable that is less than a lap behind its end |
| SlotInterleaving.LoadsAreSafeIff | common/SharedAudio.h:86-106 | over every interleaving of the three loads with the writer's stores, a successful load of f returns a word stored for f, if and only if the slot never leaves f and returns to it |
| SlotInterleaving.SafeWithoutReturn | common/SharedAudio.h:86-106 | under that condition the word is whole and the one stored for f |
| SlotInterleaving.ReturnDefeatsTheTags | common/SharedAudio.h:97-106 | three moments at which a returning slot yields another frame's word |
| SlotInterleaving.NonDecreasingNeverReturns | common/SharedAudio.h:86-106 | a writer that never goes back meets the condition for every frame |
| SlotInterleaving.ConcurrentLoadIsLogged | common/SharedAudio.h:86-106 | between the steps of a gap-free writer to the whole ring, a successful load of f returns the log's sample of f |
| SlotInterleaving.ConcurrentLoadSucceeds | common/SharedAudio.h:86-106 | a load of a frame published before it began, and not reached by the writer's next lap before it ends, succeeds |
| SlotInterleaving.StepsAreStoreAll | common/SharedAudio.h:86-95 | run without interruption, the atomic stores of a block are its capture |
| Reader.SharedAudioReader.constructor | forwarder/SharedAudioReader.c:16-29 | the initial state, with target 0 on an invalid ring |
| Reader.ClampTargetLatency | forwarder/SharedAudioReader.c:6-14 | the target is between 256 and a quarter lap and keeps a request in that range |
| Reader.ClampedTargetIsNearest | forwarder/SharedAudioReader.c:6-14 | the target is the one in [256, 8192] nearest to the request |
| Reader.Ratio | forwarder/SharedAudioReader.c:39-47 | the playback ratio stays within half a percent of 1 for every fill level |
| Reader.SharedAudioReader.Read | forwarder/SharedAudioReader.c:49-149 | every branch: state, return value and output buffer equal the outcome function, whose meaning the rows of `LogRefinement`, `Interpolation` and `Synchronization` state, and nothing beyond the requested frames is written |
| Reader.SharedAudioReader.RenderFrames | forwarder/SharedAudioReader.c:117-141 | the loop renders exactly up to the first failing load and stands start + count * ratio afterwards |
| LogRefinement.ReadRefinesLog | forwarder/SharedAudioReader.c:92-141 | on a gap-free ring a call has the outcome of the same call on the unbounded log; rendered frames interpolate it at published, retained positions, so no load fails |
| LogRefinement.CaptureExtendsLog | driver/SoundVolumeControl.c:110-136 | a contiguous capture of any length, oversize ones included, keeps the ring a window on the longer log |
| LogRefinement.FirstCaptureStartsLog | driver/SoundVolumeControl.c:117-126 | the first capture after a reset or stop begins a log with the frames it does not skip, at the first of them |
| LogRefinement.ReadPlays | forwarder/SharedAudioReader.c:117-148 | what a rendered call supplies: the log at the reader's position and the steps after it |
| Interpolation.LinesStayLines | forwarder/SharedAudioReader.c:117-141 | whatever call plays a stream that rises by fixed amounts per frame, each frame played is the value of that line at the position it was taken from, in both channels |
| Interpolation.PlayedIsBetween | forwarder/SharedAudioReader.c:132-139 | every frame played lies, channel by channel, between the two frames of the stream around its position |
| Interpolation.ReadFollowsLine | forwarder/SharedAudioReader.c:92-141 | the same for a call on the ring of a gap-free stream |
| Synchronization.RenderedMeansUsable | forwarder/SharedAudioReader.c:52-148 | a call that renders has seen a valid ring, the writer active and one epoch before and after its frames; it leaves the reader synchronised to it and counts a resynchronisation iff it was not |
| Synchronization.AllOrZeros | forwarder/SharedAudioReader.c:31-37 | a call renders everything it was asked for or puts out zeros |
| Synchronization.ChangeSilences | forwarder/SharedAudioReader.c:142-147 | a call during which the writer stops or a new stream begins is silent and gives up the place it would have reached |
| Synchronization.NewEpochIsFollowed | forwarder/SharedAudioReader.c:72-90 | a call that sees a new epoch joins the new stream a target behind its end, or is silent and has no place any more |
| Synchronization.StoppedWriterEndsPlace | forwarder/SharedAudioReader.c:58-64 | a call that finds the writer stopped is silent and gives up its place, and only that |
| Synchronization.IdleCallsChangeNothing | forwarder/SharedAudioReader.c:52-57 | a call without frames or on an invalid ring changes nothing |
| Synchronization.UnderrunKeepsPlace | forwarder/SharedAudioReader.c:100-115 | a call that would step over more than all but two of the available frames counts an underrun and moves nothing |
| Synchronization.EnoughRenders | forwarder/SharedAudioReader.c:107-148 | and one that would not renders, when its loads succeed |
| OverlappingReads.ConcurrentReadFollowsLog | forwarder/SharedAudioReader.c:117-148 | a call that overlaps a gap-free writer, with any header values, renders only interpolations of the log |
| OverlappingReads.ConcurrentReadPlaysLog | forwarder/SharedAudioReader.c:66-148 | while latency plus the frames stored meanwhile stay within a lap, such a call does what it would do on the log published at its header loads, so no load of it fails |
| OverlappingReads.RestOverlaps | common/SharedAudio.h:97-106 | a ring at rest is the case of an empty block, so what holds for overlapping calls covers calls at rest |
| OverlappingReads.OverlappedReadIsRead | forwarder/SharedAudioReader.c:66-148 | a call between the stores of the next gap-free block, whose held position that block does not reach, has the outcome of the same call before the block |
| LiveRuns.LiveStaysLocked | forwarder/SharedAudioReader.c:66-148 | over every run in which each call overlaps the capture of the next block, within half a percent, the reader stays locked and each further such call renders in full what the log holds |
| LiveRuns.LiveReachesTarget | forwarder/SharedAudioReader.c:66-148 | such calls at equal rates also bring a standing reader onto its target, within the same number of frames as calls on a ring at rest |
| ResetOverlap.OneStreamOnly | forwarder/SharedAudioReader.c:142-147 | a rendered call that overlaps a reset plays the stream its epoch load saw and no other, unless it loaded both the epoch and the write frame between the reset's stores of the two, and the stream's start before the last tag clear |
| ResetOverlap.WindowMixesStreams | driver/SoundVolumeControl.c:94-108 | for every moment in that window of the load of the stream's start, a run in which the call renders one frame of each stream |
| ResetOverlap.SafeIffOutsideWindow | driver/SoundVolumeControl.c:98-107 | for all moments of the loads of epoch, write frame and stream start, every rendered call plays one stream only iff they are not in that window |
| ResetOverlap.StepsAreReset | driver/SoundVolumeControl.c:94-108 | run without interruption, the atomic stores of a reset are the reset |
| Gaps.GapIsMissing | driver/SoundVolumeControl.c:110-136 | after a capture beyond the end of the stream no frame of the gap can be loaded, and a new log begins behind it |
| Gaps.ResetLeavesNothing | driver/SoundVolumeControl.c:94-108 | a reset leaves no frame loadable at or after the published end, which is where those captures start from |
| Gaps.CaptureLeavesNothing | driver/SoundVolumeControl.c:110-136 | captures that do not go back never leave a frame loadable at or after the published end |
| Gaps.NoGapFrameIsPlayed | forwarder/SharedAudioReader.c:117-141 | no position of a rendered call has either of its frames in a gap |
| Gaps.GapEndsSynchronization | forwarder/SharedAudioReader.c:123-129 | a call whose positions run into the gap is silent, counts one underrun and gives up synchronisation |
| Gaps.RendersBehindGap | forwarder/SharedAudioReader.c:92-141 | once the end is a target beyond the gap the next call renders the log behind it and leaves the reader locked |
| Gaps.LogBehindGapGrows | driver/SoundVolumeControl.c:110-136 | further contiguous captures extend that log and bring nothing into the gap |
| GapRuns.RenderedWasCaptured | forwarder/SharedAudioReader.c:117-141 | after any history of resets, captures and stops, each frame a call renders interpolates two samples captured, for its position, since the last reset |
| GapRuns.GapCostsLittle | forwarder/SharedAudioReader.c:84-141 | a gap of any length costs, over every run of gap-free blocks within half a percent of the reads, at most 1198 / 796 of the target latency in silence |
| GapRuns.LocksBehindGap | forwarder/SharedAudioReader.c:84-141 | with a target's worth of frames behind the gap, reading the distance to the gap and one call more leaves the reader locked behind it |
| Controller.SynchronizingLocks | forwarder/SharedAudioReader.c:92-99 | synchronisation puts the latency at exactly the target, inside the band |
| Controller.StaysLocked | forwarder/SharedAudioReader.c:82-141 | with reads of at most a quarter target and blocks within half a percent of them, every further read of every run renders in full and the latency stays in [T/2 - 1, 3T/2] with no underrun or resynchronisation |
| ControlArithmetic.AdvanceStaysInBand | forwarder/SharedAudioReader.c:100-105 | one cycle keeps the latency in the band when the rates differ by at most half a percent |
| ControlArithmetic.BandIsKeptIff | forwarder/SharedAudioReader.c:39-47 | and for every larger difference some latency in the band is driven out of it |
| ControlArithmetic.AdvanceApproachesTarget | forwarder/SharedAudioReader.c:100-105 | with equal rates each cycle removes at least 0.01 n / T of the distance or arrives, from any latency, where the correction is clamped too |
| ControlArithmetic.HoldingApproachesTarget | forwarder/SharedAudioReader.c:110-115 | a read that is skipped for lack of frames brings the latency nearer by its whole block, and not past the target |
| Recovery.ReachesTarget | forwarder/SharedAudioReader.c:82-141 | from any standing position, with reads that may be skipped on the way, an explicit number of frames after which the latency is in (T - 1, T], the ratio is exactly 1, the latency never changes again, and the reader is locked |
| Recovery.RecoversForGood | forwarder/SharedAudioReader.c:82-141 | so after a stall, enough cycles at equal rates make every later read of every run within half a percent render in full |
| Recovery.LappedReaderLocks | forwarder/SharedAudioReader.c:92-99 | a lapped reader gives up its position in one silent call and locks with the next |
| Jitter.ReachesBand | forwarder/SharedAudioReader.c:39-141 | from any standing position, blocks that keep a margin below half a percent of the reads bring the latency into the band within its distance divided by the margin, in frames, skipped reads included |
| Jitter.RidesOutJitter | forwarder/SharedAudioReader.c:82-141 | blocks of any sizes, early, late or missing, that stay within B frames of what has been read, B at most a third of the target, never silence a reader on its target, and the latency stays within 2 B + 0.00125 T + 1 of it |
| Stall.StallNeverReplays | forwarder/SharedAudioReader.c:106-141 | however a stopped stream is read, positions strictly increase, stay below the last published frame and are at most (W - 1 - r) / 0.995 many |
| Stall.ResumesAtHeldPosition | forwarder/SharedAudioReader.c:106-115 | a contiguous resume within retention continues at exactly the held position |
| Stall.SynchronizingStands | forwarder/SharedAudioReader.c:92-99 | a reader that joins or was lapped is in the state these results start from |
| Gain.ClampGain | forwarder/AudioProcessor.c:16-24 | the result is in [0, 1] and a gain already there is kept |
| Gain.ClampIsNearest | forwarder/AudioProcessor.c:16-24 | the result is the gain in [0, 1] nearest to the one given; a value that is no number is silence |
| Gain.RampFrames | forwarder/AudioProcessor.c:38-56 | the ramp length is a positive 32-bit count for every rate and duration |
| Gain.RampFillsDuration | forwarder/AudioProcessor.c:42-49 | the ramp is as many whole frames as fit into the duration asked for, when that is one at least and fits 32 bits, and otherwise one frame |
| Gain.RampNeedsDuration | forwarder/AudioProcessor.c:42-49 | without a usable rate or duration it is one frame |
| Gain.GainProcessor.GainForNextFrame | forwarder/AudioProcessor.c:117-132 | one step of the ramp in place |
| Gain.GainProcessor.SetTarget | forwarder/AudioProcessor.c:58-62 | only the target changes, clamped |
| Gain.NoClicks | forwarder/AudioProcessor.c:117-132 | over every run of frames and target changes the gain stays in [0, 1] and moves by at most 1 / length per frame |
| Gain.HeldTargetIsALine | forwarder/AudioProcessor.c:117-132 | a held new target is approached along a straight line, met exactly at frame `length`, and kept from then on |
| Gain.RampIsOver | forwarder/AudioProcessor.c:123-131 | the last frame of a ramp, and any later one, stands at the target whatever the gain was before |
| Gain.GainsOfARamp | forwarder/AudioProcessor.c:117-132 | frame k of a call, counted from 0, already has k + 1 steps of that line |
| Remap.MapInputChannels | forwarder/AudioProcessor.c:69-97 | the mapped channels are the first `capacity` of all usable channels in order |
| Remap.MappedInBounds | forwarder/AudioProcessor.c:69-97 | every sample index computed later lies inside its buffer |
| Remap.MaximumOutputFrames | forwarder/AudioProcessor.c:99-115 | the result bounds the frames of every usable buffer and is attained by one |
| Remap.Process | forwarder/AudioProcessor.c:134-193 | for any lists of interleaved or planar buffers the output arrays show the reference, and the ramp advances once per frame for all channels together |
| Remap.ReferenceByChannel | forwarder/AudioProcessor.c:154-191 | the output channel with a number, counted over all channels of the buffers before it and its own, unusable ones included, shows the input channel with that number as a 32-bit value times the frame's gain |
| Remap.GlobalChannelIsNumber | forwarder/AudioProcessor.c:153-177 | the running 32-bit sum plus the channel is that number, as far as 32 bits go |
| Remap.OutputShowsInput | forwarder/AudioProcessor.c:69-193 | from buffer lists to buffer lists: each output sample is the sample at the same channel number and frame of the input buffers times the gain, and silent past channel 64 or the input's whole frames |
| Remap.ChannelByNumber | forwarder/AudioProcessor.c:69-97 | input channel number g is that channel of that usable buffer |
| Remap.WholeFrames | forwarder/AudioProcessor.c:82-83 | the frame count of a buffer is the largest number of whole frames that fit |
| Remap.RestIsSilent | forwarder/AudioProcessor.c:144-152 | without input everything is silent, and so is whatever of a buffer is not a whole frame |
| Forwarding.Forwarder.ForwardIO | forwarder/main.m:427-467 | one callback: the reader's frames, silence included, are spread over the device buffers; on a gap-free stream, at rest or while its next block is being captured, every device sample is the log at the reader's position times the gain of its frame, and channels past the second are silent |
| Forwarding.DeviceFollowsLog | forwarder/main.m:437-465 | played frames that follow a log make every channel of the device, by its number, follow it: 0 the left side, 1 the right, all others silent, times the gain |
| Forwarding.TargetCoversFourBuffers | forwarder/main.m:753-766 | the target latency is at least four device buffers iff these have at most 2048 frames |
| Lease.AccessIsSafe | common/SecureAudioWriter.c:12-29 | in every interleaving a callback only touches a ring that is not deallocated and that the control queue has not found unused |
| Lease.EveryRingIsInOnePlace | common/SecureAudioWriter.c:20-29 | each ring allocated is current, with the control queue, waiting, or deallocated, exactly one of them, and deallocated at most once |
| Lease.LateAccessLoadedEarly | common/SecureAudioWriter.c:60-76 | a ring taken out by an exchange is touched later only by callbacks that loaded it before that exchange and still hold it |
| Lease.ReplacedForGood | common/SecureAudioWriter.c:71-76 | a replaced ring never becomes current again |
| Lease.FreedForGood | common/SecureAudioWriter.c:22-24 | a deallocated ring was left inactive for the readers that still map it |
| Lease.QueueDrains | common/SecureAudioWriter.c:20-29 | once the callbacks are gone, every waiting ring can be deallocated |
| Lease.SafeIffCountCannotWrap | common/SecureAudioWriter.c:8-16 | the scheme is safe with n callbacks at a time iff n is below 2^32 |
| Lease.WrapAround | common/SecureAudioWriter.c:12-24 | the run in which the wrapped count frees a ring in use |
| Lease.ActivityChangesExactly | common/SecureAudioWriter.c:20-29 | a ring becomes active or inactive by a callback that holds it, inactive when it is retired, and in no other way |
| Lease.Writer.Acquire | common/SecureAudioWriter.c:12-15 | without interleaving, exactly the steps fetch-add and load |
| Lease.Writer.Retire | common/SecureAudioWriter.c:20-29 | without interleaving, the steps read, and then deactivate and deallocate or queue again |
| Lease.Writer.Rotate | common/SecureAudioWriter.c:71-76 | without interleaving, allocation, exchange and retirement of the old ring |
| Broker.Broker.Received | broker/main.c:121-160 | every message of every peer: new state and messages sent equal the handler function, the broker invariant is kept, and a repeated hello keeps the pending open while no earlier publication answers it any more |
| Broker.Broker.OpenSession | broker/main.c:140-156 | an open is accepted iff its user is at the console, neither root nor nobody, and no reader is set |
| Broker.Broker.Failed | broker/main.c:99-111 | a failing peer is forgotten as reader and as writer |
| Broker.Broker.SessionChanged | broker/main.c:57-61 | a session change drops the reader and rotates even when the user is the same |
| Broker.MessageProgresses | broker/main.c:121-160 | a message keeps reader and session together, never lowers the generation, announces only new generations, and repeats the announcement a pending grant waits for |
| Broker.GrantCondition | broker/main.c:127-139 | a grant goes out iff the writer answers the current generation with memory while a grant is pending and the reader's user is at the console |
| Broker.MessageCancels | broker/main.c:112-160 | a message cancels a connection iff that was the reader and loses its place, or sent the message and had no business to; the reader loses its place to a message iff the writer answers its open for a user who left the console or without memory; and the writer is told to capture iff a reader is left |
| Broker.EndsCancel | broker/main.c:46-61 | a failing reader, a failing writer and a change of session each let the reader go and cancel it, and nobody else |
| Dismissal.EndsExactlyWhen | broker/main.c:99-160 | in every step a connection ends iff it is closed by its own side, loses its place as the reader, or sent a message it had no business to send |
| Dismissal.FormerReaderHasEnded | broker/main.c:46-55 | over every run, a connection that has been the reader and no longer is has ended |
| Session.StepKeepsInv | broker/main.c:35-160 | the invariant of broker, channels, rings and grants survives every step of broker, writers, readers and console |
| Authorisation.GrantsAreFresh | broker/main.c:127-156 | over every run each grant was for the console user, neither root nor nobody, of a ring allocated after the receiving reader's open was accepted |
| Authorisation.GrantedOnce | broker/main.c:35-44 | no ring is granted twice, no accepted open gets two grants, and generations strictly increase from grant to grant |
| Authorisation.RotationIsGranted | broker/main.c:127-139 | when the rotation a pending open waits for reaches a writer with memory, the reader is granted the ring allocated for it, which is the one the writer then fills |
| Authorisation.LoadedFramesAreNew | common/SharedAudio.h:62-82 | any frame a reader can ever load from its ring was captured after its own open had been accepted |
| Authorisation.NoLostWakeUp | broker/main.c:104-156 | while a grant is pending and a writer connected, the current generation is in flight to the writer as an enabled rotation or back as a publication, or the writer's end is about to be delivered |
| Authorisation.DeadReaderIsNoticed | broker/main.c:99-110 | a reader whose connection has ended is still about to be dropped, so its place becomes free |
| Authorisation.EveryOpenIsAnswered | broker/main.c:35-44 | carrying the messages between broker and writer in any order ends after a bounded number of steps, with no open waiting |
| Authorisation.OnlyForward | broker/main.c:35-36 | generations never decrease along a run and grants are never taken back |
| CurrentRing.StillFilledIff | common/SecureAudioWriter.c:71-76 | a granted ring is still its open writer's current one iff the last rotation that writer has handled is the grant's; when it has handled all of them, iff no further generation has begun |
| CurrentRing.EndedSessionIsCutOff | broker/main.c:46-61 | once a reader's session is over the generation has moved past its grant, and a writer that has handled its rotations no longer fills its ring |
| CurrentRing.HelloAgainStrandsReader | broker/main.c:122-128 | the run in which a repeated hello leaves the reader with a ring nobody fills |
| CurrentRing.StepKeepsCurrent | broker/main.c:35-44 | the rotations a writer has not handled lead in order from the generation its ring was made for to the current one |
| ReaderConnection.NoUseAfterRelease | common/SecureAudioReader.c:15-21 | in every interleaving whoever can touch the object holds a reference to it |
| ReaderConnection.ReleasedOnce | common/SecureAudioReader.c:15-21 | object and mapping are released at most once, only after finalizer and reply handler, and then certainly |
| ReaderConnection.OpenMeansMapped | common/SecureAudioReader.c:65-103 | a connection returned as open has a mapped valid ring until it is closed |
| ReaderConnection.FailureHasItsError | common/SecureAudioReader.c:94-101 | a failed activated open reports a non-zero error: the timeout's, or the first failure's |
| ReaderErrors.FirstFailureNamesError | common/SecureAudioReader.c:55-88 | over every run, a failed open that did not time out reports the error of the first failure to arrive: EBUSY iff it was a refusal because of another reader, EACCES iff another refusal or a signature, ECONNRESET iff a broken connection, EPROTO iff a useless reply or memory that does not map |
| ReaderErrors.TimeoutIsReported | common/SecureAudioReader.c:92-99 | a failed open whose time ran out reports ETIMEDOUT, whatever else has arrived |
| ReaderErrors.AbortNamesError | common/SecureAudioReader.c:42-54 | an open given up before that reports ECONNREFUSED for want of a connection, EACCES for want of its requirement |
| ReaderErrors.GrantOpens | common/SecureAudioReader.c:79-101 | a living connection that gets a grant of a valid ring is open with that ring after the handler and one signal |
| ReaderConnection.FirstErrorStays | common/SecureAudioReader.c:22-27 | a stored error is never replaced |
| ReaderConnection.SVCReaderConnection.HandleReply | common/SecureAudioReader.c:65-90 | every kind of reply, run without interruption |
| ReaderConnection.ReplyStepsAreTheHandler | common/SecureAudioReader.c:65-90 | the atomic steps of the reply handler, uninterrupted, are the handler |
| ReaderConnection.EventStepsAreTheHandler | common/SecureAudioReader.c:58-62 | the same for the event handler |
| ReaderErrors.ClosedIsDead | common/SecureAudioReader.c:105-112 | over every run, a connection that has been closed is closed and dead for good |
| LineFraming.AppDelegate.ConsumeForwarderData | app/main.m:760-790 | the loop handles the complete lines of buffer and chunk up to the first that stops the helper, keeps the rest, or clears it after a stop |
| LineFraming.SplitIsFaithful | app/main.m:764-779 | lines and rest together are the stream, and contain no newline |
| LineFraming.ChunksDoNotMatter | app/main.m:760-790 | any chunking of a launch's output handles the newline split of the whole, up to and including the first line that stops the helper |
| LineFraming.FramingFollowsReference | app/main.m:692-706 | over every run of launches, stops and chunks, late ones included, each launch contributes exactly the lines of the output it delivered while current |
| Driver.StampIsRecent | driver/SoundVolumeControl.c:1428-1434 | the host time is never in the future and less than a period and a tick old; sample times are multiples of 16384 |
| Driver.StampsAreMonotone | driver/SoundVolumeControl.c:1428-1434 | successive stamps never go back, and equal sample times have equal host times |
| Driver.StampIsTheClock | driver/SoundVolumeControl.c:1428-1434 | the sample time is 16384 for each whole period since the anchor, no more and no fewer, and the host time is when that period began, to the tick |
| Driver.Driver.GetZeroTimeStamp | driver/SoundVolumeControl.c:1413-1437 | the error cases, and otherwise the stamp for the present |
| Driver.Driver.Start | driver/SoundVolumeControl.c:1360-1379 | only the first start moves the anchor and resets the stream |
| Driver.Driver.Stop | driver/SoundVolumeControl.c:1381-1411 | only the last stop deactivates the stream; a stop with nothing running is refused |
| Driver.Driver.DoIOOperation | driver/SoundVolumeControl.c:1476-1524 | the mix stage captures, the per-client stage only counts, everything else is refused without effect |
| Driver.StatusMeans | driver/SoundVolumeControl.c:1360-1524 | what each status means, for every call, and that a refused call has no effect |
| Driver.FirstStartAnchors | driver/SoundVolumeControl.c:1367-1377 | a first start and nothing else moves the anchor, and the clock then stands at sample time zero, now |
| Driver.StatisticsCount | driver/SoundVolumeControl.c:1501-1521 | between two starts the 32-bit statistics count the calls of each stage, also on an invalid ring |
| Driver.StartsKeepOrClearStatistics | driver/SoundVolumeControl.c:102-103 | a first start clears the statistics of a valid ring, a further one keeps them |
| Driver.CallsMakeHistory | driver/SoundVolumeControl.c:1360-1411 | any calls of any clients leave the ring of the history of resets, captures and deactivations they stand for |
| Driver.CountIsBalance | driver/SoundVolumeControl.c:1368-1393 | below 2^32 clients the count is the number running, and a stop is refused iff it is zero |
| DriverRace.CallIsItsSteps | driver/SoundVolumeControl.c:1360-1411 | a start, stop or mix that nothing interrupts is a run of its atomic steps with the outcome of the whole call |
| DriverRace.StaysActiveIff | driver/SoundVolumeControl.c:1389-1399 | a mix captured while the device runs leaves the stream active in every interleaving in which the device keeps running iff no reset of a start and no deactivation of a stop is outstanding |
| DriverRace.SilencedByLateStore | driver/SoundVolumeControl.c:1389-1399 | until the next mix an active stream is silenced exactly by the late store of a first start or a last stop |
| DriverRace.RunHasSessions | driver/SoundVolumeControl.c:1367-1399 | from rest, resets outstanding are at most the sessions begun and deactivations outstanding at most the sessions ended, of which a running device has begun exactly one more |
| DriverRace.OvertakenStopSilences | driver/SoundVolumeControl.c:1381-1411 | the run in which a last stop overtaken by a new start and mix leaves a running device's stream inactive, until the next mix, which lasts for as long as the device then runs |
| Streaming.MixesBackLog | driver/SoundVolumeControl.c:110-136 | once no stream is active, gap-free mixes of any lengths make the ring a window on everything mixed since, without the frames skipped of an oversize first mix, whatever it held before |
| Streaming.ReaderPlaysMixes | forwarder/SharedAudioReader.c:92-141 | after a first start a rendered call is an interpolation of exactly what the host has mixed |
| Streaming.ReaderPlaysAfterRotation | common/SecureAudioWriter.c:71-76 | the same on a ring brought by a rotation while any number of clients run, with no start in between |
| Policy.RequirementParts | tools/signing-policy.c:19-22 | the requirement is the text `cdhash H"` with the forty digits of the hash and a closing quote, 50 characters in all |
| Policy.PrintRequirement | tools/signing-policy.c:19-22 | the buffer holds the requirement of the hash in 50 characters and a final zero |
| Policy.HexAt | tools/signing-policy.c:21 | each byte is printed as its two half bytes in lower-case digits, the higher one first |
| Policy.ReadPolicy | broker/main.c:63-86 | a policy is returned iff the file is trusted and its content well formed, and then it is the content |
| Policy.TrustMeans | broker/main.c:63-77 | a file is trusted iff it is a regular file of the owner's that neither its group nor others may write, of 1 to 255 characters, all read |
| Policy.AcceptsExactlyThePrinted | broker/main.c:78-85 | the content check accepts exactly the strings printed for some 20-byte hash, which can be read back |
| Policy.PolicyIdentifiesBuild | tools/signing-policy.c:19-22 | distinct hashes print distinct requirements |

## Left out

- XPC, code signing, Mach memory, launchd and SystemConfiguration: connections, channels, ring identities and the console user stand for them.
- Weak memory, floating-point rounding and 64-bit wrap-around: assumed away as stated above.
- The volume curve of `common/VolumeCurve.h`: gains are arbitrary values handed to `SetTarget`.
- The driver's property tables, device discovery, argument parsing, preferences, menus and alerts: finite case analyses and interface code.
- Delays of a millisecond and a second: a delayed block may run at any later step.
- Broker restart: a writer's hello after an interrupted connection starts a new broker lifetime, and generations count within one.
- `test-revoke` and the other test-only branches of the sources: not compiled into the product.
- Remap.Process: input buffers are values, because the source takes them as const; an input that overlaps the output is not modelled.
- Controller.StaysLocked, Recovery.ReachesTarget, Jitter.RidesOutJitter, GapRuns.GapCostsLittle, Streaming.MixesBackLog: captures stop at sample time 2^53, where the driver drops them, so runs stay below it.
- Reader.SharedAudioReader.Read: a reader initialised on an invalid ring has target 0; its use on a ring that has become valid is outside the precondition.
- ResetOverlap.SafeIffOutsideWindow: one reset overlaps the call; several resets within one call are not modelled.
- Driver.Driver.Start: each call runs to its end; `DriverRace` interleaves starts, stops and mixes on one valid ring, in the running count and the stream's activity alone.
- DriverRace.StaysActiveIff: a rotation between a stop's look at the current ring and its store is not modelled.
- LiveRuns.LiveReachesTarget: the position held must have a target's worth of room behind it, so that no capture laps the reader during a call.
- Lease.Writer: only how each function is made of atomic steps; the safety results are about their interleavings.
- LineFraming.AppDelegate.ConsumeForwarderLine: what a line means to the application is a parameter; text decoding and trimming do not change which bytes form a line.
- ReaderConnection.SVCReaderConnection.Close: the steps of the opening thread are modelled one by one, the waiting time is not.
