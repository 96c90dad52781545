/**
 The output callback of forwarder/main.m: the reader fills a stereo scratch buffer, which the gain processor
 then spreads over the output device's buffers.
 */
module Forwarding {
  import opened Types
  import opened SharedAudio
  import opened Reader
  import opened LogRefinement
  import opened OverlappingReads
  import opened Gain
  import opened Remap

  const CHANNELS: nat := 2

  /** Interleaved samples of stereo frames. */
  function Flat(frames: seq<Stereo>): (samples: seq<real>)
    ensures |samples| == CHANNELS * |frames|
  {
    if frames == [] then []
    else
      var last := frames[|frames| - 1];
      Flat(frames[..|frames| - 1]) + [last.left, last.right]
  }

  /** The two channels of an interleaved stereo buffer. */
  function Sides(samples: seq<real>, frameCount: nat): (channels: seq<InputChannel>)
    requires |samples| == CHANNELS * frameCount
    ensures AllInBounds(channels)
  {
    [InputChannel(samples, CHANNELS, 0, frameCount), InputChannel(samples, CHANNELS, 1, frameCount)]
  }

  /** What the gain processor gets. */
  function StereoChannels(frames: seq<Stereo>): (channels: seq<InputChannel>)
    ensures AllInBounds(channels)
  {
    Sides(Flat(frames), |frames|)
  }

  function ScratchList(samples: seq<real>): seq<InputBuffer>
    requires SAMPLE_BYTES * |samples| < UINT32_RANGE
  {
    [InputBuffer(CHANNELS, SAMPLE_BYTES * |samples|, Some(samples))]
  }

  lemma {:induction false} FlatAt(frames: seq<Stereo>, j: nat)
    requires j < |frames|
    ensures Flat(frames)[2 * j] == frames[j].left && Flat(frames)[2 * j + 1] == frames[j].right
    decreases |frames|
  {
    if j < |frames| - 1 {
      FlatAt(frames[..|frames| - 1], j);
    }
  }

  lemma {:induction false} FlatIsUnique(samples: seq<real>, frames: seq<Stereo>)
    requires |samples| == CHANNELS * |frames| && Interleaved(samples, frames)
    ensures samples == Flat(frames)
    decreases |frames|
  {
    if frames != [] {
      var n := |frames| - 1;
      var last := frames[n];
      FlatIsUnique(samples[..2 * n], frames[..n]);
      assert samples == samples[..2 * n] + [last.left, last.right];
    }
  }

  lemma {:induction false} ScratchIsMapped(samples: seq<real>, frameCount: nat)
    requires |samples| == CHANNELS * frameCount && frameCount <= CAPACITY
    ensures Mapped(Some(ScratchList(samples))) == Sides(samples, frameCount)
  {
    var list := ScratchList(samples);
    assert list[..0] == [];
    assert FrameCount(list[0].byteSize, CHANNELS) == frameCount;
    var channels := ChannelsUpTo(list[0], CHANNELS);
    assert AllChannels(list) == AllChannels([]) + channels;
    assert channels == Sides(samples, frameCount);
  }

  class Forwarder {
    const sharedAudioReader: SharedAudioReader
    const gainProcessor: GainProcessor
    const stereoScratch: array<real>
    var callbackCount: nat
    var forwardedFrameCount: nat

    ghost predicate Valid()
      reads this
    {
      stereoScratch.Length == CHANNELS * CAPACITY
    }

    constructor (reader: SharedAudioReader, gain: GainProcessor)
      ensures Valid() && sharedAudioReader == reader && gainProcessor == gain && fresh(stereoScratch)
      ensures callbackCount == 0 && forwardedFrameCount == 0
    {
      sharedAudioReader, gainProcessor := reader, gain;
      stereoScratch := new real[CHANNELS * CAPACITY];
      callbackCount, forwardedFrameCount := 0, 0;
    }

    /**
     The reader is asked for one frame per output frame, up to the scratch capacity; its frames, silence
     included, are what the gain processor plays. When the call has read the ring of a gap-free stream, at rest or
     while the driver captured the next block, the device's buffers hold the log of that stream times the gain.
     */
    method ForwardIO(view: View, output: seq<AudioBuffer>, ghost ring: Ring, ghost log: seq<Stereo>,
                     ghost block: seq<Stereo>)
      requires Valid() && sharedAudioReader.readFrame >= 0.0
      requires view.valid ==> sharedAudioReader.targetLatencyFrames > 0
      requires (forall i | 0 <= i < |output| :: WellSized(output[i])) && Separate(output)
      requires stereoScratch !in Arrays(output)
      modifies this, sharedAudioReader, gainProcessor, stereoScratch, Arrays(output)
      ensures var frames := MostFrames(output);
              var outcome := ReadOutcome(old(sharedAudioReader.State()), view, Min(frames, CAPACITY));
              && sharedAudioReader.State() == outcome.state
              && forwardedFrameCount == old(forwardedFrameCount) + outcome.rendered
              && gainProcessor.Value() == AfterFrames(old(gainProcessor.Value()), frames)
              && Contains(output,
                          References(StereoChannels(outcome.frames), old(gainProcessor.Value()), output, frames))
      ensures var state := old(sharedAudioReader.State());
              var outcome := ReadOutcome(state, view, Min(MostFrames(output), CAPACITY));
              ReadsDuring(state, view, ring, log, block) && outcome.rendered > 0 ==>
                && ring.streamStart + state.targetLatencyFrames <= ring.writeFrame
                && DevicePlays(output, Resynchronized(state, view), ring, log, old(gainProcessor.Value()))
      ensures callbackCount == old(callbackCount) + 1
    {
      ghost var state, ramp := sharedAudioReader.State(), gainProcessor.Value();
      callbackCount := callbackCount + 1;
      ForwardFrames(view, output);
      DeviceFollowsStream(output, state, view, ring, log, block, ramp);
    }

    /** The callback without its diagnostics: reading, then spreading. */
    method ForwardFrames(view: View, output: seq<AudioBuffer>)
      requires Valid() && sharedAudioReader.readFrame >= 0.0
      requires view.valid ==> sharedAudioReader.targetLatencyFrames > 0
      requires (forall i | 0 <= i < |output| :: WellSized(output[i])) && Separate(output)
      requires stereoScratch !in Arrays(output)
      modifies this`forwardedFrameCount, sharedAudioReader, gainProcessor, stereoScratch, Arrays(output)
      ensures var frames := MostFrames(output);
              var outcome := ReadOutcome(old(sharedAudioReader.State()), view, Min(frames, CAPACITY));
              && sharedAudioReader.State() == outcome.state
              && forwardedFrameCount == old(forwardedFrameCount) + outcome.rendered
              && gainProcessor.Value() == AfterFrames(old(gainProcessor.Value()), frames)
              && Contains(output,
                          References(StereoChannels(outcome.frames), old(gainProcessor.Value()), output, frames))
    {
      var frames := MaximumOutputFrames(output);
      if frames > CAPACITY {
        frames := CAPACITY;
      }
      var rendered := ReadAndSpread(view, frames, output);
      forwardedFrameCount := forwardedFrameCount + rendered;
    }

    method ReadAndSpread(view: View, frames: nat, output: seq<AudioBuffer>) returns (rendered: nat)
      requires Valid() && sharedAudioReader.readFrame >= 0.0 && frames <= CAPACITY
      requires view.valid ==> sharedAudioReader.targetLatencyFrames > 0
      requires (forall i | 0 <= i < |output| :: WellSized(output[i])) && Separate(output)
      requires stereoScratch !in Arrays(output)
      modifies sharedAudioReader, gainProcessor, stereoScratch, Arrays(output)
      ensures var outcome := ReadOutcome(old(sharedAudioReader.State()), view, frames);
              && sharedAudioReader.State() == outcome.state && rendered == outcome.rendered
              && gainProcessor.Value() == AfterFrames(old(gainProcessor.Value()), MostFrames(output))
              && Contains(output, References(StereoChannels(outcome.frames), old(gainProcessor.Value()), output,
                                             MostFrames(output)))
    {
      ghost var outcome := ReadOutcome(sharedAudioReader.State(), view, frames);
      var samples;
      rendered, samples := FillScratch(view, frames);
      Spread(samples, outcome.frames, output);
    }

    /** The gain processor's call. */
    method Spread(samples: seq<real>, ghost frames: seq<Stereo>, output: seq<AudioBuffer>)
      requires SAMPLE_BYTES * |samples| < UINT32_RANGE
      requires Mapped(Some(ScratchList(samples))) == StereoChannels(frames)
      requires (forall i | 0 <= i < |output| :: WellSized(output[i])) && Separate(output)
      modifies gainProcessor, Arrays(output)
      ensures gainProcessor.Value() == AfterFrames(old(gainProcessor.Value()), MostFrames(output))
      ensures Contains(output,
                       References(StereoChannels(frames), old(gainProcessor.Value()), output, MostFrames(output)))
    {
      var processed := Process(gainProcessor, Some(ScratchList(samples)), output);
    }

    /** The reader's call, and the samples it leaves. */
    method FillScratch(view: View, frames: nat) returns (rendered: nat, samples: seq<real>)
      requires Valid() && sharedAudioReader.readFrame >= 0.0 && frames <= CAPACITY
      requires view.valid ==> sharedAudioReader.targetLatencyFrames > 0
      modifies sharedAudioReader, stereoScratch
      ensures var outcome := ReadOutcome(old(sharedAudioReader.State()), view, frames);
              && sharedAudioReader.State() == outcome.state && rendered == outcome.rendered
              && samples == Flat(outcome.frames) && |samples| == CHANNELS * frames
              && Mapped(Some(ScratchList(samples))) == StereoChannels(outcome.frames)
    {
      ghost var outcome := ReadOutcome(sharedAudioReader.State(), view, frames);
      rendered := sharedAudioReader.Read(view, stereoScratch, frames);
      samples := stereoScratch[..CHANNELS * frames];
      FlatIsUnique(samples, outcome.frames);
      ScratchIsMapped(samples, frames);
    }
  }

  /** The stereo sample a global output channel plays. */
  function SideOf(frames: seq<Stereo>, globalChannel: nat, frame: nat): real {
    if frame >= |frames| then 0.0
    else if globalChannel == 0 then frames[frame].left
    else if globalChannel == 1 then frames[frame].right
    else 0.0
  }

  /** The first two channels of the output carry left and right, all others are silent. */
  lemma {:induction false} StereoSource(frames: seq<Stereo>, globalChannel: nat, frame: nat)
    ensures SourceSample(StereoChannels(frames), globalChannel, frame) == SideOf(frames, globalChannel, frame)
  {
    if frame < |frames| {
      FlatAt(frames, frame);
    }
  }

  /** What a device buffer holds at one frame and channel. */
  ghost predicate Plays(contents: seq<real>, channels: nat, frame: nat, channel: nat, sample: real, gain: real) {
    var k := frame * channels + channel;
    0 <= k < |contents| && contents[k] == sample * gain
  }

  lemma {:induction false} ForwardedSample(frames: seq<Stereo>, ramp: Ramp, output: seq<AudioBuffer>,
                                           contents: seq<seq<real>>, number: nat, place: Place, g: nat, frame: nat)
    requires IsReference(contents, StereoChannels(frames), ramp, output, MostFrames(output))
    requires Numbers(output, number, place) && g == number % UINT32_RANGE && Usable(output[place.buffer])
    requires frame < FrameCount(output[place.buffer].byteSize, output[place.buffer].channels)
    ensures Plays(contents[place.buffer], output[place.buffer].channels, frame, place.channel,
                  SideOf(frames, g, frame), GainOfFrame(ramp, frame))
  {
    ReferenceByChannel(StereoChannels(frames), ramp, output, contents, number, place, g, frame);
    StereoSource(frames, g, frame);
  }

  /** The log of the stream, seen from one output channel. */
  function LogSide(start: nat, log: seq<Stereo>, p: real, globalChannel: nat): real
    requires start as real <= p && p.Floor + 1 < start + |log|
  {
    if globalChannel == 0 then LogAt(start, log, p).left
    else if globalChannel == 1 then LogAt(start, log, p).right
    else 0.0
  }

  /** One sample of the device: the log where the reader stands after `frame` steps, times that frame's gain. */
  ghost predicate SamplePlays(contents: seq<real>, channels: nat, number: nat, frame: nat, channel: nat,
                              ready: ReaderState, ring: Ring, log: seq<Stereo>, ramp: Ramp)
    requires ready.targetLatencyFrames > 0
  {
    var ratio := Ratio(Max(0, ring.writeFrame - ready.readFrame.Floor), ready.targetLatencyFrames);
    var p := PositionAfter(ready.readFrame, ratio, frame);
    && ring.streamStart as real <= p && p.Floor + 1 < ring.streamStart + |log|
    && Plays(contents, channels, frame, channel,
             LogSide(ring.streamStart, log, p, number % UINT32_RANGE), GainOfFrame(ramp, frame))
  }

  /** All frames of the channel with a number, up to the scratch capacity. */
  ghost predicate ChannelPlays(contents: seq<real>, buffer: AudioBuffer, channel: nat, number: nat,
                               ready: ReaderState, ring: Ring, log: seq<Stereo>, ramp: Ramp)
    requires ready.targetLatencyFrames > 0 && buffer.channels > 0
  {
    forall frame: nat | frame < FrameCount(buffer.byteSize, buffer.channels) && frame < CAPACITY ::
      SamplePlays(contents, buffer.channels, number, frame, channel, ready, ring, log, ramp)
  }

  /** All channels of the device's buffers, by number: 0 is left, 1 is right, all others are silent. */
  ghost predicate DevicePlays(output: seq<AudioBuffer>, ready: ReaderState, ring: Ring, log: seq<Stereo>, ramp: Ramp)
    reads Arrays(output)
    requires ready.targetLatencyFrames > 0
  {
    forall number, place | 0 <= number && Numbers(output, number, place) && Usable(output[place.buffer]) ::
      ChannelPlays(output[place.buffer].data[..], output[place.buffer], place.channel, number, ready, ring, log, ramp)
  }

  lemma {:induction false} ChannelFollowsLog(output: seq<AudioBuffer>, number: nat, place: Place, ready: ReaderState,
                                             ring: Ring, log: seq<Stereo>, frames: seq<Stereo>, ramp: Ramp,
                                             contents: seq<seq<real>>)
    requires ready.targetLatencyFrames > 0 && PlayedFrom(ready, ring.writeFrame, ring.streamStart, log, frames)
    requires |frames| == Min(MostFrames(output), CAPACITY)
    requires Numbers(output, number, place) && Usable(output[place.buffer])
    requires IsReference(contents, StereoChannels(frames), ramp, output, MostFrames(output))
    ensures ChannelPlays(contents[place.buffer], output[place.buffer], place.channel, number, ready, ring, log, ramp)
  {
    var buffer := output[place.buffer];
    MostFramesBounds(output, place.buffer);
    forall frame: nat | frame < FrameCount(buffer.byteSize, buffer.channels) && frame < CAPACITY
      ensures SamplePlays(contents[place.buffer], buffer.channels, number, frame, place.channel, ready, ring, log, ramp)
    {
      CallbackPlaysLog(ready, ring, log, frames, ramp, output, contents, number, place, frame);
    }
  }

  lemma {:induction false} DeviceFollowsLog(output: seq<AudioBuffer>, ready: ReaderState, ring: Ring,
                                            log: seq<Stereo>, frames: seq<Stereo>, ramp: Ramp)
    requires ready.targetLatencyFrames > 0 && PlayedFrom(ready, ring.writeFrame, ring.streamStart, log, frames)
    requires |frames| == Min(MostFrames(output), CAPACITY)
    requires Contains(output, References(StereoChannels(frames), ramp, output, MostFrames(output)))
    ensures DevicePlays(output, ready, ring, log, ramp)
  {
    var contents := References(StereoChannels(frames), ramp, output, MostFrames(output));
    ReferencesAre(StereoChannels(frames), ramp, output, MostFrames(output));
    forall number, place | 0 <= number && Numbers(output, number, place) && Usable(output[place.buffer])
      ensures ChannelPlays(output[place.buffer].data[..], output[place.buffer], place.channel, number, ready, ring,
                           log, ramp)
    {
      assert output[place.buffer].data[..] == contents[place.buffer];
      ChannelFollowsLog(output, number, place, ready, ring, log, frames, ramp, contents);
    }
  }

  lemma {:induction false} DeviceFollowsStream(output: seq<AudioBuffer>, state: ReaderState, view: View, ring: Ring,
                                               log: seq<Stereo>, block: seq<Stereo>, ramp: Ramp)
    requires state.readFrame >= 0.0 && (view.valid ==> state.targetLatencyFrames > 0)
    requires var frames := ReadOutcome(state, view, Min(MostFrames(output), CAPACITY)).frames;
             Contains(output, References(StereoChannels(frames), ramp, output, MostFrames(output)))
    ensures ReadsDuring(state, view, ring, log, block)
            && ReadOutcome(state, view, Min(MostFrames(output), CAPACITY)).rendered > 0 ==>
              && ring.streamStart + state.targetLatencyFrames <= ring.writeFrame
              && DevicePlays(output, Resynchronized(state, view), ring, log, ramp)
  {
    var n := Min(MostFrames(output), CAPACITY);
    if ReadsDuring(state, view, ring, log, block) && ReadOutcome(state, view, n).rendered > 0 {
      OverlappedReadIsRead(state, view, ring, log, block, n);
      ReadPlays(state, ring, log, n);
      DeviceFollowsLog(output, Resynchronized(state, view), ring, log, ReadOutcome(state, view, n).frames, ramp);
    }
  }

  /** One side of a played frame is that side of the log. */
  lemma {:induction false} SideFollowsLog(ready: ReaderState, ring: Ring, log: seq<Stereo>, frames: seq<Stereo>,
                                          globalChannel: nat, frame: nat)
    requires ready.targetLatencyFrames > 0 && PlayedFrom(ready, ring.writeFrame, ring.streamStart, log, frames)
    requires frame < |frames|
    ensures var ratio := Ratio(Max(0, ring.writeFrame - ready.readFrame.Floor), ready.targetLatencyFrames);
            var p := PositionAfter(ready.readFrame, ratio, frame);
            && ring.streamStart as real <= p && p.Floor + 1 < ring.streamStart + |log|
            && SideOf(frames, globalChannel, frame) == LogSide(ring.streamStart, log, p, globalChannel)
  {
  }

  /** The contract of a callback, for one sample. */
  lemma {:induction false} CallbackPlaysLog(ready: ReaderState, ring: Ring, log: seq<Stereo>, frames: seq<Stereo>,
                                            ramp: Ramp, output: seq<AudioBuffer>, contents: seq<seq<real>>,
                                            number: nat, place: Place, frame: nat)
    requires ready.targetLatencyFrames > 0 && PlayedFrom(ready, ring.writeFrame, ring.streamStart, log, frames)
    requires IsReference(contents, StereoChannels(frames), ramp, output, MostFrames(output))
    requires Numbers(output, number, place) && Usable(output[place.buffer])
    requires frame < FrameCount(output[place.buffer].byteSize, output[place.buffer].channels) && frame < |frames|
    ensures SamplePlays(contents[place.buffer], output[place.buffer].channels, number, frame, place.channel, ready,
                        ring, log, ramp)
  {
    SideFollowsLog(ready, ring, log, frames, number % UINT32_RANGE, frame);
    ForwardedSample(frames, ramp, output, contents, number, place, number % UINT32_RANGE, frame);
  }

  // ---- The latency the helper asks for ----

  /** Four device buffers as a 32-bit product, at least 1024 frames. */
  function RequestedLatency(bufferFrames: UInt32): (latency: nat)
    ensures 1024 <= latency < UINT32_RANGE
  {
    Max(1024, (bufferFrames * 4) % UINT32_RANGE)
  }

  /** The reader's target covers four device buffers exactly up to 2048-frame buffers. */
  lemma {:induction false} TargetCoversFourBuffers(bufferFrames: UInt32)
    ensures 4 * bufferFrames <= ClampTargetLatency(RequestedLatency(bufferFrames)) <==> bufferFrames <= 2048
    ensures bufferFrames <= 2048 ==> ClampTargetLatency(RequestedLatency(bufferFrames)) == Max(1024, 4 * bufferFrames)
  {
  }
}
