/**
 The drift-correcting reader of forwarder/SharedAudioReader.c.

 The ring belongs to another process, so a call sees it only through its atomic loads. A `View` is what those
 loads return during one call; `AtomicView` is the special case of a ring that does not change meanwhile.
 `ReadOutcome` is the specification that the method `SharedAudioReader.Read` is proved against.
 */
module Reader {
  import opened Types
  import opened SharedAudio

  const MINIMUM_LATENCY: nat := 256
  const MAXIMUM_CORRECTION: real := 0.005
  const CORRECTION_GAIN: real := 0.01

  /** load(k, f) is the result of the k-th LoadFrame of the call, made for frame f. */
  datatype View = View(
    valid: bool,
    writerActive: bool,
    streamEpoch: nat,
    writeFrame: nat,
    streamStart: nat,
    load: (nat, nat) -> Option<Stereo>,
    epochAfter: nat,
    activeAfter: bool)

  function AtomicView(ring: Ring): View
    requires |ring.slots| == CAPACITY
  {
    View(IsValid(ring), ring.writerActive, ring.streamEpoch, ring.writeFrame, ring.streamStart,
         (k: nat, f: nat) => if |ring.slots| == CAPACITY then Load(ring.slots, f) else None,
         ring.streamEpoch, ring.writerActive)
  }

  datatype ReaderState = ReaderState(
    readFrame: real,
    streamEpoch: nat,
    underrunCount: nat,
    resyncCount: nat,
    targetLatencyFrames: nat,
    synchronized: bool)

  function ClampTargetLatency(requested: nat): (target: nat)
    ensures MINIMUM_LATENCY <= target <= CAPACITY / 4
    ensures MINIMUM_LATENCY <= requested <= CAPACITY / 4 ==> target == requested
  {
    if requested < MINIMUM_LATENCY then MINIMUM_LATENCY
    else if requested > CAPACITY / 4 then CAPACITY / 4
    else requested
  }

  /** The target is the supported latency nearest to the one asked for, from 256 frames to a quarter lap. */
  lemma {:induction false} ClampedTargetIsNearest(requested: nat, y: nat)
    requires 256 <= y <= 8192
    ensures 256 <= ClampTargetLatency(requested) <= 8192
    ensures Abs((ClampTargetLatency(requested) - requested) as real) <= Abs((y - requested) as real)
  {
  }

  function ClampCorrection(correction: real): (r: real)
    ensures -MAXIMUM_CORRECTION <= r <= MAXIMUM_CORRECTION
  {
    if correction < -MAXIMUM_CORRECTION then -MAXIMUM_CORRECTION
    else if correction > MAXIMUM_CORRECTION then MAXIMUM_CORRECTION
    else correction
  }

  /** The playback ratio for a number of available frames. */
  function Ratio(available: nat, target: nat): (ratio: real)
    requires target > 0
    ensures 0.995 <= ratio <= 1.005
  {
    1.0 + ClampCorrection((available as real - target as real) / target as real * CORRECTION_GAIN)
  }

  function Required(frameCount: nat, ratio: real): int {
    Ceil(frameCount as real * ratio) + 2
  }

  function Interpolate(first: Stereo, second: Stereo, fraction: real): Stereo {
    Stereo(first.left + (second.left - first.left) * fraction,
           first.right + (second.right - first.right) * fraction)
  }

  function Silence(frameCount: nat): seq<Stereo> {
    seq(frameCount, _ => SILENCE)
  }

  /** Output frame j at a source position: two loads, the second made only when the first succeeds. */
  function FrameAt(load: (nat, nat) -> Option<Stereo>, j: nat, position: real): Option<Stereo>
    requires position >= 0.0
  {
    var source := position.Floor;
    match load(2 * j, source)
    case None => None
    case Some(first) =>
      match load(2 * j + 1, source + 1)
      case None => None
      case Some(second) => Some(Interpolate(first, second, position - source as real))
  }

  /** Where the reader stands after j frames. */
  function PositionAfter(start: real, ratio: real, j: nat): (position: real)
    ensures start >= 0.0 && ratio >= 0.0 ==> position >= start
  {
    start + j as real * ratio
  }

  /** How many of n frames can be rendered before a load fails. */
  function Loadable(load: (nat, nat) -> Option<Stereo>, start: real, ratio: real, n: nat): (count: nat)
    requires start >= 0.0 && ratio >= 0.0
    ensures count <= n
    ensures forall j | 0 <= j < count :: FrameAt(load, j, PositionAfter(start, ratio, j)).Some?
    ensures count < n ==> FrameAt(load, count, PositionAfter(start, ratio, count)) == None
  {
    if n == 0 then 0
    else
      var count := Loadable(load, start, ratio, n - 1);
      if count == n - 1 && FrameAt(load, n - 1, PositionAfter(start, ratio, n - 1)).Some? then n else count
  }

  /** The frames of a complete rendering. */
  function Rendering(load: (nat, nat) -> Option<Stereo>, start: real, ratio: real, n: nat): (frames: seq<Stereo>)
    requires start >= 0.0 && ratio >= 0.0
    requires Loadable(load, start, ratio, n) == n
    ensures |frames| == n
  {
    seq(n, j requires 0 <= j < n => FrameAt(load, j, PositionAfter(start, ratio, j)).value)
  }

  /** The reader adds the ratio once per frame. */
  lemma {:induction false} PositionStep(start: real, ratio: real, j: nat)
    ensures PositionAfter(start, ratio, j + 1) == PositionAfter(start, ratio, j) + ratio
  {
  }

  datatype Outcome = Outcome(state: ReaderState, rendered: nat, frames: seq<Stereo>)

  function Silent(state: ReaderState, frameCount: nat): Outcome {
    Outcome(state, 0, Silence(frameCount))
  }

  /** The state after the epoch check and, when out of synchronisation, the jump behind the writer. */
  function Resynchronized(state: ReaderState, view: View): ReaderState
    requires view.streamStart + state.targetLatencyFrames <= view.writeFrame
  {
    var followed := if view.streamEpoch == state.streamEpoch then state
                    else state.(streamEpoch := view.streamEpoch, synchronized := false);
    if followed.synchronized then followed
    else
      var behind := (view.writeFrame - state.targetLatencyFrames) as real;
      followed.(readFrame := if behind < view.streamStart as real then view.streamStart as real else behind,
                synchronized := true,
                resyncCount := followed.resyncCount + 1)
  }

  /** Playing from a synchronised position. */
  function PlayFrom(state: ReaderState, view: View, frameCount: nat): Outcome
    requires state.readFrame >= 0.0 && state.targetLatencyFrames > 0
  {
    var position := state.readFrame.Floor;
    if position > view.writeFrame || view.writeFrame - position >= CAPACITY - 2 then
      Silent(state.(synchronized := false), frameCount)
    else
      var available := view.writeFrame - position;
      var ratio := Ratio(available, state.targetLatencyFrames);
      if available < Required(frameCount, ratio) then
        Silent(state.(underrunCount := state.underrunCount + 1), frameCount)
      else
        var count := Loadable(view.load, state.readFrame, ratio, frameCount);
        var moved := state.(readFrame := PositionAfter(state.readFrame, ratio, count));
        if count < frameCount then
          Silent(moved.(synchronized := false, underrunCount := state.underrunCount + 1), frameCount)
        else if view.epochAfter != view.streamEpoch || !view.activeAfter then
          Silent(moved.(synchronized := false), frameCount)
        else
          Outcome(moved, frameCount, Rendering(view.load, state.readFrame, ratio, frameCount))
  }

  /** One call with a usable output buffer. */
  function ReadOutcome(state: ReaderState, view: View, frameCount: nat): (outcome: Outcome)
    requires state.readFrame >= 0.0
    requires view.valid ==> state.targetLatencyFrames > 0
    ensures |outcome.frames| == frameCount
    ensures outcome.rendered == 0 || outcome.rendered == frameCount
    ensures outcome.state.targetLatencyFrames == state.targetLatencyFrames
    ensures outcome.state.readFrame >= 0.0
  {
    if frameCount == 0 || !view.valid then Silent(state, frameCount)
    else if !view.writerActive then Silent(state.(synchronized := false), frameCount)
    else if view.writeFrame < view.streamStart + state.targetLatencyFrames then
      Silent(if view.streamEpoch == state.streamEpoch then state
             else state.(streamEpoch := view.streamEpoch, synchronized := false), frameCount)
    else PlayFrom(Resynchronized(state, view), view, frameCount)
  }

  /** An interleaved stereo buffer whose first frames are the given ones. */
  ghost predicate Interleaved(output: seq<real>, frames: seq<Stereo>) {
    && 2 * |frames| <= |output|
    && forall j {:trigger frames[j]} | 0 <= j < |frames| ::
         output[2 * j] == frames[j].left && output[2 * j + 1] == frames[j].right
  }

  class SharedAudioReader {
    var readFrame: real
    var streamEpoch: nat
    var underrunCount: nat
    var resyncCount: nat
    var targetLatencyFrames: nat
    var synchronized: bool

    ghost function State(): ReaderState
      reads this
    {
      ReaderState(readFrame, streamEpoch, underrunCount, resyncCount, targetLatencyFrames, synchronized)
    }

    /** SVCSharedAudioReaderInit on a mapping that is valid or not and shows the given epoch. */
    constructor (valid: bool, epoch: nat, requestedLatency: nat)
      ensures State() == if valid then ReaderState(0.0, epoch, 0, 0, ClampTargetLatency(requestedLatency), false)
                         else ReaderState(0.0, 0, 0, 0, 0, false)
    {
      readFrame := 0.0;
      streamEpoch, underrunCount, resyncCount, targetLatencyFrames := 0, 0, 0, 0;
      synchronized := false;
      if valid {
        targetLatencyFrames := ClampTargetLatency(requestedLatency);
        streamEpoch := epoch;
      }
    }

    method Read(view: View, output: array?<real>, frameCount: nat) returns (rendered: nat)
      requires readFrame >= 0.0
      requires view.valid ==> targetLatencyFrames > 0
      requires output != null ==> 2 * frameCount <= output.Length
      modifies this, output
      ensures output == null ==> rendered == 0 && State() == old(State())
      ensures output != null ==>
                var outcome := ReadOutcome(old(State()), view, frameCount);
                && rendered == outcome.rendered
                && State() == outcome.state
                && Interleaved(output[..], outcome.frames)
                && forall k | 2 * frameCount <= k < output.Length :: output[k] == old(output[k])
    {
      if output == null || frameCount == 0 || !view.valid {
        WriteSilence(output, frameCount);
        return 0;
      }
      if !view.writerActive {
        synchronized := false;
        WriteSilence(output, frameCount);
        return 0;
      }
      var epoch, writeFrame, streamStart := view.streamEpoch, view.writeFrame, view.streamStart;
      if epoch != streamEpoch {
        streamEpoch := epoch;
        synchronized := false;
      }
      if writeFrame < streamStart || writeFrame - streamStart < targetLatencyFrames {
        WriteSilence(output, frameCount);
        return 0;
      }
      if !synchronized {
        var behind := (writeFrame - targetLatencyFrames) as real;
        readFrame := if behind < streamStart as real then streamStart as real else behind;
        synchronized := true;
        resyncCount := resyncCount + 1;
      }
      assert State() == Resynchronized(old(State()), view);
      rendered := Play(view, output, frameCount);
    }

    /** The second half of Read, from the position check on. */
    method Play(view: View, output: array<real>, frameCount: nat) returns (rendered: nat)
      requires readFrame >= 0.0 && targetLatencyFrames > 0
      requires 2 * frameCount <= output.Length
      modifies this, output
      ensures var outcome := PlayFrom(old(State()), view, frameCount);
              && rendered == outcome.rendered
              && State() == outcome.state
              && Interleaved(output[..], outcome.frames)
      ensures forall k | 2 * frameCount <= k < output.Length :: output[k] == old(output[k])
    {
      var integerReadFrame := readFrame.Floor;
      if integerReadFrame > view.writeFrame || view.writeFrame - integerReadFrame >= CAPACITY - 2 {
        synchronized := false;
        WriteSilence(output, frameCount);
        return 0;
      }
      var available := view.writeFrame - integerReadFrame;
      var playbackRatio := Ratio(available, targetLatencyFrames);
      if available < Required(frameCount, playbackRatio) {
        underrunCount := underrunCount + 1;
        WriteSilence(output, frameCount);
        return 0;
      }
      var complete := RenderFrames(view.load, playbackRatio, output, frameCount);
      if !complete {
        synchronized := false;
        underrunCount := underrunCount + 1;
        WriteSilence(output, frameCount);
        return 0;
      }
      if view.epochAfter != view.streamEpoch || !view.activeAfter {
        synchronized := false;
        WriteSilence(output, frameCount);
        return 0;
      }
      return frameCount;
    }

    /** One iteration of that loop, before the position moves. */
    method RenderFrame(load: (nat, nat) -> Option<Stereo>, output: array<real>, j: nat) returns (loaded: bool)
      requires readFrame >= 0.0 && 2 * j + 1 < output.Length
      modifies output
      ensures loaded == FrameAt(load, j, readFrame).Some?
      ensures loaded ==> Stereo(output[2 * j], output[2 * j + 1]) == FrameAt(load, j, readFrame).value
      ensures forall k | 0 <= k < output.Length && k != 2 * j && k != 2 * j + 1 :: output[k] == old(output[k])
    {
      var sourceFrame := readFrame.Floor;
      var fraction := readFrame - sourceFrame as real;
      var first := load(2 * j, sourceFrame);
      if first == None {
        return false;
      }
      var second := load(2 * j + 1, sourceFrame + 1);
      if second == None {
        return false;
      }
      var stereo := Interpolate(first.value, second.value, fraction);
      output[2 * j] := stereo.left;
      output[2 * j + 1] := stereo.right;
      return true;
    }

    /** One iteration of the loop of Read. */
    method RenderNext(load: (nat, nat) -> Option<Stereo>, ghost start: real, ratio: real, output: array<real>, j: nat)
      returns (loaded: bool)
      requires start >= 0.0 && ratio >= 0.0 && 2 * j + 1 < output.Length
      requires RenderedTo(load, start, ratio, j, readFrame, output[..])
      modifies this`readFrame, output
      ensures loaded == FrameAt(load, j, PositionAfter(start, ratio, j)).Some?
      ensures if loaded then RenderedTo(load, start, ratio, j + 1, readFrame, output[..])
              else readFrame == old(readFrame)
      ensures forall k | 2 * j + 2 <= k < output.Length :: output[k] == old(output[k])
    {
      ghost var before := output[..];
      loaded := RenderFrame(load, output, j);
      if loaded {
        PositionStep(start, ratio, j);
        ExtendRendering(load, start, ratio, j, before, output[..]);
        readFrame := readFrame + ratio;
      }
    }

    /** The loop of Read; false as soon as a load fails. */
    method RenderFrames(load: (nat, nat) -> Option<Stereo>, ratio: real, output: array<real>, frameCount: nat)
      returns (complete: bool)
      requires readFrame >= 0.0 && ratio >= 0.0
      requires 2 * frameCount <= output.Length
      modifies this`readFrame, output
      ensures var count := Loadable(load, old(readFrame), ratio, frameCount);
              && complete == (count == frameCount)
              && readFrame == PositionAfter(old(readFrame), ratio, count)
      ensures complete ==> Interleaved(output[..], Rendering(load, old(readFrame), ratio, frameCount))
      ensures forall k | 2 * frameCount <= k < output.Length :: output[k] == old(output[k])
    {
      ghost var start := readFrame;
      var outputFrame := 0;
      while outputFrame < frameCount
        invariant outputFrame <= frameCount
        invariant RenderedTo(load, start, ratio, outputFrame, readFrame, output[..])
        invariant forall k | 2 * frameCount <= k < output.Length :: output[k] == old(output[k])
      {
        var loaded := RenderNext(load, start, ratio, output, outputFrame);
        if !loaded {
          LoadableStops(load, start, ratio, outputFrame, frameCount);
          return false;
        }
        outputFrame := outputFrame + 1;
      }
      return true;
    }
  }

  /** The first j frames have been rendered. */
  ghost predicate RenderedTo(load: (nat, nat) -> Option<Stereo>, start: real, ratio: real, j: nat,
                             readFrame: real, contents: seq<real>)
    requires start >= 0.0 && ratio >= 0.0
  {
    && readFrame == PositionAfter(start, ratio, j)
    && Loadable(load, start, ratio, j) == j
    && Interleaved(contents, Rendering(load, start, ratio, j))
  }

  /** A frame that cannot be rendered ends every longer attempt there. */
  lemma {:induction false} LoadableStops(load: (nat, nat) -> Option<Stereo>, start: real, ratio: real, m: nat, n: nat)
    requires start >= 0.0 && ratio >= 0.0 && m < n
    requires Loadable(load, start, ratio, m) == m
    requires FrameAt(load, m, PositionAfter(start, ratio, m)) == None
    ensures Loadable(load, start, ratio, n) == m
    decreases n
  {
    if n > m + 1 {
      LoadableStops(load, start, ratio, m, n - 1);
    }
  }

  lemma {:induction false} ExtendRendering(load: (nat, nat) -> Option<Stereo>, start: real, ratio: real, j: nat,
                                           before: seq<real>, after: seq<real>)
    requires start >= 0.0 && ratio >= 0.0 && Loadable(load, start, ratio, j) == j
    requires FrameAt(load, j, PositionAfter(start, ratio, j)).Some?
    requires |before| == |after| && 2 * j + 1 < |after| && forall k | 0 <= k < 2 * j :: before[k] == after[k]
    requires Interleaved(before, Rendering(load, start, ratio, j))
    requires Stereo(after[2 * j], after[2 * j + 1]) == FrameAt(load, j, PositionAfter(start, ratio, j)).value
    ensures Loadable(load, start, ratio, j + 1) == j + 1
    ensures Interleaved(after, Rendering(load, start, ratio, j + 1))
  {
    var shorter, longer := Rendering(load, start, ratio, j), Rendering(load, start, ratio, j + 1);
    forall i | 0 <= i < j + 1 ensures after[2 * i] == longer[i].left && after[2 * i + 1] == longer[i].right {
      if i < j {
        assert longer[i] == shorter[i];
        assert after[2 * i] == before[2 * i] && after[2 * i + 1] == before[2 * i + 1];
      }
    }
  }

  method WriteSilence(output: array?<real>, frameCount: nat)
    requires output != null ==> 2 * frameCount <= output.Length
    modifies output
    ensures output != null ==>
              Interleaved(output[..], Silence(frameCount)) &&
              forall k | 2 * frameCount <= k < output.Length :: output[k] == old(output[k])
  {
    if output != null && frameCount > 0 {
      var i := 0;
      while i < 2 * frameCount
        invariant i <= 2 * frameCount
        invariant forall k | 0 <= k < i :: output[k] == 0.0
        invariant forall k | 2 * frameCount <= k < output.Length :: output[k] == old(output[k])
      {
        output[i] := 0.0;
        i := i + 1;
      }
    }
  }
}
