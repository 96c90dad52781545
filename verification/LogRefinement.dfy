/**
 Reading through the 32768-frame ring is reading from the unbounded log of the stream.

 `log[i]` is the sample of frame streamStart + i. The ring does not change during a call here; OverlappingReads
 treats a call that runs between the steps of a writer.
 */
module LogRefinement {
  import opened Types
  import opened SharedAudio
  import opened RingHistory
  import opened Reader

  /** The ring of a gap-free stream: it retains the last lap of the log. */
  ghost predicate Backs(ring: Ring, log: seq<Stereo>) {
    && |ring.slots| == CAPACITY
    && IsValid(ring)
    && ring.writerActive
    && ring.writeFrame == ring.streamStart + |log|
    && forall f | ring.streamStart <= f < ring.writeFrame && ring.writeFrame <= f + CAPACITY ::
         Load(ring.slots, f) == Some(log[f - ring.streamStart])
  }

  /** The stream as a reader with unlimited retention would see it. */
  function LogView(start: nat, log: seq<Stereo>, epoch: nat): View {
    View(true, true, epoch, start + |log|, start,
         (k: nat, f: nat) => if start <= f < start + |log| then Some(log[f - start]) else None,
         epoch, true)
  }

  /** The log at a fractional position. */
  function LogAt(start: nat, log: seq<Stereo>, position: real): Stereo
    requires start as real <= position && position.Floor + 1 < start + |log|
  {
    var i := position.Floor - start;
    Interpolate(log[i], log[i + 1], position - position.Floor as real)
  }

  /** A synchronised reader of the current epoch stands inside the stream. */
  ghost predicate Follows(state: ReaderState, epoch: nat, start: nat) {
    && state.readFrame >= 0.0
    && MINIMUM_LATENCY <= state.targetLatencyFrames <= CAPACITY / 4
    && (state.synchronized && state.streamEpoch == epoch ==> start as real <= state.readFrame)
  }

  lemma {:induction false} FramesBefore(ratio: real, j: nat, n: nat)
    requires ratio >= 0.0 && j < n
    ensures j as real * ratio + ratio <= n as real * ratio
  {
    var rest := (n - 1 - j) as real;
    assert rest * ratio >= 0.0;
    assert rest * ratio == n as real * ratio - ratio - j as real * ratio;
  }

  /** With enough frames available, every position of a call lies strictly before the last published frame. */
  lemma {:induction false} PositionInRange(start: real, ratio: real, n: nat, j: nat, writeFrame: nat)
    requires start >= 0.0 && 0.995 <= ratio && j < n
    requires writeFrame - start.Floor >= Required(n, ratio)
    ensures start.Floor <= PositionAfter(start, ratio, j).Floor
    ensures PositionAfter(start, ratio, j).Floor + 1 < writeFrame
  {
    FramesBefore(ratio, j, n);
  }

  /** The position after a complete call is still before the last published frame. */
  lemma {:induction false} EndInRange(start: real, ratio: real, n: nat, writeFrame: nat)
    requires start >= 0.0 && 0.0 <= ratio
    requires writeFrame - start.Floor >= Required(n, ratio)
    ensures PositionAfter(start, ratio, n) < (writeFrame - 1) as real
  {
  }

  ghost predicate AgreesOn(load: (nat, nat) -> Option<Stereo>, start: nat, log: seq<Stereo>, low: nat) {
    forall k: nat, f: nat | start <= f < start + |log| && low <= f :: load(k, f) == Some(log[f - start])
  }

  lemma {:induction false} FrameFromLog(load: (nat, nat) -> Option<Stereo>, start: nat, log: seq<Stereo>, low: nat,
                                        j: nat, p: real)
    requires start as real <= p && low <= p.Floor && p.Floor + 1 < start + |log|
    requires AgreesOn(load, start, log, low)
    ensures FrameAt(load, j, p) == Some(LogAt(start, log, p))
  {
    assert start <= p.Floor;
    assert load(2 * j, p.Floor).Some? && load(2 * j + 1, p.Floor + 1).Some?;
  }

  lemma {:induction false} FrameLoads(load: (nat, nat) -> Option<Stereo>, start: nat, log: seq<Stereo>,
                                      position: real, ratio: real, n: nat, j: nat)
    requires start as real <= position && 0.995 <= ratio && j < n
    requires start + |log| - position.Floor >= Required(n, ratio)
    requires AgreesOn(load, start, log, position.Floor)
    ensures var p := PositionAfter(position, ratio, j);
            && position <= p && position.Floor <= p.Floor && p.Floor + 1 < start + |log|
            && FrameAt(load, j, p) == Some(LogAt(start, log, p))
  {
    PositionInRange(position, ratio, n, j, start + |log|);
    FrameFromLog(load, start, log, position.Floor, j, PositionAfter(position, ratio, j));
  }

  lemma {:induction false} AllLoadsSucceed(load: (nat, nat) -> Option<Stereo>, start: nat, log: seq<Stereo>,
                                           position: real, ratio: real, n: nat)
    requires start as real <= position && 0.995 <= ratio
    requires start + |log| - position.Floor >= Required(n, ratio)
    requires AgreesOn(load, start, log, position.Floor)
    ensures Loadable(load, position, ratio, n) == n
  {
    var count := Loadable(load, position, ratio, n);
    if count < n {
      FrameLoads(load, start, log, position, ratio, n, count);
    }
  }

  /** Whether a call plays, and where it then stands, in numbers alone. */
  ghost predicate Decides(state: ReaderState, writeFrame: nat, n: nat, outcome: Outcome)
    requires state.readFrame >= 0.0 && state.targetLatencyFrames > 0
  {
    var position := state.readFrame.Floor;
    var ratio := Ratio(Max(0, writeFrame - position), state.targetLatencyFrames);
    if position > writeFrame || writeFrame - position >= CAPACITY - 2 then
      outcome == Silent(state.(synchronized := false), n)
    else if writeFrame - position < Required(n, ratio) then
      outcome == Silent(state.(underrunCount := state.underrunCount + 1), n)
    else
      && outcome.rendered == n && |outcome.frames| == n
      && outcome.state == state.(readFrame := PositionAfter(state.readFrame, ratio, n))
      && outcome.state.readFrame < (writeFrame - 1) as real
  }

  /** The frames are the log at the held position and the steps after it, all published and retained. */
  ghost predicate Interpolates(state: ReaderState, start: nat, log: seq<Stereo>, frames: seq<Stereo>)
    requires start as real <= state.readFrame && state.targetLatencyFrames > 0
  {
    var writeFrame := start + |log|;
    var ratio := Ratio(Max(0, writeFrame - state.readFrame.Floor), state.targetLatencyFrames);
    forall j | 0 <= j < |frames| ::
      var p := PositionAfter(state.readFrame, ratio, j);
      && state.readFrame <= p
      && p.Floor + 1 < writeFrame <= p.Floor + CAPACITY
      && frames[j] == LogAt(start, log, p)
  }

  /** The frames are the log where the reader stood and at the steps after it, whatever else was published. */
  ghost predicate PlayedFrom(ready: ReaderState, writeFrame: nat, start: nat, log: seq<Stereo>, frames: seq<Stereo>)
    requires ready.targetLatencyFrames > 0
  {
    var ratio := Ratio(Max(0, writeFrame - ready.readFrame.Floor), ready.targetLatencyFrames);
    forall j | 0 <= j < |frames| ::
      var p := PositionAfter(ready.readFrame, ratio, j);
      && start as real <= p && p.Floor + 1 < start + |log|
      && frames[j] == LogAt(start, log, p)
  }

  /** What a call does with a gap-free stream, in terms of the log alone. */
  ghost predicate PlaysLog(state: ReaderState, start: nat, log: seq<Stereo>, n: nat, outcome: Outcome)
    requires start as real <= state.readFrame && state.targetLatencyFrames > 0
  {
    && Decides(state, start + |log|, n, outcome)
    && (outcome.rendered > 0 ==> Interpolates(state, start, log, outcome.frames))
  }

  lemma {:induction false} PlaysLogDetermines(state: ReaderState, start: nat, log: seq<Stereo>, n: nat, a: Outcome,
                                              b: Outcome)
    requires start as real <= state.readFrame && state.targetLatencyFrames > 0
    requires PlaysLog(state, start, log, n, a) && PlaysLog(state, start, log, n, b)
    ensures a == b
  {
    assert a.rendered == b.rendered && |a.frames| == |b.frames|;
  }

  /** With enough frames available the call renders them all, each from the log. */
  lemma {:induction false} EnoughPlays(state: ReaderState, view: View, start: nat, log: seq<Stereo>, n: nat,
                                       ratio: real)
    requires start as real <= state.readFrame && 0.995 <= ratio && view.writeFrame == start + |log|
    requires view.writeFrame - state.readFrame.Floor >= Required(n, ratio)
    requires AgreesOn(view.load, start, log, state.readFrame.Floor)
    ensures Loadable(view.load, state.readFrame, ratio, n) == n
    ensures PositionAfter(state.readFrame, ratio, n) < (view.writeFrame - 1) as real
    ensures forall j | 0 <= j < n ::
              var p := PositionAfter(state.readFrame, ratio, j);
              && state.readFrame <= p && state.readFrame.Floor <= p.Floor && p.Floor + 1 < start + |log|
              && FrameAt(view.load, j, p) == Some(LogAt(start, log, p))
  {
    AllLoadsSucceed(view.load, start, log, state.readFrame, ratio, n);
    EndInRange(state.readFrame, ratio, n, view.writeFrame);
    forall j | 0 <= j < n
      ensures var p := PositionAfter(state.readFrame, ratio, j);
              && state.readFrame <= p && state.readFrame.Floor <= p.Floor && p.Floor + 1 < start + |log|
              && FrameAt(view.load, j, p) == Some(LogAt(start, log, p))
    {
      FrameLoads(view.load, start, log, state.readFrame, ratio, n, j);
    }
  }

  lemma {:induction false} CompletePlay(state: ReaderState, view: View, n: nat, ratio: real)
    requires state.readFrame >= 0.0 && state.targetLatencyFrames > 0
    requires 0 <= view.writeFrame - state.readFrame.Floor < CAPACITY - 2
    requires ratio == Ratio(view.writeFrame - state.readFrame.Floor, state.targetLatencyFrames)
    requires view.writeFrame - state.readFrame.Floor >= Required(n, ratio)
    requires Loadable(view.load, state.readFrame, ratio, n) == n
    requires view.epochAfter == view.streamEpoch && view.activeAfter
    ensures PlayFrom(state, view, n) ==
            Outcome(state.(readFrame := PositionAfter(state.readFrame, ratio, n)), n,
                    Rendering(view.load, state.readFrame, ratio, n))
  {
  }

  lemma {:induction false} RenderingInterpolates(state: ReaderState, load: (nat, nat) -> Option<Stereo>, start: nat,
                                                 log: seq<Stereo>, n: nat, ratio: real)
    requires start as real <= state.readFrame && state.targetLatencyFrames > 0
    requires 0 <= start + |log| - state.readFrame.Floor < CAPACITY - 2
    requires ratio == Ratio(start + |log| - state.readFrame.Floor, state.targetLatencyFrames)
    requires Loadable(load, state.readFrame, ratio, n) == n
    requires forall j | 0 <= j < n ::
               var p := PositionAfter(state.readFrame, ratio, j);
               && state.readFrame <= p && state.readFrame.Floor <= p.Floor && p.Floor + 1 < start + |log|
               && FrameAt(load, j, p) == Some(LogAt(start, log, p))
    ensures Interpolates(state, start, log, Rendering(load, state.readFrame, ratio, n))
  {
  }

  lemma {:induction false} EnoughPlaysLog(state: ReaderState, view: View, start: nat, log: seq<Stereo>, n: nat,
                                          ratio: real)
    requires start as real <= state.readFrame && state.targetLatencyFrames > 0
    requires view.writeFrame == start + |log| && view.epochAfter == view.streamEpoch && view.activeAfter
    requires 0 <= view.writeFrame - state.readFrame.Floor < CAPACITY - 2
    requires ratio == Ratio(view.writeFrame - state.readFrame.Floor, state.targetLatencyFrames)
    requires view.writeFrame - state.readFrame.Floor >= Required(n, ratio)
    requires AgreesOn(view.load, start, log, state.readFrame.Floor)
    ensures PlaysLog(state, start, log, n, PlayFrom(state, view, n))
  {
    EnoughPlays(state, view, start, log, n, ratio);
    CompletePlay(state, view, n, ratio);
    RenderingInterpolates(state, view.load, start, log, n, ratio);
    CompletedPlaysLog(state, start, log, n, ratio, PlayFrom(state, view, n));
  }

  lemma {:induction false} CompletedPlaysLog(state: ReaderState, start: nat, log: seq<Stereo>, n: nat, ratio: real,
                                             outcome: Outcome)
    requires start as real <= state.readFrame && state.targetLatencyFrames > 0
    requires 0 <= start + |log| - state.readFrame.Floor < CAPACITY - 2
    requires ratio == Ratio(start + |log| - state.readFrame.Floor, state.targetLatencyFrames)
    requires start + |log| - state.readFrame.Floor >= Required(n, ratio)
    requires outcome == Outcome(state.(readFrame := PositionAfter(state.readFrame, ratio, n)), n, outcome.frames)
    requires |outcome.frames| == n && outcome.state.readFrame < (start + |log| - 1) as real
    requires Interpolates(state, start, log, outcome.frames)
    ensures PlaysLog(state, start, log, n, outcome)
  {
  }

  lemma {:induction false} PlayFromLog(state: ReaderState, view: View, start: nat, log: seq<Stereo>, n: nat)
    requires start as real <= state.readFrame && state.targetLatencyFrames > 0
    requires view.writeFrame == start + |log| && view.epochAfter == view.streamEpoch && view.activeAfter
    requires view.writeFrame - state.readFrame.Floor < CAPACITY ==>
               AgreesOn(view.load, start, log, state.readFrame.Floor)
    ensures PlaysLog(state, start, log, n, PlayFrom(state, view, n))
  {
    var position := state.readFrame.Floor;
    if 0 <= view.writeFrame - position < CAPACITY - 2 {
      var ratio := Ratio(view.writeFrame - position, state.targetLatencyFrames);
      if view.writeFrame - position >= Required(n, ratio) {
        EnoughPlaysLog(state, view, start, log, n, ratio);
      }
    }
  }

  lemma {:induction false} RingAgrees(ring: Ring, log: seq<Stereo>, low: nat)
    requires Backs(ring, log) && ring.writeFrame - low < CAPACITY
    ensures AgreesOn(AtomicView(ring).load, ring.streamStart, log, low)
  {
  }

  lemma {:induction false} LogAgrees(start: nat, log: seq<Stereo>, epoch: nat, low: nat)
    ensures AgreesOn(LogView(start, log, epoch).load, start, log, low)
  {
  }

  lemma {:induction false} PlayRefinesLog(ready: ReaderState, ring: Ring, log: seq<Stereo>, n: nat)
    requires Backs(ring, log) && ring.streamStart as real <= ready.readFrame && ready.targetLatencyFrames > 0
    ensures PlaysLog(ready, ring.streamStart, log, n, PlayFrom(ready, AtomicView(ring), n))
    ensures PlayFrom(ready, AtomicView(ring), n) ==
            PlayFrom(ready, LogView(ring.streamStart, log, ring.streamEpoch), n)
  {
    var start, view, reference := ring.streamStart, AtomicView(ring), LogView(ring.streamStart, log, ring.streamEpoch);
    if view.writeFrame - ready.readFrame.Floor < CAPACITY {
      RingAgrees(ring, log, ready.readFrame.Floor);
    }
    PlayFromLog(ready, view, start, log, n);
    LogAgrees(start, log, ring.streamEpoch, ready.readFrame.Floor);
    PlayFromLog(ready, reference, start, log, n);
    PlaysLogDetermines(ready, start, log, n, PlayFrom(ready, view, n), PlayFrom(ready, reference, n));
  }

  /**
   Main result: a call on the ring has the outcome of the same call on the unbounded log, so a load never
   fails; a rendered call interpolates the log at the held position and the steps after it, using only frames
   that are published and still retained.
   */
  lemma {:induction false} ReadRefinesLog(state: ReaderState, ring: Ring, log: seq<Stereo>, n: nat)
    requires Backs(ring, log) && Follows(state, ring.streamEpoch, ring.streamStart)
    ensures var start := ring.streamStart;
            var view := AtomicView(ring);
            && ReadOutcome(state, view, n) == ReadOutcome(state, LogView(start, log, ring.streamEpoch), n)
            && (n > 0 && |log| >= state.targetLatencyFrames ==>
                 && start as real <= Resynchronized(state, view).readFrame
                 && PlaysLog(Resynchronized(state, view), start, log, n, ReadOutcome(state, view, n)))
  {
    if n > 0 && |log| >= state.targetLatencyFrames {
      var ready := Resynchronized(state, AtomicView(ring));
      assert ready == Resynchronized(state, LogView(ring.streamStart, log, ring.streamEpoch));
      PlayRefinesLog(ready, ring, log, n);
    }
  }

  /** What a successful read supplies. */
  lemma {:induction false} ReadPlays(state: ReaderState, ring: Ring, log: seq<Stereo>, n: nat)
    requires Backs(ring, log) && Follows(state, ring.streamEpoch, ring.streamStart)
    requires ReadOutcome(state, AtomicView(ring), n).rendered > 0
    ensures ring.streamStart + state.targetLatencyFrames <= ring.writeFrame
    ensures PlayedFrom(Resynchronized(state, AtomicView(ring)), ring.writeFrame, ring.streamStart, log,
                       ReadOutcome(state, AtomicView(ring), n).frames)
  {
    RenderedMeansReady(state, AtomicView(ring), n);
    ReadRefinesLog(state, ring, log, n);
    InterpolatedIsPlayed(Resynchronized(state, AtomicView(ring)), ring, log,
                         ReadOutcome(state, AtomicView(ring), n).frames);
  }

  lemma {:induction false} RenderedMeansReady(state: ReaderState, view: View, n: nat)
    requires state.readFrame >= 0.0 && state.targetLatencyFrames > 0 && ReadOutcome(state, view, n).rendered > 0
    ensures n > 0 && view.streamStart + state.targetLatencyFrames <= view.writeFrame
  {
  }

  lemma {:induction false} InterpolatedIsPlayed(ready: ReaderState, ring: Ring, log: seq<Stereo>, frames: seq<Stereo>)
    requires ring.streamStart as real <= ready.readFrame && ready.targetLatencyFrames > 0
    requires ring.writeFrame == ring.streamStart + |log| && Interpolates(ready, ring.streamStart, log, frames)
    ensures PlayedFrom(ready, ring.writeFrame, ring.streamStart, log, frames)
  {
  }

  /** The numbers of a call by a synchronised reader of the current epoch. */
  lemma {:induction false} SynchronizedReadDecides(state: ReaderState, ring: Ring, log: seq<Stereo>, n: nat)
    requires Backs(ring, log) && Follows(state, ring.streamEpoch, ring.streamStart)
    requires state.synchronized && state.streamEpoch == ring.streamEpoch
    requires n > 0 && |log| >= state.targetLatencyFrames
    ensures Resynchronized(state, AtomicView(ring)) == state
    ensures Decides(state, ring.writeFrame, n, ReadOutcome(state, AtomicView(ring), n))
  {
    ReadRefinesLog(state, ring, log, n);
  }

  /** A gap-free capture, of any length, keeps the ring a window on the extended log. */
  lemma {:induction false} CaptureExtendsLog(ring: Ring, log: seq<Stereo>, block: seq<Stereo>)
    requires Backs(ring, log) && ring.writeFrame as real < SAMPLE_TIME_LIMIT
    ensures var ring' := Capture(ring, Some(block), Finite(ring.writeFrame as real), |block|);
            && Backs(ring', log + block)
            && ring'.streamStart == ring.streamStart && ring'.streamEpoch == ring.streamEpoch
  {
    var ring' := Capture(ring, Some(block), Finite(ring.writeFrame as real), |block|);
    if block == [] {
      assert log + block == log;
    } else {
      forall f | ring'.streamStart <= f < ring'.writeFrame && ring'.writeFrame <= f + CAPACITY
        ensures Load(ring'.slots, f) == Some((log + block)[f - ring'.streamStart])
      {
        CapturedFrame(ring, log, block, f);
      }
    }
  }

  lemma {:induction false} CapturedFrame(ring: Ring, log: seq<Stereo>, block: seq<Stereo>, f: nat)
    requires Backs(ring, log) && ring.writeFrame as real < SAMPLE_TIME_LIMIT && block != []
    requires ring.streamStart <= f < ring.writeFrame + |block| <= f + CAPACITY
    ensures Load(Capture(ring, Some(block), Finite(ring.writeFrame as real), |block|).slots, f) ==
            Some((log + block)[f - ring.streamStart])
  {
    if |block| > CAPACITY {
      OversizeCaptureKeepsLastLap(ring, block, Finite(ring.writeFrame as real), |block|, f);
    } else {
      assert block[0..|block|] == block;
      if f < ring.writeFrame {
        LoadBeforeBlock(ring.slots, ring.writeFrame, block, f);
      } else {
        LoadAfterStoreAll(ring.slots, ring.writeFrame, block, f);
      }
    }
  }

  /** The first capture after a reset or a stop starts a new log with the frames it does not skip. */
  lemma {:induction false} FirstCaptureStartsLog(ring: Ring, block: seq<Stereo>, sampleTime: Float)
    requires |ring.slots| == CAPACITY && block != [] && !ring.writerActive
    requires Captures(ring, Some(block), sampleTime, |block|)
    ensures var ring' := Capture(ring, Some(block), sampleTime, |block|);
            && Backs(ring', block[Skipped(|block|)..])
            && ring'.streamStart == sampleTime.value.Floor + Skipped(|block|)
  {
    var ring' := Capture(ring, Some(block), sampleTime, |block|);
    var heard := block[Skipped(|block|)..];
    assert block[Skipped(|block|)..|block|] == heard;
    forall f | ring'.streamStart <= f < ring'.writeFrame
      ensures Load(ring'.slots, f) == Some(heard[f - ring'.streamStart])
    {
      LoadAfterStoreAll(ring.slots, ring'.streamStart, heard, f);
    }
  }
}
