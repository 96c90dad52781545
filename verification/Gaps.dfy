/**
 A capture that leaves a gap: its sample time lies beyond the end of what was published. Here loads do fail, and
 the reader gives up its synchronisation and joins again behind the gap.
 */
module Gaps {
  import opened Types
  import opened SharedAudio
  import opened RingHistory
  import opened Reader
  import opened LogRefinement
  import opened ControlArithmetic
  import opened Controller

  /** No frame at or after the end of what is published can be loaded. */
  ghost predicate NothingAhead(ring: Ring)
    requires |ring.slots| == CAPACITY
  {
    forall f | f >= ring.writeFrame :: Load(ring.slots, f) == None
  }

  /** A reset leaves nothing ahead. */
  lemma {:induction false} ResetLeavesNothing(ring: Ring, now: nat)
    requires |ring.slots| == CAPACITY && IsValid(ring)
    ensures NothingAhead(Reset(ring, now))
  {
  }

  /** The mix as the driver stores it: where it starts, and the samples it keeps. */
  function FirstKept(sampleTime: nat, block: seq<Stereo>): nat {
    sampleTime + Skipped(|block|)
  }

  function Kept(block: seq<Stereo>): seq<Stereo> {
    block[Skipped(|block|)..]
  }

  function Captured(ring: Ring, block: seq<Stereo>, sampleTime: nat): (ring': Ring)
    requires |ring.slots| == CAPACITY
    ensures |ring'.slots| == CAPACITY
  {
    Capture(ring, Some(block), Finite(sampleTime as real), |block|)
  }

  lemma {:induction false} CapturedSlots(ring: Ring, block: seq<Stereo>, sampleTime: nat)
    requires |ring.slots| == CAPACITY && IsValid(ring) && ring.writerActive
    requires block != [] && sampleTime as real < SAMPLE_TIME_LIMIT
    ensures var ring', first := Captured(ring, block, sampleTime), FirstKept(sampleTime, block);
            && |Kept(block)| <= CAPACITY
            && ring' == ring.(slots := StoreAll(ring.slots, first, Kept(block)), writeFrame := first + |Kept(block)|)
  {
    assert block[Skipped(|block|)..|block|] == Kept(block);
  }

  /** A capture that does not go back leaves nothing ahead, with or without a gap. */
  lemma {:induction false} CaptureLeavesNothing(ring: Ring, block: seq<Stereo>, sampleTime: nat)
    requires |ring.slots| == CAPACITY && IsValid(ring) && ring.writerActive && NothingAhead(ring)
    requires block != [] && ring.writeFrame <= sampleTime && sampleTime as real < SAMPLE_TIME_LIMIT
    ensures NothingAhead(Captured(ring, block, sampleTime))
  {
    var ring', first := Captured(ring, block, sampleTime), FirstKept(sampleTime, block);
    CapturedSlots(ring, block, sampleTime);
    forall f | f >= ring'.writeFrame ensures Load(ring'.slots, f) == None {
      LoadOutsideBlock(ring.slots, first, Kept(block), f);
    }
  }

  /** Frames from `low` up to `high` were never stored. */
  ghost predicate Missing(ring: Ring, low: nat, high: nat)
    requires |ring.slots| == CAPACITY
  {
    forall f | low <= f < high :: Load(ring.slots, f) == None
  }

  /** Both sides of a gap: nothing of it can be loaded, and behind it a new log begins. */
  lemma {:induction false} GapIsMissing(ring: Ring, block: seq<Stereo>, sampleTime: nat)
    requires |ring.slots| == CAPACITY && IsValid(ring) && ring.writerActive && NothingAhead(ring)
    requires block != [] && ring.writeFrame < sampleTime && sampleTime as real < SAMPLE_TIME_LIMIT
    ensures var ring', first := Captured(ring, block, sampleTime), FirstKept(sampleTime, block);
            && Missing(ring', ring.writeFrame, first)
            && Backs(ring'.(streamStart := first), Kept(block))
            && ring'.streamStart == ring.streamStart && ring'.streamEpoch == ring.streamEpoch
  {
    var ring', first := Captured(ring, block, sampleTime), FirstKept(sampleTime, block);
    CapturedSlots(ring, block, sampleTime);
    forall f | ring.writeFrame <= f < first ensures Load(ring'.slots, f) == None {
      LoadOutsideBlock(ring.slots, first, Kept(block), f);
    }
    forall f | first <= f < ring'.writeFrame ensures Load(ring'.slots, f) == Some(Kept(block)[f - first]) {
      LoadAfterStoreAll(ring.slots, first, Kept(block), f);
    }
  }

  /** Gap-free mixes after the gap extend the log behind it and bring nothing into it. */
  lemma {:induction false} LogBehindGapGrows(ring: Ring, first: nat, log: seq<Stereo>, block: seq<Stereo>, low: nat)
    requires Backs(ring.(streamStart := first), log) && Missing(ring, low, first)
    requires ring.writeFrame as real < SAMPLE_TIME_LIMIT
    ensures var ring' := Captured(ring, block, ring.writeFrame);
            Backs(ring'.(streamStart := first), log + block) && Missing(ring', low, first)
  {
    CaptureExtendsLog(ring.(streamStart := first), log, block);
    if block != [] {
      CapturedSlots(ring, block, ring.writeFrame);
      forall f | low <= f < first ensures Load(Captured(ring, block, ring.writeFrame).slots, f) == None {
        LoadOutsideBlock(ring.slots, FirstKept(ring.writeFrame, block), Kept(block), f);
      }
    }
  }

  // ---- Reading across the gap ----

  /** Every position the call plays has both its frames outside the gap. */
  ghost predicate AvoidsGap(ready: ReaderState, writeFrame: nat, n: nat, low: nat, high: nat)
    requires ready.targetLatencyFrames > 0
  {
    var ratio := Ratio(Max(0, writeFrame - ready.readFrame.Floor), ready.targetLatencyFrames);
    forall j | 0 <= j < n ::
      var f := PositionAfter(ready.readFrame, ratio, j).Floor;
      !(low <= f < high) && !(low <= f + 1 < high)
  }

  /** A call that plays has loaded both frames of every position, so none of the gap. */
  lemma {:induction false} NoGapFrameIsPlayed(ready: ReaderState, ring: Ring, n: nat, low: nat, high: nat)
    requires |ring.slots| == CAPACITY && Missing(ring, low, high)
    requires ready.readFrame >= 0.0 && ready.targetLatencyFrames > 0
    requires PlayFrom(ready, AtomicView(ring), n).rendered > 0
    ensures AvoidsGap(ready, ring.writeFrame, n, low, high)
  {
    var view := AtomicView(ring);
    var ratio := Ratio(Max(0, ring.writeFrame - ready.readFrame.Floor), ready.targetLatencyFrames);
    forall j | 0 <= j < n
      ensures var f := PositionAfter(ready.readFrame, ratio, j).Floor;
              !(low <= f < high) && !(low <= f + 1 < high)
    {
      assert FrameAt(view.load, j, PositionAfter(ready.readFrame, ratio, j)).Some?;
    }
  }

  /**
   Main result: a call that has enough frames but whose positions run into the gap is silent, counts an
   underrun, and gives up its synchronisation.
   */
  lemma {:induction false} GapEndsSynchronization(ready: ReaderState, ring: Ring, n: nat, low: nat, high: nat)
    requires |ring.slots| == CAPACITY && Missing(ring, low, high)
    requires ready.readFrame >= 0.0 && ready.targetLatencyFrames > 0
    requires 0 <= ring.writeFrame - ready.readFrame.Floor < CAPACITY - 2
    requires Required(n, Ratio(ring.writeFrame - ready.readFrame.Floor, ready.targetLatencyFrames))
             <= ring.writeFrame - ready.readFrame.Floor
    requires !AvoidsGap(ready, ring.writeFrame, n, low, high)
    ensures var outcome := PlayFrom(ready, AtomicView(ring), n);
            && outcome == Silent(outcome.state, n)
            && outcome.state == ready.(readFrame := outcome.state.readFrame, synchronized := false,
                                       underrunCount := ready.underrunCount + 1)
  {
    var view := AtomicView(ring);
    var ratio := Ratio(ring.writeFrame - ready.readFrame.Floor, ready.targetLatencyFrames);
    var count := Loadable(view.load, ready.readFrame, ratio, n);
    if count == n {
      if n > 0 {
        CompletePlay(ready, view, n, ratio);
        NoGapFrameIsPlayed(ready, ring, n, low, high);
      }
    } else {
      StoppedPlay(ready, view, n, ratio, count);
    }
  }

  lemma {:induction false} StoppedPlay(ready: ReaderState, view: View, n: nat, ratio: real, count: nat)
    requires ready.readFrame >= 0.0 && ready.targetLatencyFrames > 0
    requires 0 <= view.writeFrame - ready.readFrame.Floor < CAPACITY - 2
    requires ratio == Ratio(view.writeFrame - ready.readFrame.Floor, ready.targetLatencyFrames)
    requires view.writeFrame - ready.readFrame.Floor >= Required(n, ratio)
    requires count == Loadable(view.load, ready.readFrame, ratio, n) < n
    ensures PlayFrom(ready, view, n) ==
            Silent(ready.(readFrame := PositionAfter(ready.readFrame, ratio, count), synchronized := false,
                          underrunCount := ready.underrunCount + 1), n)
  {
  }

  /** With a target's worth of frames behind the gap, the stream might as well have begun there. */
  lemma {:induction false} GapIsForgotten(state: ReaderState, ring: Ring, first: nat, n: nat)
    requires |ring.slots| == CAPACITY && state.readFrame >= 0.0 && state.targetLatencyFrames > 0
    requires ring.streamStart <= first && first + state.targetLatencyFrames <= ring.writeFrame
    ensures ReadOutcome(state, AtomicView(ring), n) == ReadOutcome(state, AtomicView(ring.(streamStart := first)), n)
  {
    if n > 0 && IsValid(ring) && ring.writerActive {
      var shifted := ring.(streamStart := first);
      assert Resynchronized(state, AtomicView(ring)) == Resynchronized(state, AtomicView(shifted));
      SameLoads(Resynchronized(state, AtomicView(ring)), AtomicView(ring), AtomicView(shifted), n);
    }
  }

  lemma {:induction false} SameLoads(ready: ReaderState, a: View, b: View, n: nat)
    requires ready.readFrame >= 0.0 && ready.targetLatencyFrames > 0
    requires b == a.(streamStart := b.streamStart, load := b.load)
    requires forall k: nat, f: nat :: a.load(k, f) == b.load(k, f)
    ensures PlayFrom(ready, a, n) == PlayFrom(ready, b, n)
  {
    if 0 <= a.writeFrame - ready.readFrame.Floor {
      SameLoadable(a.load, b.load, ready.readFrame,
                   Ratio(a.writeFrame - ready.readFrame.Floor, ready.targetLatencyFrames), n);
    }
  }

  lemma {:induction false} SameLoadable(a: (nat, nat) -> Option<Stereo>, b: (nat, nat) -> Option<Stereo>, start: real,
                                        ratio: real, n: nat)
    requires start >= 0.0 && ratio >= 0.0
    requires forall k: nat, f: nat :: a(k, f) == b(k, f)
    ensures Loadable(a, start, ratio, n) == Loadable(b, start, ratio, n)
    ensures Loadable(a, start, ratio, n) == n ==> Rendering(a, start, ratio, n) == Rendering(b, start, ratio, n)
  {
    if n > 0 {
      SameLoadable(a, b, start, ratio, n - 1);
    }
  }

  /**
   Main result: once the end of the stream is a target beyond the gap, the next call of a reader that has lost
   its synchronisation renders again, from the log behind the gap, and leaves the reader locked to it.
   */
  lemma {:induction false} RendersBehindGap(state: ReaderState, ring: Ring, first: nat, log: seq<Stereo>, n: nat)
    requires ring.streamStart <= first && Backs(ring.(streamStart := first), log)
    requires Follows(state, ring.streamEpoch, ring.streamStart)
    requires !state.synchronized || state.streamEpoch != ring.streamEpoch
    requires |log| >= state.targetLatencyFrames && 0 < n && 4 * n <= state.targetLatencyFrames
    ensures var shifted := ring.(streamStart := first);
            var ready := Resynchronized(state, AtomicView(shifted));
            var outcome := ReadOutcome(state, AtomicView(ring), n);
            && Locked(Pipeline(shifted, log, ready))
            && outcome.rendered == n
            && PlayedFrom(ready, ring.writeFrame, first, log, outcome.frames)
  {
    var p := Pipeline(ring.(streamStart := first), log, state);
    var synced := p.(reader := Resynchronized(state, AtomicView(p.ring)));
    GapIsForgotten(state, ring, first, n);
    SynchronizingLocks(p);
    LockedRead(synced, n);
    ReadPlays(state, p.ring, log, n);
  }
}
