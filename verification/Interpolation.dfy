/**
 What interpolation means for the listener: a straight line is played as that line, and nothing played leaves the
 range of the two samples around its position.
 */
module Interpolation {
  import opened Types
  import opened Products
  import opened SharedAudio
  import opened Reader
  import opened LogRefinement

  /** A sample on the line through `at` with the given slope, some frames on. */
  ghost predicate OnLine(x: Stereo, at: Stereo, slope: Stereo, distance: real) {
    x.left == at.left + slope.left * distance && x.right == at.right + slope.right * distance
  }

  /** The log rises by fixed amounts per frame. */
  ghost predicate IsLine(log: seq<Stereo>, at: Stereo, slope: Stereo) {
    forall i | 0 <= i < |log| :: OnLine(log[i], at, slope, i as real)
  }

  /** x lies between a and b. */
  predicate Between(a: real, x: real, b: real) {
    a <= x <= b || b <= x <= a
  }

  lemma {:induction false} LineBetween(at: real, slope: real, i: int, f: real, a: real, b: real, x: real)
    requires a == at + slope * i as real && b == at + slope * (i + 1) as real
    requires x == a + (b - a) * f
    ensures x == at + slope * (i as real + f)
  {
    assert b - a == slope;
    assert slope * (i as real + f) == slope * i as real + slope * f;
  }

  lemma {:induction false} MixIsBetween(a: real, b: real, f: real)
    requires 0.0 <= f <= 1.0
    ensures Between(a, a + (b - a) * f, b)
  {
    if a <= b {
      NonNegative(b - a, f);
      NonNegative(b - a, 1.0 - f);
    } else {
      NonNegative(a - b, f);
      NonNegative(a - b, 1.0 - f);
    }
    assert (b - a) * (1.0 - f) == (b - a) - (b - a) * f;
    Negate(f, a - b);
  }

  lemma {:induction false} LogAtOnLine(start: nat, log: seq<Stereo>, p: real, at: Stereo, slope: Stereo)
    requires start as real <= p && p.Floor + 1 < start + |log| && IsLine(log, at, slope)
    ensures OnLine(LogAt(start, log, p), at, slope, p - start as real)
  {
    var i, f, x := p.Floor - start, p - p.Floor as real, LogAt(start, log, p);
    assert OnLine(log[i], at, slope, i as real) && OnLine(log[i + 1], at, slope, (i + 1) as real);
    LineBetween(at.left, slope.left, i, f, log[i].left, log[i + 1].left, x.left);
    LineBetween(at.right, slope.right, i, f, log[i].right, log[i + 1].right, x.right);
  }

  lemma {:induction false} LogAtIsBetween(start: nat, log: seq<Stereo>, p: real)
    requires start as real <= p && p.Floor + 1 < start + |log|
    ensures var x, i := LogAt(start, log, p), p.Floor - start;
            && Between(log[i].left, x.left, log[i + 1].left)
            && Between(log[i].right, x.right, log[i + 1].right)
  {
    var i, f := p.Floor - start, p - p.Floor as real;
    MixIsBetween(log[i].left, log[i + 1].left, f);
    MixIsBetween(log[i].right, log[i + 1].right, f);
  }

  /** Where frame j of a call is taken from. */
  ghost function Source(ready: ReaderState, writeFrame: nat, j: nat): real
    requires ready.targetLatencyFrames > 0
  {
    PositionAfter(ready.readFrame,
                  Ratio(Max(0, writeFrame - ready.readFrame.Floor), ready.targetLatencyFrames), j)
  }

  lemma {:induction false} FrameFollowsLine(ready: ReaderState, writeFrame: nat, start: nat, log: seq<Stereo>,
                                            frames: seq<Stereo>, at: Stereo, slope: Stereo, j: nat, p: real)
    requires ready.targetLatencyFrames > 0 && PlayedFrom(ready, writeFrame, start, log, frames)
    requires IsLine(log, at, slope) && j < |frames| && p == Source(ready, writeFrame, j)
    ensures OnLine(frames[j], at, slope, p - start as real)
  {
    assert frames[j] == LogAt(start, log, p);
    LogAtOnLine(start, log, p, at, slope);
  }

  /** The frames are on the line, each at the position it was taken from. */
  ghost predicate FollowsLine(ready: ReaderState, writeFrame: nat, start: nat, frames: seq<Stereo>, at: Stereo,
                              slope: Stereo)
    requires ready.targetLatencyFrames > 0
  {
    forall j | 0 <= j < |frames| :: OnLine(frames[j], at, slope, Source(ready, writeFrame, j) - start as real)
  }

  /**
   Main result: on a stream that rises by fixed amounts per frame, whatever call plays it, each frame played is
   the value of that line at the position it was taken from.
   */
  lemma {:induction false} LinesStayLines(ready: ReaderState, writeFrame: nat, start: nat, log: seq<Stereo>,
                                          frames: seq<Stereo>, at: Stereo, slope: Stereo)
    requires ready.targetLatencyFrames > 0 && PlayedFrom(ready, writeFrame, start, log, frames)
    requires IsLine(log, at, slope)
    ensures FollowsLine(ready, writeFrame, start, frames, at, slope)
  {
    forall j | 0 <= j < |frames|
      ensures OnLine(frames[j], at, slope, Source(ready, writeFrame, j) - start as real)
    {
      FrameFollowsLine(ready, writeFrame, start, log, frames, at, slope, j, Source(ready, writeFrame, j));
    }
  }

  /**
   Main result: every frame played lies, channel by channel, between the two frames of the stream around the
   position it was taken from, so that a call is never louder than what was captured.
   */
  lemma {:induction false} PlayedIsBetween(ready: ReaderState, writeFrame: nat, start: nat, log: seq<Stereo>,
                                           frames: seq<Stereo>, j: nat)
    requires ready.targetLatencyFrames > 0 && PlayedFrom(ready, writeFrame, start, log, frames) && j < |frames|
    ensures var i := Source(ready, writeFrame, j).Floor - start;
            && 0 <= i && i + 1 < |log|
            && Between(log[i].left, frames[j].left, log[i + 1].left)
            && Between(log[i].right, frames[j].right, log[i + 1].right)
  {
    LogAtIsBetween(start, log, Source(ready, writeFrame, j));
  }

  lemma {:induction false} ReadFollowsLine(state: ReaderState, ring: Ring, log: seq<Stereo>, n: nat, at: Stereo,
                                           slope: Stereo) returns (ready: ReaderState, frames: seq<Stereo>)
    requires Backs(ring, log) && Follows(state, ring.streamEpoch, ring.streamStart)
    requires IsLine(log, at, slope) && ReadOutcome(state, AtomicView(ring), n).rendered > 0
    ensures ring.streamStart + state.targetLatencyFrames <= ring.writeFrame
    ensures ready == Resynchronized(state, AtomicView(ring)) && ready.targetLatencyFrames > 0
    ensures frames == ReadOutcome(state, AtomicView(ring), n).frames
    ensures FollowsLine(ready, ring.writeFrame, ring.streamStart, frames, at, slope)
  {
    ReadPlays(state, ring, log, n);
    ready, frames := Resynchronized(state, AtomicView(ring)), ReadOutcome(state, AtomicView(ring), n).frames;
    LinesStayLines(ready, ring.writeFrame, ring.streamStart, log, frames, at, slope);
  }
}
