/**
 A writer that stops: what the reader plays from then on, for any sequence of request sizes.
 The published tail is played at most once, and playback resumes at the held position.
 */
module Stall {
  import opened Types
  import opened SharedAudio
  import opened Reader
  import opened LogRefinement
  import opened Controller

  ghost function Positions(start: real, ratio: real, n: nat): (positions: seq<real>)
    ensures |positions| == n
  {
    seq(n, j requires 0 <= j < n => PositionAfter(start, ratio, j))
  }

  /** The positions a call plays from a synchronised state. */
  ghost function PositionsFrom(ready: ReaderState, writeFrame: nat, n: nat, rendered: nat): seq<real>
    requires ready.targetLatencyFrames > 0
  {
    if rendered == 0 then []
    else Positions(ready.readFrame, Ratio(Max(0, writeFrame - ready.readFrame.Floor), ready.targetLatencyFrames), n)
  }

  /** The positions one call plays. */
  ghost function Played(p: Pipeline, n: nat): (positions: seq<real>)
    requires Runnable(p)
  {
    if |p.log| < Target(p) || p.ring.writeFrame < p.ring.streamStart + Target(p) then []
    else PositionsFrom(Resynchronized(p.reader, AtomicView(p.ring)), p.ring.writeFrame, n, Read(p, n).rendered)
  }

  ghost function AfterRead(p: Pipeline, n: nat): (q: Pipeline)
    requires Runnable(p)
    ensures Runnable(q) && q.ring == p.ring && q.log == p.log && Target(q) == Target(p)
  {
    p.(reader := Read(p, n).state)
  }

  /** Only reads, no writes. */
  ghost function AfterReads(p: Pipeline, requests: seq<nat>): (q: Pipeline)
    requires Runnable(p)
    ensures Runnable(q) && q.ring == p.ring && q.log == p.log && Target(q) == Target(p)
  {
    if requests == [] then p else AfterRead(AfterReads(p, requests[..|requests| - 1]), requests[|requests| - 1])
  }

  ghost function AllPlayed(p: Pipeline, requests: seq<nat>): seq<real>
    requires Runnable(p)
  {
    if requests == [] then []
    else
      var before := requests[..|requests| - 1];
      AllPlayed(p, before) + Played(AfterReads(p, before), requests[|requests| - 1])
  }

  /** A synchronised reader that has not been lapped and stands before the last published frame. */
  ghost predicate Standing(p: Pipeline) {
    && WellFormed(p)
    && p.reader.synchronized && p.reader.streamEpoch == p.ring.streamEpoch
    && p.ring.streamStart as real <= p.reader.readFrame < (p.ring.writeFrame - 1) as real
    && p.ring.writeFrame - p.reader.readFrame.Floor < CAPACITY - 2
    && |p.log| >= Target(p)
  }

  /** Strictly increasing positions from `low` on, all below `high`. */
  ghost predicate Climbs(positions: seq<real>, low: real, high: real) {
    && low <= high
    && (forall i | 0 <= i < |positions| :: low <= positions[i] < high)
    && (forall i, j | 0 <= i < j < |positions| :: positions[i] < positions[j])
  }

  lemma {:induction false} PositionsClimb(start: real, ratio: real, n: nat)
    requires start >= 0.0 && ratio >= 0.995
    ensures forall i, j | 0 <= i < j <= n :: PositionAfter(start, ratio, i) < PositionAfter(start, ratio, j)
    ensures PositionAfter(start, ratio, n) >= start + 0.995 * n as real
  {
    forall i, j | 0 <= i < j <= n ensures PositionAfter(start, ratio, i) < PositionAfter(start, ratio, j) {
      FramesBefore(ratio, i, j);
    }
    assert n as real * (ratio - 0.995) >= 0.0;
    assert n as real * (ratio - 0.995) == n as real * ratio - n as real * 0.995;
  }

  ghost function StandingRatio(p: Pipeline): (ratio: real)
    requires Runnable(p)
    ensures ratio >= 0.995
  {
    Ratio(Max(0, p.ring.writeFrame - p.reader.readFrame.Floor), Target(p))
  }

  /** A call of a standing reader either holds the position or plays on from it. */
  lemma {:induction false} StandingOutcome(p: Pipeline, n: nat) returns (outcome: Outcome)
    requires Standing(p) && n > 0
    ensures outcome == Read(p, n)
    ensures outcome.rendered == 0 ==> outcome.state == p.reader.(underrunCount := outcome.state.underrunCount)
    ensures outcome.rendered > 0 ==>
              && outcome.rendered == n
              && outcome.state == p.reader.(readFrame := PositionAfter(p.reader.readFrame, StandingRatio(p), n))
              && outcome.state.readFrame < (p.ring.writeFrame - 1) as real
  {
    SynchronizedReadDecides(p.reader, p.ring, p.log, n);
    outcome := Read(p, n);
  }

  lemma {:induction false} StandingIsReady(p: Pipeline)
    requires Standing(p)
    ensures p.ring.writeFrame >= p.ring.streamStart + Target(p)
    ensures Resynchronized(p.reader, AtomicView(p.ring)) == p.reader
  {
  }

  lemma {:induction false} PlayedOf(p: Pipeline, n: nat, ready: ReaderState, rendered: nat)
    requires Runnable(p) && |p.log| >= Target(p) && p.ring.writeFrame >= p.ring.streamStart + Target(p)
    requires ready == Resynchronized(p.reader, AtomicView(p.ring)) && rendered == Read(p, n).rendered
    ensures Played(p, n) == PositionsFrom(ready, p.ring.writeFrame, n, rendered)
  {
  }

  lemma {:induction false} FirstOfInterpolation(ready: ReaderState, start: nat, log: seq<Stereo>, frames: seq<Stereo>)
    requires start as real <= ready.readFrame && ready.targetLatencyFrames > 0
    requires frames != [] && Interpolates(ready, start, log, frames)
    ensures ready.readFrame.Floor + 1 < start + |log| && frames[0] == LogAt(start, log, ready.readFrame)
  {
    var ratio := Ratio(Max(0, start + |log| - ready.readFrame.Floor), ready.targetLatencyFrames);
    assert PositionAfter(ready.readFrame, ratio, 0) == ready.readFrame;
  }

  /** The first frame played comes from the held position. */
  lemma {:induction false} FirstFrame(p: Pipeline, n: nat, outcome: Outcome)
    requires Standing(p) && outcome == Read(p, n) && outcome.rendered > 0
    ensures p.reader.readFrame.Floor + 1 < p.ring.writeFrame
    ensures outcome.rendered == n && outcome.frames != []
            && outcome.frames[0] == LogAt(p.ring.streamStart, p.log, p.reader.readFrame)
  {
    StandingIsReady(p);
    ReadRefinesLog(p.reader, p.ring, p.log, n);
    FirstOfInterpolation(p.reader, p.ring.streamStart, p.log, outcome.frames);
  }

  lemma {:induction false} PlayedClimbs(ready: ReaderState, writeFrame: nat, n: nat, rendered: nat, after: real)
    requires ready.readFrame >= 0.0 && ready.targetLatencyFrames > 0
    requires var ratio := Ratio(Max(0, writeFrame - ready.readFrame.Floor), ready.targetLatencyFrames);
             after == if rendered == 0 then ready.readFrame else PositionAfter(ready.readFrame, ratio, n)
    ensures var played := PositionsFrom(ready, writeFrame, n, rendered);
            Climbs(played, ready.readFrame, after) && after >= ready.readFrame + 0.995 * |played| as real
  {
    if rendered != 0 {
      PositionsClimb(ready.readFrame, Ratio(Max(0, writeFrame - ready.readFrame.Floor), ready.targetLatencyFrames), n);
    }
  }

  /** A read holds the position or moves it on, and leaves the reader standing. */
  lemma {:induction false} StandingMoves(p: Pipeline, n: nat)
    requires Standing(p)
    ensures var q := AfterRead(p, n);
            && Standing(q)
            && q.reader.readFrame == if Read(p, n).rendered == 0 then p.reader.readFrame
                                     else PositionAfter(p.reader.readFrame, StandingRatio(p), n)
  {
    if n > 0 {
      var outcome := StandingOutcome(p, n);
    }
  }

  lemma {:induction false} StandingRead(p: Pipeline, n: nat)
    requires Standing(p)
    ensures var q := AfterRead(p, n);
            && Standing(q)
            && (Read(p, n).rendered == 0 ==> q.reader.readFrame == p.reader.readFrame)
            && Climbs(Played(p, n), p.reader.readFrame, q.reader.readFrame)
            && q.reader.readFrame >= p.reader.readFrame + 0.995 * |Played(p, n)| as real
  {
    StandingMoves(p, n);
    StandingIsReady(p);
    PlayedOf(p, n, p.reader, Read(p, n).rendered);
    PlayedClimbs(p.reader, p.ring.writeFrame, n, Read(p, n).rendered, Read(p, n).state.readFrame);
  }

  lemma {:induction false} ClimbsOn(a: seq<real>, b: seq<real>, low: real, middle: real, high: real)
    requires Climbs(a, low, middle) && Climbs(b, middle, high)
    ensures Climbs(a + b, low, high)
  {
  }

  /**
   Main result: however often a stopped stream is read, the positions played strictly increase, stay below
   the last published frame, and are therefore at most (W - 1 - r) / 0.995 in number.
   */
  lemma {:induction false} StallNeverReplays(p: Pipeline, requests: seq<nat>)
    requires Standing(p)
    ensures var q, played := AfterReads(p, requests), AllPlayed(p, requests);
            && Standing(q)
            && Climbs(played, p.reader.readFrame, q.reader.readFrame)
            && 0.995 * |played| as real <= q.reader.readFrame - p.reader.readFrame
            && q.reader.readFrame < (p.ring.writeFrame - 1) as real
    decreases |requests|
  {
    if requests != [] {
      var before, n := requests[..|requests| - 1], requests[|requests| - 1];
      StallNeverReplays(p, before);
      var middle := AfterReads(p, before);
      StandingRead(middle, n);
      ClimbsOn(AllPlayed(p, before), Played(middle, n), p.reader.readFrame, middle.reader.readFrame,
               AfterReads(p, requests).reader.readFrame);
    }
  }

  /**
   Main result: when the writer resumes without a gap before the held frame is overwritten, the next call
   that plays starts at exactly the held position of the extended log.
   */
  lemma {:induction false} ResumesAtHeldPosition(p: Pipeline, requests: seq<nat>, block: seq<Stereo>, n: nat)
    requires Standing(p) && n > 0
    requires p.ring.writeFrame as real < SAMPLE_TIME_LIMIT
    requires var held := AfterReads(p, requests).reader.readFrame;
             p.ring.writeFrame + |block| - held.Floor < CAPACITY - 2
    ensures var stalled := AfterReads(p, requests);
            var resumed := Append(stalled, block);
            && Runnable(resumed) && Standing(resumed)
            && resumed.reader == stalled.reader
            && (Read(resumed, n).rendered > 0 ==>
                 Read(resumed, n).rendered == n
                 && Read(resumed, n).frames[0] ==
                    LogAt(p.ring.streamStart, p.log + block, stalled.reader.readFrame))
  {
    var stalled := AfterReads(p, requests);
    StallNeverReplays(p, requests);
    AppendStands(stalled, block);
    if Read(Append(stalled, block), n).rendered > 0 {
      FirstFrame(Append(stalled, block), n, Read(Append(stalled, block), n));
    }
  }

  lemma {:induction false} AppendStands(p: Pipeline, block: seq<Stereo>)
    requires Standing(p) && p.ring.writeFrame as real < SAMPLE_TIME_LIMIT
    requires p.ring.writeFrame + |block| - p.reader.readFrame.Floor < CAPACITY - 2
    ensures Standing(Append(p, block))
    ensures Append(p, block).ring.streamStart == p.ring.streamStart
  {
    CaptureExtendsLog(p.ring, p.log, block);
  }

  /** A reader that joins, or was lapped, stands one target behind the end, ahead of every retained earlier position. */
  lemma {:induction false} SynchronizingStands(p: Pipeline)
    requires WellFormed(p) && |p.log| >= Target(p)
    requires !p.reader.synchronized || p.reader.streamEpoch != p.ring.streamEpoch
    ensures var synced := p.(reader := Resynchronized(p.reader, AtomicView(p.ring)));
            && Standing(synced)
            && forall n | n > 0 :: Read(p, n) == Read(synced, n)
  {
    SynchronizingLocks(p);
  }
}
