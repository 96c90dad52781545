/**
 The reader as a feedback controller: it reads n frames per cycle while the writer appends about as many.
 The latency is the distance from the read position to the end of the stream, measured before each read.
 */
module Controller {
  import opened Types
  import opened SharedAudio
  import opened Reader
  import opened LogRefinement
  import opened ControlArithmetic

  datatype Pipeline = Pipeline(ring: Ring, log: seq<Stereo>, reader: ReaderState)

  /** One period: the output device reads some frames, then the driver captures the next block. */
  datatype Cycle = Cycle(frames: nat, block: seq<Stereo>)

  ghost predicate WellFormed(p: Pipeline) {
    Backs(p.ring, p.log) && Follows(p.reader, p.ring.streamEpoch, p.ring.streamStart)
  }

  function Target(p: Pipeline): nat {
    p.reader.targetLatencyFrames
  }

  function Read(p: Pipeline, n: nat): Outcome
    requires |p.ring.slots| == CAPACITY && p.reader.readFrame >= 0.0 && p.reader.targetLatencyFrames > 0
  {
    ReadOutcome(p.reader, AtomicView(p.ring), n)
  }

  function Append(p: Pipeline, block: seq<Stereo>): Pipeline
    requires |p.ring.slots| == CAPACITY
  {
    p.(ring := Capture(p.ring, Some(block), Finite(p.ring.writeFrame as real), |block|), log := p.log + block)
  }

  /** The frames of a run stay below the largest sample time the driver accepts. */
  ghost predicate Representable(p: Pipeline, cycles: seq<Cycle>) {
    (p.ring.writeFrame + Appended(cycles)) as real < SAMPLE_TIME_LIMIT
  }

  ghost function Appended(cycles: seq<Cycle>): nat {
    if cycles == [] then 0 else Appended(cycles[..|cycles| - 1]) + |cycles[|cycles| - 1].block|
  }

  ghost predicate Runnable(p: Pipeline) {
    |p.ring.slots| == CAPACITY && p.reader.readFrame >= 0.0 && p.reader.targetLatencyFrames > 0
  }

  ghost function Period(p: Pipeline, cycle: Cycle): (q: Pipeline)
    requires Runnable(p)
    ensures Runnable(q) && Target(q) == Target(p)
  {
    Append(p.(reader := Read(p, cycle.frames).state), cycle.block)
  }

  ghost function Run(p: Pipeline, cycles: seq<Cycle>): (q: Pipeline)
    requires Runnable(p)
    ensures Runnable(q) && Target(q) == Target(p)
  {
    if cycles == [] then p else Period(Run(p, cycles[..|cycles| - 1]), cycles[|cycles| - 1])
  }

  ghost function Numbers(p: Pipeline): Loop {
    Loop(p.ring.writeFrame, p.reader.readFrame)
  }

  /** The reader is in synchronisation and its latency is between half and one and a half targets. */
  ghost predicate Locked(p: Pipeline) {
    && WellFormed(p)
    && p.reader.synchronized && p.reader.streamEpoch == p.ring.streamEpoch
    && |p.log| >= Target(p)
    && InBand(Numbers(p), Target(p))
  }

  /** One read of a locked reader plays and changes nothing but the position. */
  lemma {:induction false} LockedRead(p: Pipeline, n: nat)
    requires Locked(p) && 4 * n <= Target(p)
    ensures Read(p, n).rendered == n
    ensures Read(p, n).state ==
            p.reader.(readFrame := PositionAfter(p.reader.readFrame, Ratio(Available(Numbers(p)), Target(p)), n))
  {
    EnoughInBand(Latency(Numbers(p)), Available(Numbers(p)), Target(p), n);
    if n > 0 {
      SynchronizedReadDecides(p.reader, p.ring, p.log, n);
    }
  }

  /** A period of a locked reader is one step of the control loop, on a ring that still backs the log. */
  lemma {:induction false} PeriodOfLocked(p: Pipeline, cycle: Cycle)
    requires Locked(p) && 4 * cycle.frames <= Target(p)
    requires p.ring.writeFrame as real < SAMPLE_TIME_LIMIT
    ensures var q := Period(p, cycle);
            && Backs(q.ring, q.log) && q.log == p.log + cycle.block
            && q.ring.streamStart == p.ring.streamStart && q.ring.streamEpoch == p.ring.streamEpoch
            && q.reader == p.reader.(readFrame := q.reader.readFrame)
            && q.reader.readFrame >= p.reader.readFrame
            && Numbers(q) == Advance(Numbers(p), Target(p), cycle.frames, |cycle.block|)
  {
    LockedRead(p, cycle.frames);
    CaptureExtendsLog(p.ring, p.log, cycle.block);
  }

  /** Blocks that match the reads to half a percent. */
  ghost predicate Absorbable(cycle: Cycle, target: nat) {
    4 * cycle.frames <= target && NearUnitRate(cycle.frames, |cycle.block|)
  }

  lemma {:induction false} LockedPeriod(p: Pipeline, cycle: Cycle)
    requires Locked(p) && Absorbable(cycle, Target(p)) && p.ring.writeFrame as real < SAMPLE_TIME_LIMIT
    ensures Locked(Period(p, cycle))
    ensures Period(p, cycle).reader == p.reader.(readFrame := Period(p, cycle).reader.readFrame)
    ensures Numbers(Period(p, cycle)) == Advance(Numbers(p), Target(p), cycle.frames, |cycle.block|)
  {
    PeriodOfLocked(p, cycle);
    AdvanceStaysInBand(Numbers(p), Target(p), cycle.frames, |cycle.block|);
  }

  /** The first successful synchronisation, and any later one, starts at exactly the target latency. */
  lemma {:induction false} SynchronizingLocks(p: Pipeline)
    requires WellFormed(p) && |p.log| >= Target(p)
    requires !p.reader.synchronized || p.reader.streamEpoch != p.ring.streamEpoch
    ensures var synced := p.(reader := Resynchronized(p.reader, AtomicView(p.ring)));
            && Locked(synced)
            && Latency(Numbers(synced)) == Target(p) as real
            && synced.reader.resyncCount == p.reader.resyncCount + 1
            && forall n | n > 0 :: Read(p, n) == Read(synced, n)
  {
    var synced := p.(reader := Resynchronized(p.reader, AtomicView(p.ring)));
    assert Resynchronized(synced.reader, AtomicView(p.ring)) == synced.reader;
  }

  /**
   Main result: from a locked state, over every run whose blocks match the reads to half a percent, the
   reader stays locked for ever: each further read renders in full and there is no underrun and no
   resynchronisation.
   */
  lemma {:induction false} StaysLocked(p: Pipeline, cycles: seq<Cycle>, n: nat)
    requires Locked(p) && Representable(p, cycles) && 4 * n <= Target(p)
    requires forall c | c in cycles :: Absorbable(c, Target(p))
    ensures Locked(Run(p, cycles))
    ensures Run(p, cycles).ring.writeFrame == p.ring.writeFrame + Appended(cycles)
    ensures Run(p, cycles).reader == p.reader.(readFrame := Run(p, cycles).reader.readFrame)
    ensures Read(Run(p, cycles), n).rendered == n
    decreases |cycles|
  {
    if cycles != [] {
      var before, last := cycles[..|cycles| - 1], cycles[|cycles| - 1];
      StaysLocked(p, before, n);
      assert last in cycles;
      LockedPeriod(Run(p, before), last);
    }
    LockedRead(Run(p, cycles), n);
  }
}
