/**
 How a reader reaches its target latency when blocks equal reads, from wherever it stands: after a stall it may
 be far below the band, after a burst far above it, and some of its reads may have to be skipped.
 */
module Recovery {
  import opened Types
  import opened SharedAudio
  import opened Reader
  import opened LogRefinement
  import opened ControlArithmetic
  import opened Controller
  import opened Stall

  ghost predicate UnitRate(cycle: Cycle, target: nat) {
    4 * cycle.frames <= target && |cycle.block| == cycle.frames
  }

  /** All frames asked for in a run. */
  ghost function Asked(cycles: seq<Cycle>): nat {
    if cycles == [] then 0 else Asked(cycles[..|cycles| - 1]) + cycles[|cycles| - 1].frames
  }

  /** No farther from the target by at least what reading `total` frames must gain, or there. */
  ghost predicate Nearer(x: Loop, y: Loop, target: nat, total: nat)
    requires target > 0
  {
    && (OnTarget(x, target) ==> OnTarget(y, target) && Latency(y) == Latency(x))
    && (OnTarget(y, target) || Distance(y, target) + Progress(total, target) <= Distance(x, target))
  }

  lemma {:induction false} NearerTwice(x: Loop, y: Loop, z: Loop, target: nat, a: nat, b: nat)
    requires target > 0 && Nearer(x, y, target, a) && Nearer(y, z, target, b)
    ensures Nearer(x, z, target, a + b)
  {
    ProgressAdds(a, b, target);
  }

  /** The reader after one read: either the loop of the controller, or held. */
  lemma {:induction false} StandingReadCases(p: Pipeline, n: nat)
    requires Standing(p)
    ensures Standing(AfterRead(p, n))
    ensures var available, q := Available(Numbers(p)), AfterRead(p, n);
            if available < Required(n, Ratio(available, Target(p))) then q.reader.readFrame == p.reader.readFrame
            else q.reader.readFrame == PositionAfter(p.reader.readFrame, Ratio(available, Target(p)), n)
  {
    StandingRead(p, n);
    if n > 0 {
      SynchronizedReadDecides(p.reader, p.ring, p.log, n);
    }
  }

  lemma {:induction false} StandingLatency(p: Pipeline)
    requires Standing(p)
    ensures 1.0 < Latency(Numbers(p))
    ensures Available(Numbers(p)) == p.ring.writeFrame - p.reader.readFrame.Floor < CAPACITY - 2
  {
  }

  lemma {:induction false} NoMoreAvailable(x: Loop, y: Loop)
    requires 0.0 <= Latency(y) <= Latency(x)
    ensures Available(y) <= Available(x)
  {
  }

  /** A cycle whose read is skipped. */
  lemma {:induction false} HeldCycle(x: Loop, y: Loop, target: nat, n: nat)
    requires MINIMUM_LATENCY <= target <= CAPACITY / 4 && 4 * n <= target && Latency(x) >= 0.0
    requires Available(x) < Required(n, Ratio(Available(x), target)) && y == x.(writeFrame := x.writeFrame + n)
    ensures Nearer(x, y, target, n) && 0.0 <= Latency(y) && Available(y) < CAPACITY - 2
  {
    HoldingApproachesTarget(x, target, n);
  }

  /** A cycle whose read plays. */
  lemma {:induction false} PlayedCycle(x: Loop, y: Loop, target: nat, n: nat)
    requires MINIMUM_LATENCY <= target <= CAPACITY / 4 && 4 * n <= target
    requires Latency(x) >= 0.0 && Available(x) < CAPACITY - 2 && y == Advance(x, target, n, n)
    ensures Nearer(x, y, target, n) && 0.0 <= Latency(y) && Available(y) < CAPACITY - 2
  {
    AdvanceApproachesTarget(x, target, n);
    PlayedBounds(x, y, target);
  }

  lemma {:induction false} PlayedBounds(x: Loop, y: Loop, target: nat)
    requires MINIMUM_LATENCY <= target <= CAPACITY / 4 && 0.0 <= Latency(x) && Available(x) < CAPACITY - 2
    requires Latency(x) > target as real ==> target as real - 1.0 < Latency(y) <= Latency(x)
    requires Latency(x) <= target as real ==> Latency(x) <= Latency(y) <= target as real
    ensures 0.0 <= Latency(y) && Available(y) < CAPACITY - 2
  {
    if Latency(x) > target as real {
      NoMoreAvailable(x, y);
    }
  }

  /** One cycle of a standing reader. */
  lemma {:induction false} StandingCycle(p: Pipeline, cycle: Cycle)
    requires Standing(p) && UnitRate(cycle, Target(p)) && p.ring.writeFrame as real < SAMPLE_TIME_LIMIT
    ensures var q := Period(p, cycle);
            && Standing(q) && q.ring.writeFrame == p.ring.writeFrame + cycle.frames
            && Nearer(Numbers(p), Numbers(q), Target(p), cycle.frames)
  {
    var read, q := AfterRead(p, cycle.frames), Period(p, cycle);
    StandingReadCases(p, cycle.frames);
    StandingLatency(p);
    CaptureExtendsLog(p.ring, p.log, cycle.block);
    if Available(Numbers(p)) < Required(cycle.frames, Ratio(Available(Numbers(p)), Target(p))) {
      HeldCycle(Numbers(p), Numbers(q), Target(p), cycle.frames);
    } else {
      PlayedCycle(Numbers(p), Numbers(q), Target(p), cycle.frames);
    }
  }

  /** Where some cycles that ask for `total` frames have led. */
  ghost predicate Leads(p: Pipeline, q: Pipeline, total: nat) {
    && Standing(p) && Standing(q) && Target(q) == Target(p)
    && Nearer(Numbers(p), Numbers(q), Target(p), total)
  }

  lemma {:induction false} LeadsOn(p: Pipeline, q: Pipeline, r: Pipeline, a: nat, b: nat)
    requires Leads(p, q, a) && Leads(q, r, b)
    ensures Leads(p, r, a + b)
  {
    NearerTwice(Numbers(p), Numbers(q), Numbers(r), Target(p), a, b);
  }

  lemma {:induction false} LeadsNowhere(p: Pipeline)
    requires Standing(p)
    ensures Leads(p, p, 0)
  {
    assert Progress(0, Target(p)) == 0.0;
  }

  lemma {:induction false} LeadsOnByCycle(p: Pipeline, q: Pipeline, cycle: Cycle, total: nat)
    requires Leads(p, q, total) && UnitRate(cycle, Target(p)) && q.ring.writeFrame as real < SAMPLE_TIME_LIMIT
    ensures Leads(p, Period(q, cycle), total + cycle.frames)
    ensures Period(q, cycle).ring.writeFrame == q.ring.writeFrame + cycle.frames
  {
    StandingCycle(q, cycle);
    LeadsOn(p, q, Period(q, cycle), total, cycle.frames);
  }

  lemma {:induction false} LastCycle(p: Pipeline, cycles: seq<Cycle>)
    requires Runnable(p) && cycles != []
    ensures var before, last := cycles[..|cycles| - 1], cycles[|cycles| - 1];
            && last in cycles
            && (forall c | c in before :: c in cycles)
            && Run(p, cycles) == Period(Run(p, before), last)
            && Asked(cycles) == Asked(before) + last.frames
            && Appended(cycles) == Appended(before) + |last.block|
  {
  }

  lemma {:induction false} StandingRun(p: Pipeline, cycles: seq<Cycle>)
    requires Standing(p) && Representable(p, cycles)
    requires forall c | c in cycles :: UnitRate(c, Target(p))
    ensures Leads(p, Run(p, cycles), Asked(cycles))
    ensures Run(p, cycles).ring.writeFrame == p.ring.writeFrame + Appended(cycles)
    decreases |cycles|
  {
    if cycles == [] {
      LeadsNowhere(p);
    } else {
      var before, last := cycles[..|cycles| - 1], cycles[|cycles| - 1];
      LastCycle(p, cycles);
      StandingRun(p, before);
      LeadsOnByCycle(p, Run(p, before), last, Asked(before));
    }
  }

  lemma {:induction false} OnTargetLocks(p: Pipeline)
    requires Standing(p) && OnTarget(Numbers(p), Target(p))
    ensures Locked(p) && Ratio(Available(Numbers(p)), Target(p)) == 1.0
  {
    assert Available(Numbers(p)) == Target(p);
    UnitRatio(Target(p));
  }

  /**
   Main result: from wherever a reader stands, with blocks equal to the reads, N frames asked for bring the
   latency 0.01 N / T nearer to the frame-wide interval below the target. There it stays for ever, the ratio is
   exactly 1, and the reader is locked.
   */
  lemma {:induction false} ReachesTarget(p: Pipeline, cycles: seq<Cycle>)
    requires Standing(p) && Representable(p, cycles)
    requires forall c | c in cycles :: UnitRate(c, Target(p))
    requires OnTarget(Numbers(p), Target(p)) ||
             Progress(Asked(cycles), Target(p)) > Distance(Numbers(p), Target(p))
    ensures var end := Run(p, cycles);
            && OnTarget(Numbers(end), Target(p)) && Locked(end)
            && Ratio(Available(Numbers(end)), Target(p)) == 1.0
            && (OnTarget(Numbers(p), Target(p)) ==> Latency(Numbers(end)) == Latency(Numbers(p)))
  {
    StandingRun(p, cycles);
    OnTargetLocks(Run(p, cycles));
  }

  /**
   Main result: after a stall, or anything else that leaves the reader standing, enough cycles at equal rates
   lock it, and from then on every read of every run within half a percent renders in full.
   */
  lemma {:induction false} RecoversForGood(p: Pipeline, recovery: seq<Cycle>, later: seq<Cycle>, n: nat)
    requires Standing(p) && Representable(p, recovery + later) && 4 * n <= Target(p)
    requires forall c | c in recovery :: UnitRate(c, Target(p))
    requires forall c | c in later :: Absorbable(c, Target(p))
    requires Progress(Asked(recovery), Target(p)) > Distance(Numbers(p), Target(p))
    ensures Locked(Run(Run(p, recovery), later))
    ensures Read(Run(Run(p, recovery), later), n).rendered == n
  {
    AppendedInParts(recovery, later);
    ReachesTarget(p, recovery);
    StandingRun(p, recovery);
    StaysLocked(Run(p, recovery), later, n);
  }

  lemma {:induction false} AppendedInParts(a: seq<Cycle>, b: seq<Cycle>)
    ensures Appended(a + b) == Appended(a) + Appended(b)
    decreases |b|
  {
    if b == [] {
      assert a + b == a;
    } else {
      assert (a + b)[..|a + b| - 1] == a + b[..|b| - 1];
      AppendedInParts(a, b[..|b| - 1]);
    }
  }

  /** A lapped reader gives up its position and locks with its next call. */
  lemma {:induction false} LappedReaderLocks(p: Pipeline, n: nat)
    requires WellFormed(p) && |p.log| >= Target(p) && n > 0
    requires p.reader.synchronized && p.reader.streamEpoch == p.ring.streamEpoch
    requires p.ring.writeFrame - p.reader.readFrame.Floor >= CAPACITY - 2
    ensures var q := AfterRead(p, n);
            && Read(p, n) == Silent(q.reader, n) && !q.reader.synchronized
            && Locked(q.(reader := Resynchronized(q.reader, AtomicView(q.ring))))
  {
    SynchronizedReadDecides(p.reader, p.ring, p.log, n);
    SynchronizingLocks(AfterRead(p, n));
  }
}
