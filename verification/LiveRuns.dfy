/**
 Runs in which every read overlaps the capture of its period's block, as it does when the output device and the
 driver run side by side. They are the runs of Controller and Recovery, so all that holds there holds here.
 */
module LiveRuns {
  import opened Types
  import opened SharedAudio
  import opened Reader
  import opened LogRefinement
  import opened OverlappingReads
  import opened ControlArithmetic
  import opened Controller
  import opened Stall
  import opened Recovery

  /** One period whose read goes through the given view. */
  ghost function LivePeriod(p: Pipeline, cycle: Cycle, view: View): (q: Pipeline)
    requires Runnable(p)
    ensures Runnable(q) && Target(q) == Target(p)
  {
    Append(p.(reader := ReadOutcome(p.reader, view, cycle.frames).state), cycle.block)
  }

  ghost function LiveRun(p: Pipeline, cycles: seq<Cycle>, views: seq<View>): (q: Pipeline)
    requires Runnable(p) && |views| == |cycles|
    ensures Runnable(q) && Target(q) == Target(p)
    decreases |cycles|
  {
    if cycles == [] then p
    else
      var n := |cycles| - 1;
      LivePeriod(LiveRun(p, cycles[..n], views[..n]), cycles[n], views[n])
  }

  /** Each view is that of a call made during its period's capture. */
  ghost predicate Live(p: Pipeline, cycles: seq<Cycle>, views: seq<View>)
    requires Runnable(p)
    decreases |cycles|
  {
    |views| == |cycles| &&
    (cycles != [] ==>
       var n := |cycles| - 1;
       && Live(p, cycles[..n], views[..n])
       && Overlaps(views[n], LiveRun(p, cycles[..n], views[..n]).ring, cycles[n].block))
  }

  lemma {:induction false} LivePeriodIsPeriod(p: Pipeline, cycle: Cycle, view: View)
    requires Runnable(p) && ReadsDuring(p.reader, view, p.ring, p.log, cycle.block)
    ensures LivePeriod(p, cycle, view) == Period(p, cycle)
    ensures ReadOutcome(p.reader, view, cycle.frames) == Read(p, cycle.frames)
  {
    OverlappedReadIsRead(p.reader, view, p.ring, p.log, cycle.block, cycle.frames);
  }

  // ---- Locked ----

  /** A locked reader is never lapped by a block of a period. */
  lemma {:induction false} LockedIsSpared(p: Pipeline, view: View, block: seq<Stereo>)
    requires Locked(p) && |block| <= Target(p) && Overlaps(view, p.ring, block)
    ensures ReadsDuring(p.reader, view, p.ring, p.log, block)
  {
  }

  lemma {:induction false} LastLiveCycle(p: Pipeline, cycles: seq<Cycle>, views: seq<View>)
    requires Runnable(p) && cycles != [] && Live(p, cycles, views)
    ensures var n := |cycles| - 1;
            && Live(p, cycles[..n], views[..n])
            && Overlaps(views[n], LiveRun(p, cycles[..n], views[..n]).ring, cycles[n].block)
            && LiveRun(p, cycles, views) == LivePeriod(LiveRun(p, cycles[..n], views[..n]), cycles[n], views[n])
            && Run(p, cycles) == Period(Run(p, cycles[..n]), cycles[n])
            && Appended(cycles) == Appended(cycles[..n]) + |cycles[n].block|
            && cycles[n] in cycles && forall c | c in cycles[..n] :: c in cycles
  {
  }

  /** A live run whose blocks match the reads to half a percent is the run at rest. */
  lemma {:induction false} LiveRunIsRun(p: Pipeline, cycles: seq<Cycle>, views: seq<View>)
    requires Locked(p) && Representable(p, cycles) && Live(p, cycles, views)
    requires forall c | c in cycles :: Absorbable(c, Target(p))
    ensures LiveRun(p, cycles, views) == Run(p, cycles)
    ensures Locked(LiveRun(p, cycles, views))
    decreases |cycles|
  {
    StaysLocked(p, cycles, 0);
    if cycles != [] {
      var n := |cycles| - 1;
      LastLiveCycle(p, cycles, views);
      LiveRunIsRun(p, cycles[..n], views[..n]);
      LockedIsSpared(Run(p, cycles[..n]), views[n], cycles[n].block);
      LivePeriodIsPeriod(Run(p, cycles[..n]), cycles[n], views[n]);
    }
  }

  /**
   Main result: over every live run whose blocks match the reads to half a percent, the reader stays locked, and
   every further read, live as well, renders in full what the log holds.
   */
  lemma {:induction false} LiveStaysLocked(p: Pipeline, cycles: seq<Cycle>, views: seq<View>, next: Cycle, view: View)
    requires Locked(p) && Representable(p, cycles) && Live(p, cycles, views)
    requires forall c | c in cycles :: Absorbable(c, Target(p))
    requires Absorbable(next, Target(p)) && Overlaps(view, LiveRun(p, cycles, views).ring, next.block)
    ensures var q := LiveRun(p, cycles, views);
            var outcome := ReadOutcome(q.reader, view, next.frames);
            && Locked(q) && outcome.rendered == next.frames
            && PlayedFrom(q.reader, q.ring.writeFrame, q.ring.streamStart, q.log, outcome.frames)
  {
    LiveRunIsRun(p, cycles, views);
    var q := Run(p, cycles);
    LockedIsSpared(q, view, next.block);
    LivePeriodIsPeriod(q, next, view);
    LockedPlays(q, next.frames);
  }

  lemma {:induction false} LockedPlays(p: Pipeline, n: nat)
    requires Locked(p) && 4 * n <= Target(p)
    ensures Read(p, n).rendered == n
    ensures PlayedFrom(p.reader, p.ring.writeFrame, p.ring.streamStart, p.log, Read(p, n).frames)
  {
    LockedRead(p, n);
    if n > 0 {
      assert Resynchronized(p.reader, AtomicView(p.ring)) == p.reader;
      ReadPlays(p.reader, p.ring, p.log, n);
    }
  }

  // ---- Recovering ----

  /** There is room for a block behind the position the reader holds. */
  ghost predicate Roomy(p: Pipeline) {
    Available(Numbers(p)) + Target(p) <= CAPACITY
  }

  lemma {:induction false} NearerIsRoomy(x: Loop, y: Loop, target: nat, total: nat)
    requires 0 < target <= CAPACITY / 4 && Nearer(x, y, target, total) && 0.0 <= Latency(x)
    requires Progress(total, target) >= 0.0 && Available(x) + target <= CAPACITY
    ensures Available(y) + target <= CAPACITY
  {
    if Latency(y) > target as real && Latency(x) > target as real {
      assert y.writeFrame as real - y.readFrame <= x.writeFrame as real - x.readFrame;
    }
  }

  lemma {:induction false} StandingIsSpared(p: Pipeline, cycle: Cycle, view: View)
    requires Standing(p) && Roomy(p) && UnitRate(cycle, Target(p)) && Overlaps(view, p.ring, cycle.block)
    ensures ReadsDuring(p.reader, view, p.ring, p.log, cycle.block)
  {
    StandingIsReady(p);
  }

  lemma {:induction false} RoomyCycle(p: Pipeline, cycle: Cycle)
    requires Standing(p) && Roomy(p) && UnitRate(cycle, Target(p)) && p.ring.writeFrame as real < SAMPLE_TIME_LIMIT
    ensures Standing(Period(p, cycle)) && Roomy(Period(p, cycle))
  {
    StandingCycle(p, cycle);
    StandingLatency(p);
    ProgressIsSlow(cycle.frames, Target(p));
    NearerIsRoomy(Numbers(p), Numbers(Period(p, cycle)), Target(p), cycle.frames);
  }

  lemma {:induction false} LiveRecoveryIsRecovery(p: Pipeline, cycles: seq<Cycle>, views: seq<View>)
    requires Standing(p) && Roomy(p) && Representable(p, cycles) && Live(p, cycles, views)
    requires forall c | c in cycles :: UnitRate(c, Target(p))
    ensures LiveRun(p, cycles, views) == Run(p, cycles)
    ensures Standing(Run(p, cycles)) && Roomy(Run(p, cycles))
    ensures Run(p, cycles).ring.writeFrame == p.ring.writeFrame + Appended(cycles)
    decreases |cycles|
  {
    StandingRun(p, cycles);
    if cycles != [] {
      var n := |cycles| - 1;
      LastLiveCycle(p, cycles, views);
      LiveRecoveryIsRecovery(p, cycles[..n], views[..n]);
      StandingIsSpared(Run(p, cycles[..n]), cycles[n], views[n]);
      LivePeriodIsPeriod(Run(p, cycles[..n]), cycles[n], views[n]);
      RoomyCycle(Run(p, cycles[..n]), cycles[n]);
    }
  }

  /** Main result: live cycles at equal rates bring a standing reader with room behind it onto its target as well. */
  lemma {:induction false} LiveReachesTarget(p: Pipeline, cycles: seq<Cycle>, views: seq<View>)
    requires Standing(p) && Roomy(p) && Representable(p, cycles) && Live(p, cycles, views)
    requires forall c | c in cycles :: UnitRate(c, Target(p))
    requires Progress(Asked(cycles), Target(p)) > Distance(Numbers(p), Target(p))
    ensures var end := LiveRun(p, cycles, views);
            OnTarget(Numbers(end), Target(p)) && Locked(end) && Ratio(Available(Numbers(end)), Target(p)) == 1.0
  {
    LiveRecoveryIsRecovery(p, cycles, views);
    ReachesTarget(p, cycles);
  }
}
