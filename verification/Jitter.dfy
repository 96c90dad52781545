/**
 Blocks that do not match the reads: how the latency comes back into the band while the rates still differ, and
 how far it strays when blocks come early, late or in one lump.
 */
module Jitter {
  import opened Types
  import opened SharedAudio
  import opened Products
  import opened Reader
  import opened LogRefinement
  import opened ControlArithmetic
  import opened Controller
  import opened Stall
  import opened Recovery

  // ---- Rates that differ by less than half a percent ----

  /** What the reader gains on the writer in n frames, with a margin below half a percent. */
  ghost function Headway(margin: real, n: nat): real {
    margin * n as real
  }

  lemma {:induction false} HeadwayAdds(margin: real, a: nat, b: nat)
    ensures Headway(margin, a + b) == Headway(margin, a) + Headway(margin, b)
  {
  }

  /** Block and read differ by half a percent of the read, less the margin. */
  ghost predicate Marginal(cycle: Cycle, target: nat, margin: real) {
    var n, m := cycle.frames as real, |cycle.block| as real;
    && 4 * cycle.frames <= target
    && n + Headway(margin, cycle.frames) - 0.005 * n <= m <= n + 0.005 * n - Headway(margin, cycle.frames)
  }

  ghost predicate AllMarginal(cycles: seq<Cycle>, target: nat, margin: real) {
    forall c | c in cycles :: Marginal(c, target, margin)
  }

  lemma {:induction false} LastMarginal(cycles: seq<Cycle>, target: nat, margin: real)
    requires cycles != [] && AllMarginal(cycles, target, margin)
    ensures AllMarginal(cycles[..|cycles| - 1], target, margin)
    ensures Marginal(cycles[|cycles| - 1], target, margin)
  {
  }

  /** How far the latency is from the band. */
  function BandDistance(x: Loop, target: nat): (d: real)
    ensures d >= 0.0
    ensures d == 0.0 <==> InBand(x, target)
  {
    var t := target as real;
    if Latency(x) > 1.5 * t then Latency(x) - 1.5 * t
    else if Latency(x) < 0.5 * t - 1.0 then 0.5 * t - 1.0 - Latency(x)
    else 0.0
  }

  /** In the band for good, or nearer to it by the headway. */
  ghost predicate Returns(x: Loop, y: Loop, target: nat, headway: real) {
    && (InBand(x, target) ==> InBand(y, target))
    && (InBand(y, target) || BandDistance(y, target) + headway <= BandDistance(x, target))
  }

  /** Outside the band the correction is at its limit and outruns the difference. */
  lemma {:induction false} PlayedOutside(latency: real, available: nat, target: nat, n: nat, m: nat, headway: real,
                                         consumed: real)
    requires MINIMUM_LATENCY <= target && 4 * n <= target && latency <= available as real < latency + 1.0
    requires n as real + headway - 0.005 * n as real <= m as real <= n as real + 0.005 * n as real - headway
    requires 0.0 <= headway && consumed == n as real * Ratio(available, target)
    ensures var t, next := target as real, latency - consumed + m as real;
            && (latency > 1.5 * t ==> 0.5 * t <= next <= latency - headway)
            && (latency < 0.5 * t - 1.0 ==> latency + headway <= next <= 1.5 * t)
  {
    var q, error, c, shift := CorrectionTimesFrames(available, target, n);
    LimitReturns(latency, available as real, target as real, n as real, m as real, error, q * error, shift, headway);
  }

  lemma {:induction false} LatencyIsAvailable(x: Loop)
    requires 0.0 <= Latency(x)
    ensures Latency(x) <= Available(x) as real < Latency(x) + 1.0
  {
  }

  lemma {:induction false} PlayedReturns(x: Loop, y: Loop, target: nat, n: nat, m: nat, headway: real)
    requires MINIMUM_LATENCY <= target && 4 * n <= target && NearUnitRate(n, m) && 0.0 <= Latency(x)
    requires n as real + headway - 0.005 * n as real <= m as real <= n as real + 0.005 * n as real - headway
    requires 0.0 <= headway && y == Advance(x, target, n, m)
    ensures Returns(x, y, target, headway)
    ensures (Latency(y) <= Latency(x) || Latency(y) <= 1.5 * target as real) && 0.0 <= Latency(y)
  {
    if InBand(x, target) {
      AdvanceStaysInBand(x, target, n, m);
      StillInBand(x, y, target, headway);
    } else {
      var consumed := Consumption(x, target, n, m);
      LatencyIsAvailable(x);
      PlayedOutside(Latency(x), Available(x), target, n, m, headway, consumed);
      OutsideReturns(x, y, target, headway);
    }
  }

  lemma {:induction false} StillInBand(x: Loop, y: Loop, target: nat, headway: real)
    requires MINIMUM_LATENCY <= target && InBand(x, target) && InBand(y, target)
    ensures Returns(x, y, target, headway) && 0.0 <= Latency(y) <= 1.5 * target as real
  {
  }

  lemma {:induction false} OutsideReturns(x: Loop, y: Loop, target: nat, headway: real)
    requires MINIMUM_LATENCY <= target && !InBand(x, target) && 0.0 <= headway && 0.0 <= Latency(x)
    requires var t := target as real;
             && (Latency(x) > 1.5 * t ==> 0.5 * t <= Latency(y) <= Latency(x) - headway)
             && (Latency(x) < 0.5 * t - 1.0 ==> Latency(x) + headway <= Latency(y) <= 1.5 * t)
    ensures Returns(x, y, target, headway) && 0.0 <= Latency(y)
    ensures Latency(y) <= Latency(x) || Latency(y) <= 1.5 * target as real
  {
  }

  lemma {:induction false} LimitReturns(latency: real, a: real, t: real, n: real, m: real, error: real, product: real,
                                        shift: real, headway: real)
    requires 256.0 <= t && 0.0 <= 4.0 * n <= t && latency <= a < latency + 1.0 && error == a - t
    requires Shifts(error, t, n, product, shift)
    requires n + headway - 0.005 * n <= m <= n + 0.005 * n - headway && 0.0 <= headway
    ensures latency > 1.5 * t ==> 0.5 * t <= latency - (n + shift) + m <= latency - headway
    ensures latency < 0.5 * t - 1.0 ==> latency + headway <= latency - (n + shift) + m <= 1.5 * t
  {
  }

  lemma {:induction false} HeldNumbers(x: Loop, y: Loop, target: nat, n: nat, m: nat, headway: real)
    requires MINIMUM_LATENCY <= target && 4 * n <= target && 0.0 <= Latency(x)
    requires Latency(x) + n as real < target as real - 1.0 && !InBand(x, target) && 200 * m <= 201 * n
    requires 0.0 <= headway <= m as real && y == x.(writeFrame := x.writeFrame + m)
    ensures Returns(x, y, target, headway) && 0.0 <= Latency(y) <= 1.5 * target as real
  {
  }

  lemma {:induction false} HeldIsBelow(x: Loop, target: nat, n: nat)
    requires MINIMUM_LATENCY <= target <= CAPACITY / 4 && 4 * n <= target && 0.0 <= Latency(x)
    requires Available(x) < Required(n, Ratio(Available(x), target))
    ensures Latency(x) + n as real < target as real - 1.0 && !InBand(x, target)
  {
    LatencyIsAvailable(x);
    FewFrames(n as real, Ratio(Available(x), target), target as real);
    FarBelow(Latency(x), Available(x), target, n, n as real * Ratio(Available(x), target));
    if InBand(x, target) {
      EnoughInBand(Latency(x), Available(x), target, n);
    }
  }

  /** A skipped read lets the latency grow by the block. */
  lemma {:induction false} HeldReturns(x: Loop, y: Loop, target: nat, n: nat, m: nat, headway: real)
    requires MINIMUM_LATENCY <= target <= CAPACITY / 4 && 4 * n <= target && NearUnitRate(n, m) && 0.0 <= Latency(x)
    requires 0.0 <= headway <= m as real && y == x.(writeFrame := x.writeFrame + m)
    requires Available(x) < Required(n, Ratio(Available(x), target))
    ensures Returns(x, y, target, headway) && 0.0 <= Latency(y) <= 1.5 * target as real
  {
    HeldIsBelow(x, target, n);
    HeldNumbers(x, y, target, n, m, headway);
  }

  lemma {:induction false} InBandHasRoom(x: Loop, target: nat)
    requires MINIMUM_LATENCY <= target <= CAPACITY / 4 && 0.0 <= Latency(x) <= 1.5 * target as real
    ensures Available(x) < CAPACITY - 2
  {
  }

  lemma {:induction false} MarginIsNear(n: nat, m: nat, headway: real)
    requires n as real + headway - 0.005 * n as real <= m as real <= n as real + 0.005 * n as real - headway
    requires 0.0 <= headway
    ensures NearUnitRate(n, m)
  {
  }

  lemma {:induction false} HeadwayIsSmall(margin: real, n: nat)
    requires 0.0 <= margin <= 0.005
    ensures 0.0 <= Headway(margin, n) <= 0.005 * n as real
  {
    NonNegative(margin, n as real);
    Scaled(margin, 0.005, n as real);
  }

  lemma {:induction false} StillHasRoom(x: Loop, y: Loop, target: nat)
    requires MINIMUM_LATENCY <= target <= CAPACITY / 4 && Available(x) < CAPACITY - 2
    requires 0.0 <= Latency(y) && (Latency(y) <= Latency(x) || Latency(y) <= 1.5 * target as real)
    ensures Available(y) < CAPACITY - 2
  {
    if Latency(y) <= Latency(x) {
      NoMoreAvailable(x, y);
    }
  }

  /** One cycle, whether its read plays or is skipped. */
  lemma {:induction false} MarginalNumbers(x: Loop, y: Loop, target: nat, n: nat, m: nat, headway: real)
    requires MINIMUM_LATENCY <= target <= CAPACITY / 4 && 4 * n <= target && 0.0 <= Latency(x)
    requires n as real + headway - 0.005 * n as real <= m as real <= n as real + 0.005 * n as real - headway
    requires 0.0 <= headway <= 0.005 * n as real && Available(x) < CAPACITY - 2
    requires y == if Available(x) < Required(n, Ratio(Available(x), target)) then x.(writeFrame := x.writeFrame + m)
                  else Advance(x, target, n, m)
    ensures Returns(x, y, target, headway) && Available(y) < CAPACITY - 2
  {
    MarginIsNear(n, m, headway);
    if Available(x) < Required(n, Ratio(Available(x), target)) {
      HeldReturns(x, y, target, n, m, headway);
      InBandHasRoom(y, target);
    } else {
      PlayedReturns(x, y, target, n, m, headway);
      StillHasRoom(x, y, target);
    }
  }

  /** The numbers of one cycle of a standing reader. */
  lemma {:induction false} StandingNumbers(p: Pipeline, cycle: Cycle)
    requires Standing(p) && 4 * cycle.frames <= Target(p) && p.ring.writeFrame as real < SAMPLE_TIME_LIMIT
    ensures var x, y, n, m := Numbers(p), Numbers(Period(p, cycle)), cycle.frames, |cycle.block|;
            y == if Available(x) < Required(n, Ratio(Available(x), Target(p))) then x.(writeFrame := x.writeFrame + m)
                 else Advance(x, Target(p), n, m)
    ensures Standing(AfterRead(p, cycle.frames))
    ensures Period(p, cycle) == Append(AfterRead(p, cycle.frames), cycle.block)
  {
    StandingReadCases(p, cycle.frames);
    StandingLatency(p);
    CaptureExtendsLog(p.ring, p.log, cycle.block);
  }

  lemma {:induction false} RoomStands(p: Pipeline, block: seq<Stereo>)
    requires Standing(p) && p.ring.writeFrame as real < SAMPLE_TIME_LIMIT
    requires Available(Numbers(Append(p, block))) < CAPACITY - 2
    ensures Standing(Append(p, block)) && Append(p, block).ring.writeFrame == p.ring.writeFrame + |block|
  {
    CaptureExtendsLog(p.ring, p.log, block);
  }

  /** One cycle of a standing reader. */
  lemma {:induction false} MarginalCycle(p: Pipeline, cycle: Cycle, margin: real)
    requires Standing(p) && 0.0 <= margin <= 0.005 && Marginal(cycle, Target(p), margin)
    requires p.ring.writeFrame as real < SAMPLE_TIME_LIMIT
    ensures var q := Period(p, cycle);
            && Standing(q) && q.ring.writeFrame == p.ring.writeFrame + |cycle.block|
            && Returns(Numbers(p), Numbers(q), Target(p), Headway(margin, cycle.frames))
  {
    HeadwayIsSmall(margin, cycle.frames);
    StandingLatency(p);
    StandingNumbers(p, cycle);
    MarginalNumbers(Numbers(p), Numbers(Period(p, cycle)), Target(p), cycle.frames, |cycle.block|,
                    Headway(margin, cycle.frames));
    RoomStands(AfterRead(p, cycle.frames), cycle.block);
  }

  lemma {:induction false} ReturnsTwice(x: Loop, y: Loop, z: Loop, target: nat, a: real, b: real)
    requires Returns(x, y, target, a) && Returns(y, z, target, b)
    ensures Returns(x, z, target, a + b)
  {
  }

  /** Where some cycles that gain this headway have led. */
  ghost predicate Gains(p: Pipeline, q: Pipeline, headway: real) {
    && Standing(p) && Standing(q) && Target(q) == Target(p)
    && Returns(Numbers(p), Numbers(q), Target(p), headway)
  }

  lemma {:induction false} GainsOn(p: Pipeline, q: Pipeline, r: Pipeline, a: real, b: real)
    requires Gains(p, q, a) && Gains(q, r, b)
    ensures Gains(p, r, a + b)
  {
    ReturnsTwice(Numbers(p), Numbers(q), Numbers(r), Target(p), a, b);
  }

  lemma {:induction false} GainsOnByCycle(p: Pipeline, q: Pipeline, cycle: Cycle, margin: real, total: nat)
    requires Gains(p, q, Headway(margin, total)) && 0.0 <= margin <= 0.005 && Marginal(cycle, Target(p), margin)
    requires q.ring.writeFrame as real < SAMPLE_TIME_LIMIT
    ensures Gains(p, Period(q, cycle), Headway(margin, total + cycle.frames))
    ensures Period(q, cycle).ring.writeFrame == q.ring.writeFrame + |cycle.block|
  {
    MarginalCycle(q, cycle, margin);
    HeadwayAdds(margin, total, cycle.frames);
    GainsOn(p, q, Period(q, cycle), Headway(margin, total), Headway(margin, cycle.frames));
  }

  lemma {:induction false} GainsNothing(p: Pipeline, margin: real)
    requires Standing(p)
    ensures Gains(p, p, Headway(margin, 0))
  {
    assert Headway(margin, 0) == 0.0;
  }

  lemma {:induction false} MarginalRun(p: Pipeline, cycles: seq<Cycle>, margin: real)
    returns (q: Pipeline, total: nat)
    requires Standing(p) && Representable(p, cycles) && 0.0 <= margin <= 0.005
    requires AllMarginal(cycles, Target(p), margin)
    ensures q == Run(p, cycles) && total == Asked(cycles)
    ensures Gains(p, q, Headway(margin, total)) && q.ring.writeFrame == p.ring.writeFrame + Appended(cycles)
    decreases |cycles|
  {
    if cycles == [] {
      q, total := p, 0;
      GainsNothing(p, margin);
    } else {
      var before, last := cycles[..|cycles| - 1], cycles[|cycles| - 1];
      LastMarginal(cycles, Target(p), margin);
      q, total := MarginalRun(p, before, margin);
      GainsOnByCycle(p, q, last, margin, total);
      q, total := Period(q, last), total + last.frames;
    }
  }

  /**
   Main result: from wherever a reader stands, blocks that keep a margin below half a percent bring it into the
   band within d / margin frames, where d is how far it was from the band, and there it is locked.
   */
  lemma {:induction false} ReachesBand(p: Pipeline, cycles: seq<Cycle>, margin: real)
    requires Standing(p) && Representable(p, cycles) && 0.0 < margin <= 0.005
    requires AllMarginal(cycles, Target(p), margin)
    requires Headway(margin, Asked(cycles)) > BandDistance(Numbers(p), Target(p))
    ensures Locked(Run(p, cycles))
  {
    var q, total := MarginalRun(p, cycles, margin);
  }

  // ---- Blocks that only match in the long run ----

  predicate AtMost(difference: int, bound: nat) {
    difference <= bound && -difference <= bound
  }

  /** At no moment have the blocks got ahead of the reads, or fallen behind them, by more than `bound` frames. */
  ghost predicate Balanced(cycles: seq<Cycle>, bound: nat) {
    cycles != [] ==>
      Balanced(cycles[..|cycles| - 1], bound) && AtMost(Appended(cycles) - Asked(cycles), bound)
  }

  /** Where the latency would be without the difference between blocks and reads. */
  ghost predicate InCorridor(level: real, target: nat, bound: nat) {
    var t, b := target as real, bound as real;
    t - 1.0 - b - 0.00125 * t <= level <= t + b + 0.00125 * t
  }

  lemma {:induction false} RatioSide(available: nat, target: nat)
    requires target > 0
    ensures available >= target ==> Ratio(available, target) >= 1.0
    ensures available <= target ==> Ratio(available, target) <= 1.0
  {
    var error, e := ErrorQuotient(available, target);
    QuotientBound(e, target as real, error, 0.0);
    QuotientBound(-e, target as real, -error, 0.0);
  }

  /** A read moves the level by half a percent of its frames at most, and inwards from the outside. */
  lemma {:induction false} LevelShift(available: nat, target: nat, n: nat, consumed: real)
    requires target > 0 && consumed == n as real * Ratio(available, target)
    ensures -0.005 * n as real <= consumed - n as real <= 0.005 * n as real
    ensures available >= target ==> consumed >= n as real
    ensures available <= target ==> consumed <= n as real
  {
    var ratio, m := Ratio(available, target), n as real;
    RatioSide(available, target);
    ProductBetween(0.995, ratio, 1.005, m, consumed);
    if available >= target {
      ProductBetween(1.0, ratio, 1.005, m, consumed);
    }
    if available <= target {
      ProductBetween(0.995, ratio, 1.0, m, consumed);
    }
  }

  lemma {:induction false} ProductBetween(low: real, x: real, high: real, m: real, product: real)
    requires low <= x <= high && 0.0 <= m && product == m * x
    ensures low * m <= product <= high * m
  {
    Scaled(low, x, m);
    Scaled(x, high, m);
  }

  lemma {:induction false} LevelStep(latency: real, a: real, t: real, n: real, b: real, d: real, shift: real)
    requires 256.0 <= t && 0.0 <= 4.0 * n <= t && -b <= d <= b && latency <= a < latency + 1.0
    requires -0.005 * n <= shift <= 0.005 * n && (a >= t ==> shift >= 0.0) && (a <= t ==> shift <= 0.0)
    requires t - 1.0 - b - 0.00125 * t <= latency - d <= t + b + 0.00125 * t
    ensures t - 1.0 - b - 0.00125 * t <= latency - d - shift <= t + b + 0.00125 * t
  {
  }

  /** In the corridor, with a third of the target for the difference, there is enough to read. */
  lemma {:induction false} EnoughInCorridor(latency: real, available: nat, target: nat, n: nat)
    requires MINIMUM_LATENCY <= target <= CAPACITY / 4 && 4 * n <= target
    requires 0.332 * target as real - 1.0 <= latency <= 1.668 * target as real
    requires latency <= available as real < latency + 1.0
    ensures Required(n, Ratio(available, target)) <= available < CAPACITY - 2
  {
    var x := n as real * Ratio(available, target);
    FewFrames(n as real, Ratio(available, target), target as real);
    assert (Ceil(x) - 1) as real < x;
    assert (Ceil(x) + 1) as real < 0.26 * target as real + 2.0;
    assert (Ceil(x) + 1) as real < available as real;
  }

  /** A standing reader whose latency, without the present difference, is in the corridor. */
  ghost predicate Steady(p: Pipeline, bound: nat, ahead: int) {
    && Standing(p) && AtMost(ahead, bound) && 3 * bound <= Target(p)
    && InCorridor(Latency(Numbers(p)) - ahead as real, Target(p), bound)
  }

  lemma {:induction false} SteadyLatency(latency: real, target: nat, bound: nat, ahead: int)
    requires MINIMUM_LATENCY <= target && 3 * bound <= target && AtMost(ahead, bound)
    requires InCorridor(latency - ahead as real, target, bound)
    ensures 0.332 * target as real - 1.0 <= latency <= 1.668 * target as real
    ensures var t, b := target as real, bound as real;
            t - 1.0 - 2.0 * b - 0.00125 * t <= latency <= t + 2.0 * b + 0.00125 * t
  {
  }

  /** A read of a steady reader plays. */
  lemma {:induction false} SteadyRead(p: Pipeline, n: nat, bound: nat, ahead: int)
    requires Steady(p, bound, ahead) && 4 * n <= Target(p)
    ensures Read(p, n).rendered == n
    ensures Read(p, n).state ==
            p.reader.(readFrame := PositionAfter(p.reader.readFrame, Ratio(Available(Numbers(p)), Target(p)), n))
  {
    StandingLatency(p);
    LatencyIsAvailable(Numbers(p));
    SteadyLatency(Latency(Numbers(p)), Target(p), bound, ahead);
    EnoughInCorridor(Latency(Numbers(p)), Available(Numbers(p)), Target(p), n);
    if n > 0 {
      SynchronizedReadDecides(p.reader, p.ring, p.log, n);
    }
  }

  /** One cycle in numbers. */
  lemma {:induction false} SteadyNumbers(x: Loop, target: nat, n: nat, m: nat, bound: nat, ahead: int)
    requires MINIMUM_LATENCY <= target <= CAPACITY / 4 && 4 * n <= target && 3 * bound <= target
    requires 0.0 <= Latency(x) && AtMost(ahead, bound) && AtMost(ahead + m - n, bound)
    requires InCorridor(Latency(x) - ahead as real, target, bound)
    ensures var y := Advance(x, target, n, m);
            InCorridor(Latency(y) - (ahead + m - n) as real, target, bound) && Available(y) < CAPACITY - 2
  {
    var y := Advance(x, target, n, m);
    var consumed := Consumption(x, target, n, m);
    LatencyIsAvailable(x);
    LevelShift(Available(x), target, n, consumed);
    LevelStep(Latency(x), Available(x) as real, target as real, n as real, bound as real, ahead as real,
              consumed - n as real);
    CorridorHasRoom(y, target, bound, ahead + m - n);
  }

  lemma {:induction false} CorridorHasRoom(y: Loop, target: nat, bound: nat, ahead: int)
    requires MINIMUM_LATENCY <= target <= CAPACITY / 4 && 3 * bound <= target && AtMost(ahead, bound)
    requires InCorridor(Latency(y) - ahead as real, target, bound)
    ensures Available(y) < CAPACITY - 2
  {
    SteadyLatency(Latency(y), target, bound, ahead);
    LatencyIsAvailable(y);
  }

  lemma {:induction false} PeriodOfSteady(p: Pipeline, cycle: Cycle, bound: nat, ahead: int)
    requires Steady(p, bound, ahead) && 4 * cycle.frames <= Target(p) && p.ring.writeFrame as real < SAMPLE_TIME_LIMIT
    ensures var q := Period(p, cycle);
            && Numbers(q) == Advance(Numbers(p), Target(p), cycle.frames, |cycle.block|)
            && q.reader == p.reader.(readFrame := q.reader.readFrame)
            && Standing(AfterRead(p, cycle.frames)) && q == Append(AfterRead(p, cycle.frames), cycle.block)
  {
    SteadyRead(p, cycle.frames, bound, ahead);
    StandingMoves(p, cycle.frames);
    CaptureExtendsLog(p.ring, p.log, cycle.block);
  }

  lemma {:induction false} SteadyCycle(p: Pipeline, cycle: Cycle, bound: nat, ahead: int)
    requires Steady(p, bound, ahead) && 4 * cycle.frames <= Target(p) && p.ring.writeFrame as real < SAMPLE_TIME_LIMIT
    requires AtMost(ahead + |cycle.block| - cycle.frames, bound)
    ensures var q := Period(p, cycle);
            && Steady(q, bound, ahead + |cycle.block| - cycle.frames)
            && q.ring.writeFrame == p.ring.writeFrame + |cycle.block|
            && q.reader == p.reader.(readFrame := q.reader.readFrame)
  {
    PeriodOfSteady(p, cycle, bound, ahead);
    StandingLatency(p);
    SteadyNumbers(Numbers(p), Target(p), cycle.frames, |cycle.block|, bound, ahead);
    RoomStands(AfterRead(p, cycle.frames), cycle.block);
  }

  lemma {:induction false} SteadyRun(p: Pipeline, cycles: seq<Cycle>, bound: nat) returns (q: Pipeline, ahead: int)
    requires Steady(p, bound, 0) && Representable(p, cycles) && Balanced(cycles, bound)
    requires forall c | c in cycles :: 4 * c.frames <= Target(p)
    ensures q == Run(p, cycles) && ahead == Appended(cycles) - Asked(cycles)
    ensures Steady(q, bound, ahead) && q.ring.writeFrame == p.ring.writeFrame + Appended(cycles)
    ensures q.reader == p.reader.(readFrame := q.reader.readFrame)
    decreases |cycles|
  {
    q, ahead := p, 0;
    if cycles != [] {
      var before, last := cycles[..|cycles| - 1], cycles[|cycles| - 1];
      assert last in cycles && forall c | c in before :: c in cycles;
      q, ahead := SteadyRun(p, before, bound);
      SteadyCycle(q, last, bound, ahead);
      q, ahead := Period(q, last), ahead + |last.block| - last.frames;
    }
  }

  /** A reader on its target, as after each synchronisation, is steady. */
  lemma {:induction false} OnTargetIsSteady(p: Pipeline, bound: nat)
    requires Standing(p) && OnTarget(Numbers(p), Target(p)) && 3 * bound <= Target(p)
    ensures Steady(p, bound, 0)
  {
  }

  /**
   Main result: blocks of any sizes, early, late or missing, that stay within `bound` frames of what has been
   read, `bound` being at most a third of the target, never silence a reader that starts on its target: each
   read renders in full, with no underrun and no resynchronisation, and the latency stays within twice the
   bound, a frame and 0.00125 T of the target.
   */
  lemma {:induction false} RidesOutJitter(p: Pipeline, cycles: seq<Cycle>, bound: nat, n: nat)
    requires Standing(p) && OnTarget(Numbers(p), Target(p)) && 3 * bound <= Target(p) && 4 * n <= Target(p)
    requires Representable(p, cycles) && Balanced(cycles, bound)
    requires forall c | c in cycles :: 4 * c.frames <= Target(p)
    ensures var q, t, b := Run(p, cycles), Target(p) as real, bound as real;
            && Standing(q) && q.reader == p.reader.(readFrame := q.reader.readFrame)
            && Read(q, n).rendered == n
            && t - 1.0 - 2.0 * b - 0.00125 * t <= Latency(Numbers(q)) <= t + 2.0 * b + 0.00125 * t
  {
    OnTargetIsSteady(p, bound);
    var q, ahead := SteadyRun(p, cycles, bound);
    SteadyRead(q, n, bound, ahead);
    SteadyLatency(Latency(Numbers(q)), Target(p), bound, ahead);
  }
}
