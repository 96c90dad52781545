/** Real arithmetic of one read of the drift-correcting reader, with q = n / T standing for frames per target. */
module ControlArithmetic {
  import opened Types
  import opened Products
  import opened Reader

  lemma {:induction false} Product(q: real, x: real)
    requires 0.0 <= q <= 0.25 && 0.0 <= x
    ensures 0.0 <= q * x <= 0.25 * x
  {
    NonNegative(q, x);
    NonNegative(0.25 - q, x);
    assert (0.25 - q) * x == 0.25 * x - q * x;
  }

  lemma {:induction false} ProductAtLeast(q: real, x: real, product: real)
    requires 0.0 <= q <= 0.25 && 1.0 <= x && product == q * x
    ensures q <= product <= 0.25 * x
  {
    Product(q, x);
    NonNegative(q, x - 1.0);
    assert q * (x - 1.0) == q * x - q;
  }

  lemma {:induction false} Quotient(x: real, t: real) returns (q: real)
    requires t > 0.0
    ensures q == x / t && q * t == x
  {
    q := x / t;
  }

  /** Comparing a quotient with a constant is comparing the dividend with the scaled divisor. */
  lemma {:induction false} QuotientBound(q: real, t: real, x: real, c: real)
    requires t > 0.0 && q * t == x
    ensures q <= c <==> x <= c * t
  {
    if q <= c {
      Scaled(q, c, t);
    } else {
      ScaledLess(c, q, t);
    }
  }

  /** How far a read moves the latency, `product` being q times the error. */
  ghost predicate Shifts(error: real, t: real, n: real, product: real, shift: real) {
    && (-0.5 * t <= error <= 0.5 * t ==> shift == 0.01 * product)
    && (error >= 0.5 * t ==> shift == 0.005 * n)
    && (error <= -0.5 * t ==> shift == -0.005 * n)
  }

  lemma {:induction false} ErrorQuotient(available: nat, target: nat) returns (error: real, e: real)
    requires target > 0
    ensures error == available as real - target as real && e * target as real == error
    ensures Ratio(available, target) == 1.0 + ClampCorrection(e * CORRECTION_GAIN)
    ensures e <= 0.5 <==> error <= 0.5 * target as real
    ensures e >= 0.5 <==> error >= 0.5 * target as real
    ensures e <= -0.5 <==> error <= -0.5 * target as real
    ensures e >= -0.5 <==> error >= -0.5 * target as real
  {
    var t := target as real;
    error := available as real - t;
    e := Quotient(error, t);
    QuotientBound(e, t, error, 0.5);
    QuotientBound(e, t, error, -0.5);
    Negate(t, e);
    QuotientBound(-e, t, -error, -0.5);
    QuotientBound(-e, t, -error, 0.5);
  }

  lemma {:induction false} FrameQuotient(target: nat, n: nat) returns (q: real)
    requires target > 0 && 4 * n <= target
    ensures q * target as real == n as real && 0.0 <= q <= 0.25
  {
    q := Quotient(n as real, target as real);
    QuotientBound(q, target as real, n as real, 0.25);
    QuotientBound(-q, target as real, -(n as real), 0.0);
  }

  /** n reads at the corrected ratio consume n frames plus a shift proportional to the error, or clamped. */
  lemma {:induction false} CorrectionTimesFrames(available: nat, target: nat, n: nat)
    returns (q: real, error: real, consumed: real, shift: real)
    requires target > 0 && 4 * n <= target
    ensures 0.0 <= q <= 0.25 && n as real == q * target as real
    ensures error == available as real - target as real
    ensures consumed == n as real * Ratio(available, target) && consumed == n as real + shift
    ensures Shifts(error, target as real, n as real, q * error, shift)
  {
    q := FrameQuotient(target, n);
    var e;
    error, e := ErrorQuotient(available, target);
    var correction, ratio, m := ClampCorrection(e * CORRECTION_GAIN), Ratio(available, target), n as real;
    shift, consumed := m * correction, m * ratio;
    UnitPlus(m, ratio, correction);
    ShiftOfError(m, q, target as real, e, error, shift);
  }

  lemma {:induction false} ShiftOfError(m: real, q: real, t: real, e: real, error: real, shift: real)
    requires q * t == m && e * t == error && shift == m * ClampCorrection(e * CORRECTION_GAIN)
    requires (e <= 0.5 <==> error <= 0.5 * t) && (e >= 0.5 <==> error >= 0.5 * t)
    requires (e <= -0.5 <==> error <= -0.5 * t) && (e >= -0.5 <==> error >= -0.5 * t)
    ensures Shifts(error, t, m, q * error, shift)
  {
    Exchange(m, q, t, e, error);
    CorrectionOf(m, e, q * error, shift);
  }

  lemma {:induction false} QuotientIs(q: real, t: real, x: real)
    requires t > 0.0 && q * t == x
    ensures q == x / t
  {
  }

  lemma {:induction false} UnitPlus(m: real, ratio: real, c: real)
    requires ratio == 1.0 + c
    ensures m * ratio == m + m * c
  {
  }

  lemma {:induction false} Exchange(m: real, q: real, t: real, e: real, error: real)
    requires q * t == m && e * t == error
    ensures m * e == q * error
  {
    assert (q * t) * e == q * (e * t);
  }

  lemma {:induction false} CorrectionOf(m: real, e: real, product: real, shift: real)
    requires m * e == product && shift == m * ClampCorrection(e * CORRECTION_GAIN)
    ensures -0.5 <= e <= 0.5 ==> shift == 0.01 * product
    ensures e >= 0.5 ==> shift == 0.005 * m
    ensures e <= -0.5 ==> shift == -0.005 * m
  {
    if -0.5 <= e <= 0.5 {
      assert m * (e * 0.01) == 0.01 * (m * e);
    }
  }

  lemma {:induction false} ErrorAtLeast(q: real, latency: real, available: real, t: real)
    requires 0.0 <= q <= 0.25 && latency <= available && latency <= 1.5 * t
    ensures q * (available - t) >= 0.5 * (q * t) - 0.25 * (1.5 * t - latency)
  {
    Product(q, 1.5 * t - latency);
    Product(q, available - latency);
  }

  lemma {:induction false} ErrorAtMost(q: real, latency: real, available: real, t: real)
    requires 0.0 <= q <= 0.25 && available <= latency + 1.0 && 0.5 * t - 1.0 <= latency
    ensures q * (available - t) <= 0.25 * (latency + 1.0 - 0.5 * t) - 0.5 * (q * t)
  {
    ErrorAtLeast(q, -latency - 1.0 + 2.0 * t, 2.0 * t - available, t);
    Negate(q, available - t);
  }

  /** The latency before the next read, when the writer's block differs from n by at most half a percent. */
  lemma {:induction false} LatencyStaysInBand(latency: real, available: nat, target: nat, n: nat, m: nat,
                                              consumed: real)
    requires target > 0 && 4 * n <= target && 200 * m <= 201 * n && 199 * n <= 200 * m
    requires latency <= available as real < latency + 1.0
    requires 0.5 * target as real - 1.0 <= latency <= 1.5 * target as real
    requires consumed == n as real * Ratio(available, target)
    ensures 0.5 * target as real - 1.0 <= latency - consumed + m as real <= 1.5 * target as real
  {
    var q, error, _, shift := CorrectionTimesFrames(available, target, n);
    BandStep(latency, available as real, target as real, n as real, m as real, q, error, shift);
  }

  lemma {:induction false} BandStep(latency: real, a: real, t: real, n: real, m: real, q: real, error: real,
                                    shift: real)
    requires 0.0 <= 4.0 * n <= t && -0.005 * n <= m - n <= 0.005 * n
    requires 0.0 <= q <= 0.25 && n == q * t && error == a - t
    requires latency <= a < latency + 1.0 && 0.5 * t - 1.0 <= latency <= 1.5 * t
    requires Shifts(error, t, n, q * error, shift)
    ensures 0.5 * t - 1.0 <= latency - (n + shift) + m <= 1.5 * t
  {
    ErrorAtLeast(q, latency, a, t);
    ErrorAtMost(q, latency, a, t);
    BandIsKept(latency, a, t, n, m, error, q * error, shift);
  }

  lemma {:induction false} BandIsKept(latency: real, a: real, t: real, n: real, m: real, error: real, product: real,
                                      shift: real)
    requires 0.0 <= 4.0 * n <= t && -0.005 * n <= m - n <= 0.005 * n && error == a - t
    requires latency <= a < latency + 1.0 && 0.5 * t - 1.0 <= latency <= 1.5 * t
    requires 0.5 * n - 0.25 * (1.5 * t - latency) <= product <= 0.25 * (latency + 1.0 - 0.5 * t) - 0.5 * n
    requires Shifts(error, t, n, product, shift)
    ensures 0.5 * t - 1.0 <= latency - (n + shift) + m <= 1.5 * t
  {
  }

  /** Inside the band there is always enough to read, and the reader is never lapped. */
  lemma {:induction false} EnoughInBand(latency: real, available: nat, target: nat, n: nat)
    requires MINIMUM_LATENCY <= target <= SharedAudio.CAPACITY / 4 && 4 * n <= target
    requires latency <= available as real < latency + 1.0
    requires 0.5 * target as real - 1.0 <= latency <= 1.5 * target as real
    ensures Required(n, Ratio(available, target)) <= available < SharedAudio.CAPACITY - 2
  {
    var x := n as real * Ratio(available, target);
    assert x <= n as real * 1.005;
    assert (Ceil(x) - 1) as real < x;
    assert (Ceil(x) + 1) as real < 0.26 * target as real + 2.0;
    assert (Ceil(x) + 1) as real < available as real;
  }

  /** Off target, one read moves the latency towards the target by at least 0.01 n / T and never past it. */
  lemma {:induction false} ReadApproachesTarget(latency: real, available: nat, target: nat, n: nat, consumed: real)
    requires MINIMUM_LATENCY <= target && 4 * n <= target
    requires latency <= available as real < latency + 1.0
    requires consumed == n as real * Ratio(available, target)
    ensures var t, next, step := target as real, latency - consumed + n as real, 0.01 * (n as real / target as real);
            && (t - 1.0 < latency <= t ==> next == latency && Ratio(available, target) == 1.0)
            && (latency > t ==> t - 1.0 < next <= latency - step)
            && (latency <= t - 1.0 ==> t >= next >= latency + step)
  {
    if target as real - 1.0 < latency <= target as real {
      assert available == target;
      UnitRatio(target);
    } else {
      var q := OffTarget(latency, available, target, n, consumed);
      QuotientIs(q, target as real, n as real);
    }
  }

  lemma {:induction false} OffTarget(latency: real, available: nat, target: nat, n: nat, consumed: real)
    returns (q: real)
    requires MINIMUM_LATENCY <= target && 4 * n <= target
    requires latency <= available as real < latency + 1.0
    requires consumed == n as real * Ratio(available, target)
    requires latency > target as real || latency <= target as real - 1.0
    ensures q * target as real == n as real
    ensures var t, next := target as real, latency - consumed + n as real;
            && (latency > t ==> t - 1.0 < next <= latency - 0.01 * q)
            && (latency <= t - 1.0 ==> t >= next >= latency + 0.01 * q)
  {
    assert available >= target + 1 || available <= target - 1;
    var error, c, shift;
    q, error, c, shift := CorrectionTimesFrames(available, target, n);
    ApproachStep(latency, available as real, target as real, n as real, q, error, shift);
  }

  lemma {:induction false} UnitRatio(target: nat)
    requires target > 0
    ensures Ratio(target, target) == 1.0
  {
  }

  lemma {:induction false} ApproachStep(latency: real, a: real, t: real, n: real, q: real, error: real, shift: real)
    requires 256.0 <= t && 0.0 <= 4.0 * n <= t && 0.0 <= q <= 0.25 && n == q * t
    requires latency <= a < latency + 1.0 && error == a - t && (error >= 1.0 || error <= -1.0)
    requires Shifts(error, t, n, q * error, shift)
    ensures latency > t ==> t - 1.0 < latency - shift <= latency - 0.01 * q
    ensures latency <= t - 1.0 ==> t >= latency - shift >= latency + 0.01 * q
  {
    FramesPerTarget(q, t, n);
    var product := ErrorBounds(q, error);
    Approach(latency, a, t, n, q, error, product, shift);
  }

  lemma {:induction false} ErrorBounds(q: real, error: real) returns (product: real)
    requires 0.0 <= q <= 0.25
    ensures product == q * error
    ensures error >= 1.0 ==> q <= product <= 0.25 * error
    ensures error <= -1.0 ==> 0.25 * error <= product <= -q
  {
    product := q * error;
    if error >= 1.0 {
      ProductAtLeast(q, error, product);
    } else if error <= -1.0 {
      Negate(q, error);
      ProductAtLeast(q, -error, -product);
    }
  }

  lemma {:induction false} FramesPerTarget(q: real, t: real, n: real)
    requires 0.0 <= q && 256.0 <= t && n == q * t
    ensures 256.0 * q <= n
  {
  }

  lemma {:induction false} Approach(latency: real, a: real, t: real, n: real, q: real, error: real, product: real,
                                    shift: real)
    requires 256.0 <= t && 0.0 <= 4.0 * n <= t && 0.0 <= q <= 0.25 && 256.0 * q <= n
    requires latency <= a < latency + 1.0 && error == a - t && (error >= 1.0 || error <= -1.0)
    requires Shifts(error, t, n, product, shift)
    requires error >= 1.0 ==> q <= product <= 0.25 * error
    requires error <= -1.0 ==> 0.25 * error <= product <= -q
    ensures latency > t ==> t - 1.0 < latency - shift <= latency - 0.01 * q
    ensures latency <= t - 1.0 ==> t >= latency - shift >= latency + 0.01 * q
  {
  }

  // ---- The control loop in numbers ----

  /** The end of the stream and the read position, just before a read. */
  datatype Loop = Loop(writeFrame: nat, readFrame: real)

  function Latency(x: Loop): real {
    x.writeFrame as real - x.readFrame
  }

  function Available(x: Loop): nat {
    Max(0, x.writeFrame - x.readFrame.Floor)
  }

  /** The latency is between half and one and a half targets. */
  predicate InBand(x: Loop, target: nat) {
    0.5 * target as real - 1.0 <= Latency(x) <= 1.5 * target as real
  }

  /** The available frames equal the target exactly here. */
  predicate OnTarget(x: Loop, target: nat) {
    target as real - 1.0 < Latency(x) <= target as real
  }

  /** How far the latency is from the frame-wide interval below the target. */
  function Distance(x: Loop, target: nat): (d: real)
    ensures d >= 0.0
  {
    var t := target as real;
    if Latency(x) > t then Latency(x) - t
    else if Latency(x) < t - 1.0 then t - 1.0 - Latency(x)
    else 0.0
  }

  /** n frames are read, then m frames are appended. */
  function Advance(x: Loop, target: nat, n: nat, m: nat): Loop
    requires target > 0
  {
    Loop(x.writeFrame + m, PositionAfter(x.readFrame, Ratio(Available(x), target), n))
  }

  lemma {:induction false} Consumption(x: Loop, target: nat, n: nat, m: nat) returns (consumed: real)
    requires target > 0
    ensures consumed == n as real * Ratio(Available(x), target)
    ensures Latency(Advance(x, target, n, m)) == Latency(x) - consumed + m as real
  {
    consumed := n as real * Ratio(Available(x), target);
  }

  predicate NearUnitRate(n: nat, m: nat) {
    200 * m <= 201 * n && 199 * n <= 200 * m
  }

  /** Half a percent of rate difference is what the controller can absorb. */
  lemma {:induction false} AdvanceStaysInBand(x: Loop, target: nat, n: nat, m: nat)
    requires MINIMUM_LATENCY <= target && 4 * n <= target && NearUnitRate(n, m) && InBand(x, target)
    ensures InBand(Advance(x, target, n, m), target)
  {
    var consumed := Consumption(x, target, n, m);
    LatencyStaysInBand(Latency(x), Available(x), target, n, m, consumed);
  }

  /** At the upper edge of the band the correction is at its largest. */
  lemma {:induction false} UpperEdge(x: Loop, target: nat, n: nat, m: nat)
    requires MINIMUM_LATENCY <= target && 4 * n <= target && Latency(x) == 1.5 * target as real
    ensures Latency(Advance(x, target, n, m)) == Latency(x) + m as real - 1.005 * n as real
  {
    var consumed := Consumption(x, target, n, m);
    var q, error, c, shift := CorrectionTimesFrames(Available(x), target, n);
  }

  /** At the lower edge it is at its smallest. */
  lemma {:induction false} LowerEdge(x: Loop, target: nat, n: nat, m: nat)
    requires MINIMUM_LATENCY <= target && 4 * n <= target && Latency(x) == 0.5 * target as real - 1.0
    ensures Latency(Advance(x, target, n, m)) == Latency(x) + m as real - 0.995 * n as real
  {
    var consumed := Consumption(x, target, n, m);
    var q, error, c, shift := CorrectionTimesFrames(Available(x), target, n);
  }

  /**
   Main result: the band is kept whatever the latency inside it, if and only if the rates differ by at most half
   a percent.
   */
  lemma {:induction false} BandIsKeptIff(target: nat, n: nat, m: nat)
    requires MINIMUM_LATENCY <= target && 4 * n <= target
    ensures (forall x | InBand(x, target) :: InBand(Advance(x, target, n, m), target)) <==> NearUnitRate(n, m)
  {
    var high := Loop(2 * target, 0.5 * target as real);
    var low := Loop(2 * target, 1.5 * target as real + 1.0);
    assert InBand(high, target) && InBand(low, target);
    UpperEdge(high, target, n, m);
    LowerEdge(low, target, n, m);
    forall x | NearUnitRate(n, m) && InBand(x, target) ensures InBand(Advance(x, target, n, m), target) {
      AdvanceStaysInBand(x, target, n, m);
    }
  }

  /** The distance that reading some frames removes at the least. */
  function Progress(total: nat, target: nat): real
    requires target > 0
  {
    0.01 * (total as real / target as real)
  }

  /** From any latency, also where the correction is clamped, equal rates bring the loop nearer to the target. */
  lemma {:induction false} AdvanceApproachesTarget(x: Loop, target: nat, n: nat)
    requires MINIMUM_LATENCY <= target && 4 * n <= target && Latency(x) >= 0.0
    ensures var y := Advance(x, target, n, n);
            && (OnTarget(x, target) ==>
                  OnTarget(y, target) && Latency(y) == Latency(x) && Ratio(Available(x), target) == 1.0)
            && (OnTarget(y, target) ||
                  Distance(y, target) + Progress(n, target) <= Distance(x, target))
            && (if Latency(x) > target as real then target as real - 1.0 < Latency(y) <= Latency(x)
                else Latency(x) <= Latency(y) <= target as real)
  {
    var consumed := Consumption(x, target, n, n);
    ReadApproachesTarget(Latency(x), Available(x), target, n, consumed);
    ProgressIsSlow(n, target);
  }

  /** A read that has to be skipped lets the latency grow by the block, and not past the target. */
  lemma {:induction false} HoldingApproachesTarget(x: Loop, target: nat, n: nat)
    requires MINIMUM_LATENCY <= target && 4 * n <= target && Latency(x) >= 0.0
    requires Available(x) < Required(n, Ratio(Available(x), target))
    ensures var y := x.(writeFrame := x.writeFrame + n);
            && !OnTarget(x, target) && Latency(y) < target as real
            && (OnTarget(y, target) || Distance(y, target) + Progress(n, target) <= Distance(x, target))
  {
    var ratio := Ratio(Available(x), target);
    FewFrames(n as real, ratio, target as real);
    FarBelow(Latency(x), Available(x), target, n, n as real * ratio);
    ProgressIsSlow(n, target);
  }

  lemma {:induction false} FarBelow(latency: real, available: nat, target: nat, n: nat, consumed: real)
    requires MINIMUM_LATENCY <= target && 4 * n <= target
    requires latency <= available as real && available < Ceil(consumed) + 2 && consumed <= 0.26 * target as real
    ensures latency + n as real < target as real - 1.0
  {
    assert (Ceil(consumed) - 1) as real < consumed;
    assert (available - 2) as real <= (Ceil(consumed) - 1) as real;
  }

  lemma {:induction false} FewFrames(n: real, ratio: real, t: real)
    requires 0.0 <= 4.0 * n <= t && 0.995 <= ratio <= 1.005
    ensures n * ratio <= 0.26 * t
  {
  }

  lemma {:induction false} ProgressIsSlow(n: nat, target: nat)
    requires target >= 1
    ensures 0.0 <= Progress(n, target) <= n as real
  {
    var q := Quotient(n as real, target as real);
    NonNegative(q, target as real);
    QuotientBound(q, target as real, n as real, n as real);
    QuotientBound(-q, target as real, -(n as real), 0.0);
  }

  lemma {:induction false} ProgressAdds(x: nat, y: nat, target: nat)
    requires target > 0
    ensures Progress(x + y, target) == Progress(x, target) + Progress(y, target)
  {
  }
}
