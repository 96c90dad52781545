/** The gain ramp of forwarder/AudioProcessor.c. */
module Gain {
  import opened Types
  import opened Products

  function ClampGain(gain: Float): (r: real)
    ensures 0.0 <= r <= 1.0
    ensures gain.Finite? && 0.0 <= gain.value <= 1.0 ==> r == gain.value
  {
    if gain.NotFinite? || gain.value < 0.0 then 0.0
    else if gain.value > 1.0 then 1.0
    else gain.value
  }

  /** The ramp length in frames: a duration that is unusable or too long counts as one frame. */
  function RampFrames(sampleRate: Float, rampMilliseconds: Float): (frames: nat)
    ensures 1 <= frames < UINT32_RANGE
  {
    if sampleRate.Finite? && sampleRate.value > 0.0 && rampMilliseconds.Finite? && rampMilliseconds.value > 0.0 then
      var frames := sampleRate.value * rampMilliseconds.value / 1000.0;
      if 1.0 <= frames <= (UINT32_RANGE - 1) as real then frames.Floor else 1
    else 1
  }

  /** The clamped gain is the nearest one in [0, 1]; a value that is no number is silence. */
  lemma {:induction false} ClampIsNearest(gain: Float, y: real)
    requires 0.0 <= y <= 1.0
    ensures gain.Finite? ==> Abs(ClampGain(gain) - gain.value) <= Abs(y - gain.value)
    ensures gain.NotFinite? ==> ClampGain(gain) == 0.0
  {
  }

  /**
   The ramp is as many whole frames as fit into the duration asked for, so it is over in time and less than a
   frame early, when these are at least one and at most 2^32 - 1; otherwise it is one frame.
   */
  lemma {:induction false} RampFillsDuration(rate: real, milliseconds: real, sampleRate: Float, rampMilliseconds: Float)
    requires rate > 0.0 && milliseconds > 0.0 && sampleRate == Finite(rate) && rampMilliseconds == Finite(milliseconds)
    ensures var n := RampFrames(sampleRate, rampMilliseconds) as real;
            if 1000.0 <= rate * milliseconds <= 4294967295000.0
            then n * 1000.0 <= rate * milliseconds < (n + 1.0) * 1000.0 else n == 1.0
  {
    var product := rate * milliseconds;
    assert (product / 1000.0) * 1000.0 == product;
  }

  /** Without a usable rate or duration there is no ramp. */
  lemma {:induction false} RampNeedsDuration(sampleRate: Float, rampMilliseconds: Float)
    requires sampleRate.NotFinite? || sampleRate.value <= 0.0 || rampMilliseconds.NotFinite?
             || rampMilliseconds.value <= 0.0
    ensures RampFrames(sampleRate, rampMilliseconds) == 1
  {
  }

  datatype Ramp = Ramp(target: real, current: real, rampTarget: real, remaining: nat, length: nat)

  /** A changed target starts a new ramp. */
  function Retargeted(ramp: Ramp): Ramp {
    if ramp.target != ramp.rampTarget then ramp.(rampTarget := ramp.target, remaining := ramp.length) else ramp
  }

  /** The ramp after one frame; its `current` is the gain of that frame. */
  function NextFrame(ramp: Ramp): Ramp {
    var r := Retargeted(ramp);
    if r.remaining > 0 then
      r.(current := r.current + (r.rampTarget - r.current) / r.remaining as real, remaining := r.remaining - 1)
    else r.(current := r.rampTarget)
  }

  function AfterFrames(ramp: Ramp, n: nat): Ramp {
    if n == 0 then ramp else NextFrame(AfterFrames(ramp, n - 1))
  }

  /** The gain of frame k (from 0) of the next call. */
  function GainOfFrame(ramp: Ramp, k: nat): real {
    AfterFrames(ramp, k + 1).current
  }

  class GainProcessor {
    var targetGain: real
    var currentGain: real
    var rampTarget: real
    var rampFramesRemaining: nat
    var rampLengthFrames: nat

    ghost function Value(): Ramp
      reads this
    {
      Ramp(targetGain, currentGain, rampTarget, rampFramesRemaining, rampLengthFrames)
    }

    constructor (initialGain: Float, sampleRate: Float, rampMilliseconds: Float)
      ensures Value() == Ramp(ClampGain(initialGain), ClampGain(initialGain), ClampGain(initialGain), 0,
                              RampFrames(sampleRate, rampMilliseconds))
      ensures Smooth(Value())
    {
      var gain := ClampGain(initialGain);
      targetGain, currentGain, rampTarget := gain, gain, gain;
      rampFramesRemaining := 0;
      rampLengthFrames := RampFrames(sampleRate, rampMilliseconds);
    }

    method SetTarget(gain: Float)
      modifies this`targetGain
      ensures Value() == old(Value()).(target := ClampGain(gain))
    {
      targetGain := ClampGain(gain);
    }

    method GainForNextFrame() returns (gain: real)
      modifies this
      ensures Value() == NextFrame(old(Value())) && gain == Value().current
    {
      var target := targetGain;
      if target != rampTarget {
        rampTarget := target;
        rampFramesRemaining := rampLengthFrames;
      }
      if rampFramesRemaining > 0 {
        var distance := rampTarget - currentGain;
        currentGain := currentGain + distance / rampFramesRemaining as real;
        rampFramesRemaining := rampFramesRemaining - 1;
      } else {
        currentGain := rampTarget;
      }
      gain := currentGain;
    }
  }

  // ---- Arithmetic of one frame ----

  /** One step of a ramp covers the n-th part of the distance and leaves the rest. */
  lemma {:induction false} RampStep(current: real, target: real, n: nat, next: real)
    requires n > 0 && next == current + (target - current) / n as real
    ensures (next - current) * n as real == target - current
    ensures (target - next) * n as real == (target - current) * (n - 1) as real
  {
    var d, m := target - current, n as real;
    var step := d / m;
    assert step * m == d;
    assert (d - step) * m == d * m - step * m;
  }

  /** |d| L <= n spreads over n steps: each is at most 1 / L, and the rest still satisfies the bound. */
  lemma {:induction false} StepBound(d: real, step: real, rest: real, n: nat, length: nat)
    requires 0 < n && 0 < length
    requires step * n as real == d && rest * n as real == d * (n - 1) as real
    requires Abs(d) * length as real <= n as real
    ensures Abs(step) * length as real <= 1.0
    ensures Abs(rest) * length as real <= (n - 1) as real
  {
    var m, l := n as real, length as real;
    AbsOfProduct(step, m);
    AbsOfProduct(rest, m);
    AbsOfProduct(d, (n - 1) as real);
    assert (Abs(step) * l) * m == Abs(d) * l;
    Unscaled(Abs(step) * l, 1.0, m);
    assert (Abs(rest) * l) * m == (Abs(d) * l) * (m - 1.0);
    Scaled(Abs(d) * l, m, m - 1.0);
    Unscaled(Abs(rest) * l, m - 1.0, m);
  }

  /** A positive multiple of at least one lies on the same side and no nearer to zero. */
  lemma {:induction false} PartOf(step: real, m: real, d: real)
    requires m >= 1.0 && step * m == d
    ensures d >= 0.0 ==> 0.0 <= step <= d
    ensures d <= 0.0 ==> d <= step <= 0.0
  {
    if d >= 0.0 {
      Unscaled(0.0, step, m);
      Scaled(1.0, m, step);
    }
    if d <= 0.0 {
      Unscaled(step, 0.0, m);
      Scaled(1.0, m, -step);
      assert m * -step == -d;
    }
  }

  // ---- No clicks ----

  /** A distance of at most n / length. */
  predicate Within(x: real, y: real, n: nat, length: nat) {
    Abs(x - y) * length as real <= n as real
  }

  /** The invariant: what is left of the ramp can be covered in steps of at most 1 / length. */
  ghost predicate Smooth(r: Ramp) {
    && r.length >= 1 && r.remaining <= r.length
    && 0.0 <= r.target <= 1.0 && 0.0 <= r.rampTarget <= 1.0 && 0.0 <= r.current <= 1.0
    && Within(r.rampTarget, r.current, r.remaining, r.length)
  }

  lemma {:induction false} StepIsSmooth(current: real, target: real, next: real, n: nat, length: nat)
    requires n > 0 && length > 0 && next == current + (target - current) / n as real
    requires Within(target, current, n, length) && 0.0 <= current <= 1.0 && 0.0 <= target <= 1.0
    ensures Within(next, current, 1, length) && Within(target, next, n - 1, length) && 0.0 <= next <= 1.0
  {
    var d, step, rest := target - current, next - current, target - next;
    RampStep(current, target, n, next);
    StepBound(d, step, rest, n, length);
    PartOf(step, n as real, d);
    StaysBetween(current, target, next);
  }

  lemma {:induction false} StaysBetween(current: real, target: real, next: real)
    requires 0.0 <= current <= 1.0 && 0.0 <= target <= 1.0
    requires target >= current ==> current <= next <= target
    requires target <= current ==> target <= next <= current
    ensures 0.0 <= next <= 1.0
  {
  }

  lemma {:induction false} NoDistanceLeft(x: real, y: real, length: nat)
    requires length >= 1 && Within(x, y, 0, length)
    ensures x == y
  {
    Unscaled(Abs(x - y), 0.0, length as real);
  }

  lemma {:induction false} WholeRange(x: real, y: real, length: nat)
    requires 0.0 <= x <= 1.0 && 0.0 <= y <= 1.0
    ensures Within(x, y, length, length)
  {
    Scaled(Abs(x - y), 1.0, length as real);
  }

  lemma {:induction false} RetargetingIsSmooth(r: Ramp)
    requires Smooth(r)
    ensures Smooth(Retargeted(r)) && Retargeted(r).current == r.current && Retargeted(r).length == r.length
  {
    WholeRange(r.target, r.current, r.length);
  }

  lemma {:induction false} RampingIsSmooth(r: Ramp)
    requires Smooth(r) && r.target == r.rampTarget
    ensures Smooth(NextFrame(r)) && Within(NextFrame(r).current, r.current, 1, r.length)
  {
    if r.remaining > 0 {
      StepIsSmooth(r.current, r.rampTarget, NextFrame(r).current, r.remaining, r.length);
    } else {
      NoDistanceLeft(r.rampTarget, r.current, r.length);
    }
  }

  /** Every frame keeps the invariant and moves the gain by at most 1 / length. */
  lemma {:induction false} FrameIsSmooth(r: Ramp)
    requires Smooth(r)
    ensures Smooth(NextFrame(r)) && NextFrame(r).length == r.length
    ensures Within(NextFrame(r).current, r.current, 1, r.length)
  {
    RetargetingIsSmooth(r);
    RampingIsSmooth(Retargeted(r));
  }

  datatype Action = SetTo(gain: Float) | Frame

  function Apply(r: Ramp, action: Action): Ramp {
    match action
    case SetTo(gain) => r.(target := ClampGain(gain))
    case Frame => NextFrame(r)
  }

  ghost function Run(r: Ramp, actions: seq<Action>): Ramp {
    if actions == [] then r else Apply(Run(r, actions[..|actions| - 1]), actions[|actions| - 1])
  }

  /** The gains of the frames of a run. */
  ghost function Gains(r: Ramp, actions: seq<Action>): seq<real> {
    if actions == [] then []
    else
      Gains(r, actions[..|actions| - 1])
      + if actions[|actions| - 1].Frame? then [Run(r, actions).current] else []
  }

  function Previous(g: real, gains: seq<real>, i: nat): real
    requires i <= |gains|
  {
    if i == 0 then g else gains[i - 1]
  }

  /** Consecutive gains, starting from g, differ by at most 1 / length and stay in [0, 1]. */
  ghost predicate Clickless(g: real, gains: seq<real>, length: nat) {
    forall i | 0 <= i < |gains| ::
      && 0.0 <= gains[i] <= 1.0
      && Within(gains[i], Previous(g, gains, i), 1, length)
  }

  lemma {:induction false} ClicklessExtends(g: real, gains: seq<real>, length: nat, next: real)
    requires Clickless(g, gains, length) && 0.0 <= next <= 1.0
    requires Within(next, Previous(g, gains, |gains|), 1, length)
    ensures Clickless(g, gains + [next], length)
  {
    var all := gains + [next];
    forall i | 0 <= i < |all| ensures 0.0 <= all[i] <= 1.0 && Within(all[i], Previous(g, all, i), 1, length) {
      if i < |gains| {
        assert all[i] == gains[i] && Previous(g, all, i) == Previous(g, gains, i);
      } else {
        assert all[i] == next && Previous(g, all, i) == Previous(g, gains, |gains|);
      }
    }
  }

  /**
   Main result: over every run of frames interleaved with arbitrary target changes, the gain never moves by
   more than 1 / length from one frame to the next.
   */
  lemma {:induction false} NoClicks(r: Ramp, actions: seq<Action>)
    requires Smooth(r)
    ensures Smooth(Run(r, actions)) && Run(r, actions).length == r.length
    ensures Clickless(r.current, Gains(r, actions), r.length)
    ensures Run(r, actions).current == Previous(r.current, Gains(r, actions), |Gains(r, actions)|)
    decreases |actions|
  {
    if actions != [] {
      var before, last := actions[..|actions| - 1], actions[|actions| - 1];
      NoClicks(r, before);
      if last.Frame? {
        FrameIsSmooth(Run(r, before));
        ClicklessExtends(r.current, Gains(r, before), r.length, Run(r, actions).current);
      }
    }
  }

  // ---- A held target is reached along a straight line ----

  /** The distance left is the m-th of n parts of the distance d. */
  ghost predicate OnLine(d: real, left: real, n: nat, m: nat) {
    left * n as real == d * m as real
  }

  lemma {:induction false} HeldCountdown(r: Ramp, k: nat)
    requires r.target == r.rampTarget && k <= r.remaining
    ensures AfterFrames(r, k) == r.(current := AfterFrames(r, k).current, remaining := r.remaining - k)
  {
    if k > 0 {
      HeldCountdown(r, k - 1);
    }
  }

  lemma {:induction false} HeldRamp(r: Ramp, k: nat)
    requires r.target == r.rampTarget && k <= r.remaining
    ensures OnLine(r.target - r.current, r.target - AfterFrames(r, k).current, r.remaining, r.remaining - k)
  {
    if k > 0 {
      HeldRamp(r, k - 1);
      HeldCountdown(r, k - 1);
      HeldStep(AfterFrames(r, k - 1), r.target - r.current, r.remaining);
    }
  }

  lemma {:induction false} HeldStep(q: Ramp, d: real, n: nat)
    requires q.target == q.rampTarget && 0 < q.remaining
    requires OnLine(d, q.target - q.current, n, q.remaining)
    ensures OnLine(d, q.target - NextFrame(q).current, n, q.remaining - 1)
  {
    RampStep(q.current, q.rampTarget, q.remaining, NextFrame(q).current);
    LineStep(d, q.target - q.current, q.target - NextFrame(q).current, n as real, q.remaining as real);
  }

  lemma {:induction false} LineStep(d: real, before: real, after: real, n: real, m: real)
    requires m > 0.0 && before * n == d * m && after * m == before * (m - 1.0)
    ensures after * n == d * (m - 1.0)
  {
    assert (after * n) * m == (before * n) * (m - 1.0);
    assert (d * m) * (m - 1.0) == (d * (m - 1.0)) * m;
    Unscaled(after * n, d * (m - 1.0), m);
    Unscaled(d * (m - 1.0), after * n, m);
  }

  lemma {:induction false} LineFromStart(target: real, start: real, now: real, l: real, left: real, k: real)
    requires left == l - k && (target - now) * l == (target - start) * left
    ensures (now - start) * l == (target - start) * k
  {
  }

  lemma {:induction false} RetargetOnce(r: Ramp, k: nat)
    requires 1 <= k
    ensures AfterFrames(r, k) == AfterFrames(Retargeted(r), k)
  {
    if k > 1 {
      RetargetOnce(r, k - 1);
    }
  }

  /** Once there, a held target is kept. */
  lemma {:induction false} ReachedTargetIsKept(r: Ramp, k: nat)
    requires r.target == r.rampTarget && r.remaining == 0 && r.current == r.target
    ensures AfterFrames(r, k) == r
  {
    if k > 0 {
      ReachedTargetIsKept(r, k - 1);
    }
  }

  lemma {:induction false} FramesInParts(r: Ramp, a: nat, b: nat)
    ensures AfterFrames(r, a + b) == AfterFrames(AfterFrames(r, a), b)
    decreases b
  {
    if b > 0 {
      FramesInParts(r, a, b - 1);
    }
  }

  /** The k-th point of the straight line from the gain of r to its target. */
  ghost predicate PointOfLine(r: Ramp, q: Ramp, k: nat)
    requires k <= r.length
  {
    && (q.current - r.current) * r.length as real == (r.target - r.current) * k as real
    && q == r.(current := q.current, rampTarget := r.target, remaining := r.length - k)
  }

  lemma {:induction false} HeldPoint(r: Ramp, k: nat)
    requires r.target != r.rampTarget && 1 <= k <= r.length
    ensures PointOfLine(r, AfterFrames(r, k), k)
  {
    RetargetOnce(r, k);
    HeldRamp(Retargeted(r), k);
    HeldCountdown(Retargeted(r), k);
    LineOfRamp(r, AfterFrames(Retargeted(r), k), k);
  }

  lemma {:induction false} LineOfRamp(r: Ramp, q: Ramp, k: nat)
    requires r.target != r.rampTarget && k <= r.length
    requires q == Retargeted(r).(current := q.current, remaining := r.length - k)
    requires OnLine(r.target - r.current, r.target - q.current, r.length, r.length - k)
    ensures PointOfLine(r, q, k)
  {
    LineFromStart(r.target, r.current, q.current, r.length as real, (r.length - k) as real, k as real);
  }

  lemma {:induction false} EndOfLine(r: Ramp, q: Ramp)
    requires r.length >= 1 && PointOfLine(r, q, r.length)
    ensures q == r.(current := r.target, rampTarget := r.target, remaining := 0)
  {
    var l := r.length as real;
    Difference(q.current - r.current, r.target - r.current, l);
    ZeroProduct((q.current - r.current) - (r.target - r.current), l);
  }

  /**
   Main result: after a change of target, frame k of a held target stands at the k-th point of the straight
   line from the old gain to the new one; frame `length` has arrived exactly, and so has every later one.
   */
  lemma {:induction false} HeldTargetIsALine(r: Ramp, k: nat)
    requires r.target != r.rampTarget && 1 <= k && 1 <= r.length
    ensures if k <= r.length then PointOfLine(r, AfterFrames(r, k), k)
            else AfterFrames(r, k) == AfterFrames(r, r.length)
    ensures k >= r.length ==> AfterFrames(r, k).current == r.target
  {
    HeldPoint(r, r.length);
    EndOfLine(r, AfterFrames(r, r.length));
    if k <= r.length {
      HeldPoint(r, k);
    } else {
      FramesInParts(r, r.length, k - r.length);
      ReachedTargetIsKept(AfterFrames(r, r.length), k - r.length);
    }
  }

  /** A ramp that is over stands at its target, whatever its gain was before. */
  lemma {:induction false} RampIsOver(r: Ramp)
    requires r.target == r.rampTarget && r.remaining <= 1
    ensures NextFrame(r).current == r.target && NextFrame(r).remaining == 0
  {
  }

  /** The first frame after a change already has the first step of the ramp. */
  lemma {:induction false} GainsOfARamp(r: Ramp, k: nat)
    requires r.target != r.rampTarget && 1 <= r.length
    ensures k < r.length ==>
              (GainOfFrame(r, k) - r.current) * r.length as real == (r.target - r.current) * (k + 1) as real
    ensures k + 1 >= r.length ==> GainOfFrame(r, k) == r.target
  {
    HeldTargetIsALine(r, k + 1);
  }
}
