/**
 A gap over a whole run: what is rendered was captured, and how long the reader is silent before it is locked to
 the stream behind the gap.
 */
module GapRuns {
  import opened Types
  import opened SharedAudio
  import opened Reader
  import opened LogRefinement
  import opened ControlArithmetic
  import opened Controller
  import opened Gaps
  import Stall
  import opened Recovery
  import History = RingHistory

  // ---- Everything rendered was captured ----

  /** The sample was captured as this frame since the last reset. */
  ghost predicate WasCaptured(ops: seq<History.Operation>, f: nat, s: Stereo) {
    exists k | 0 <= k < |ops| ::
      History.CapturesFrame(ops[k], f, s) && forall i | k < i < |ops| :: !ops[i].ResetOp?
  }

  /** The frame interpolates samples captured as frames f and g. */
  ghost predicate Mixes(ops: seq<History.Operation>, f: nat, g: nat, fraction: real, frame: Stereo) {
    exists s, t :: WasCaptured(ops, f, s) && WasCaptured(ops, g, t) && frame == Interpolate(s, t, fraction)
  }

  /** The frame interpolates the two samples captured around its position. */
  ghost predicate FromCaptures(ops: seq<History.Operation>, p: real, frame: Stereo)
    requires p >= 0.0
  {
    Mixes(ops, p.Floor, p.Floor + 1, p - p.Floor as real, frame)
  }

  /** Whatever can be loaded was captured. */
  ghost predicate OnlyCaptures(ops: seq<History.Operation>, ring: Ring)
    requires |ring.slots| == CAPACITY
  {
    forall f: nat, s {:trigger WasCaptured(ops, f, s)} :: Load(ring.slots, f) == Some(s) ==> WasCaptured(ops, f, s)
  }

  lemma {:induction false} HistoryOnlyCaptures(ring: Ring, ops: seq<History.Operation>)
    requires |ring.slots| == CAPACITY && History.NoFrames(ring.slots) && History.AllWellFormed(ops)
    ensures OnlyCaptures(ops, History.Run(ring, ops))
  {
    History.RingHoldsLastStores(ring, ops);
    var log := History.Log(IsValid(ring), ops);
    forall f: nat, s | Load(History.Run(ring, ops).slots, f) == Some(s) ensures WasCaptured(ops, f, s) {
      assert History.Retained(log, f, s);
      var k := History.LoggedWasCaptured(IsValid(ring), ops, History.Entry(f, s));
    }
  }

  /** A frame made from two loads. */
  lemma {:induction false} FrameFromCaptures(ring: Ring, ops: seq<History.Operation>, j: nat, p: real, frame: Stereo)
    requires |ring.slots| == CAPACITY && OnlyCaptures(ops, ring)
    requires p >= 0.0 && FrameAt(AtomicView(ring).load, j, p) == Some(frame)
    ensures FromCaptures(ops, p, frame)
  {
    var s, t := Load(ring.slots, p.Floor).value, Load(ring.slots, p.Floor + 1).value;
    assert WasCaptured(ops, p.Floor, s) && WasCaptured(ops, p.Floor + 1, t);
  }

  /** Each frame comes from the two loads for its position. */
  ghost predicate Loaded(load: (nat, nat) -> Option<Stereo>, start: real, ratio: real, frames: seq<Stereo>)
    requires start >= 0.0 && ratio >= 0.0
  {
    forall j | 0 <= j < |frames| :: FrameAt(load, j, PositionAfter(start, ratio, j)) == Some(frames[j])
  }

  lemma {:induction false} RenderedWasLoaded(ready: ReaderState, view: View, n: nat)
    requires ready.readFrame >= 0.0 && ready.targetLatencyFrames > 0
    requires PlayFrom(ready, view, n).rendered > 0
    ensures Loaded(view.load, ready.readFrame,
                   Ratio(Max(0, view.writeFrame - ready.readFrame.Floor), ready.targetLatencyFrames),
                   PlayFrom(ready, view, n).frames)
  {
  }

  /** The frames interpolate what was captured around the positions. */
  ghost predicate AllFromCaptures(ops: seq<History.Operation>, start: real, ratio: real, frames: seq<Stereo>)
    requires start >= 0.0 && ratio >= 0.0
  {
    forall j | 0 <= j < |frames| :: FromCaptures(ops, PositionAfter(start, ratio, j), frames[j])
  }

  lemma {:induction false} FramesFromCaptures(ring: Ring, ops: seq<History.Operation>, start: real, ratio: real,
                                              frames: seq<Stereo>)
    requires |ring.slots| == CAPACITY && OnlyCaptures(ops, ring) && start >= 0.0 && ratio >= 0.0
    requires Loaded(AtomicView(ring).load, start, ratio, frames)
    ensures AllFromCaptures(ops, start, ratio, frames)
  {
    forall j | 0 <= j < |frames| ensures FromCaptures(ops, PositionAfter(start, ratio, j), frames[j]) {
      FrameFromCaptures(ring, ops, j, PositionAfter(start, ratio, j), frames[j]);
    }
  }

  lemma {:induction false} ReadWasLoaded(state: ReaderState, view: View, n: nat)
    returns (ready: ReaderState, ratio: real, frames: seq<Stereo>)
    requires state.readFrame >= 0.0 && state.targetLatencyFrames > 0
    requires ReadOutcome(state, view, n).rendered > 0
    ensures view.streamStart + state.targetLatencyFrames <= view.writeFrame
    ensures ready == Resynchronized(state, view) && frames == ReadOutcome(state, view, n).frames
    ensures ready.readFrame >= 0.0 && ready.targetLatencyFrames > 0 && ratio >= 0.995
    ensures ratio == Ratio(Max(0, view.writeFrame - ready.readFrame.Floor), ready.targetLatencyFrames)
    ensures Loaded(view.load, ready.readFrame, ratio, frames)
  {
    RenderedMeansReady(state, view, n);
    ready, frames := Resynchronized(state, view), ReadOutcome(state, view, n).frames;
    ratio := Ratio(Max(0, view.writeFrame - ready.readFrame.Floor), ready.targetLatencyFrames);
    RenderedWasLoaded(ready, view, n);
  }

  /**
   Main result: whatever resets, captures and stops a ring has seen, going forward or back, with gaps or
   without, each frame a call renders interpolates two samples captured for its position since the last reset.
   */
  lemma {:induction false} RenderedWasCaptured(ring: Ring, ops: seq<History.Operation>, end: Ring, state: ReaderState,
                                               n: nat)
    returns (ready: ReaderState, ratio: real, frames: seq<Stereo>)
    requires |ring.slots| == CAPACITY && History.NoFrames(ring.slots) && History.AllWellFormed(ops)
    requires end == History.Run(ring, ops)
    requires state.readFrame >= 0.0 && state.targetLatencyFrames > 0
    requires ReadOutcome(state, AtomicView(end), n).rendered > 0
    ensures end.streamStart + state.targetLatencyFrames <= end.writeFrame
    ensures ready == Resynchronized(state, AtomicView(end)) && frames == ReadOutcome(state, AtomicView(end), n).frames
    ensures ready.readFrame >= 0.0 && ready.targetLatencyFrames > 0 && ratio >= 0.995
    ensures ratio == Ratio(Max(0, end.writeFrame - ready.readFrame.Floor), ready.targetLatencyFrames)
    ensures AllFromCaptures(ops, ready.readFrame, ratio, frames)
  {
    ready, ratio, frames := ReadWasLoaded(state, AtomicView(end), n);
    HistoryOnlyCaptures(ring, ops);
    FramesFromCaptures(end, ops, ready.readFrame, ratio, frames);
  }

  // ---- A stream in two parts ----

  /** The same pipeline, its stream said to begin at `first`. */
  ghost function From(p: Pipeline, first: nat): Pipeline {
    p.(ring := p.ring.(streamStart := first))
  }

  /** Frames from `low` up to `first` are missing, and the log is what lies behind them. */
  ghost predicate Gapped(p: Pipeline, low: nat, first: nat) {
    && p.ring.streamStart <= low < first
    && Backs(From(p, first).ring, p.log)
    && Missing(p.ring, low, first)
    && p.reader.readFrame >= 0.0
    && MINIMUM_LATENCY <= p.reader.targetLatencyFrames <= CAPACITY / 4
  }

  ghost predicate Synced(p: Pipeline) {
    p.reader.synchronized && p.reader.streamEpoch == p.ring.streamEpoch
  }

  /** The reader is not beyond the gap. */
  ghost predicate Behind(p: Pipeline, first: nat) {
    Synced(p) ==> p.reader.readFrame.Floor < first
  }

  /** Positions that have both their frames outside the gap stay before it. */
  lemma {:induction false} NoJump(start: real, ratio: real, n: nat, j: nat, low: nat, first: nat)
    requires 0.0 <= start && 0.995 <= ratio <= 1.005 && start.Floor < first && low < first && j < n
    requires forall i | 0 <= i < n ::
               var f := PositionAfter(start, ratio, i).Floor;
               !(low <= f < first) && !(low <= f + 1 < first)
    ensures PositionAfter(start, ratio, j).Floor + 1 < low
  {
    if j == 0 {
      assert PositionAfter(start, ratio, 0) == start;
    } else {
      NoJump(start, ratio, n, j - 1, low, first);
      PositionStep(start, ratio, j - 1);
      assert PositionAfter(start, ratio, j).Floor <= low;
    }
  }

  lemma {:induction false} PlayStaysBefore(ready: ReaderState, ring: Ring, n: nat, low: nat, first: nat)
    requires |ring.slots| == CAPACITY && Missing(ring, low, first) && low < first
    requires ready.readFrame >= 0.0 && ready.targetLatencyFrames > 0 && ready.readFrame.Floor < first
    requires PlayFrom(ready, AtomicView(ring), n).rendered > 0
    ensures PlayFrom(ready, AtomicView(ring), n).state.readFrame.Floor < first
  {
    var ratio := Ratio(Max(0, ring.writeFrame - ready.readFrame.Floor), ready.targetLatencyFrames);
    NoGapFrameIsPlayed(ready, ring, n, low, first);
    NoJump(ready.readFrame, ratio, n, n - 1, low, first);
    NextIsBefore(ready.readFrame, ratio, n - 1, low, first);
  }

  lemma {:induction false} NextIsBefore(start: real, ratio: real, j: nat, low: nat, first: nat)
    requires ratio <= 1.005 && low < first && PositionAfter(start, ratio, j).Floor + 1 < low
    ensures PositionAfter(start, ratio, j + 1).Floor < first
  {
    PositionStep(start, ratio, j);
  }

  // ---- One read of a stream in two parts ----

  /** A call from before the gap ends before it, or without synchronisation. */
  lemma {:induction false} PlayKeepsBehind(ready: ReaderState, ring: Ring, n: nat, low: nat, first: nat)
    requires |ring.slots| == CAPACITY && Missing(ring, low, first) && low < first
    requires ready.readFrame >= 0.0 && ready.targetLatencyFrames > 0 && ready.readFrame.Floor < first
    ensures var state := PlayFrom(ready, AtomicView(ring), n).state;
            state.synchronized ==> state.readFrame.Floor < first
  {
    if PlayFrom(ready, AtomicView(ring), n).rendered > 0 {
      PlayStaysBefore(ready, ring, n, low, first);
    } else {
      SilentPlay(ready, AtomicView(ring), n);
    }
  }

  lemma {:induction false} SilentPlay(ready: ReaderState, view: View, n: nat)
    requires ready.readFrame >= 0.0 && ready.targetLatencyFrames > 0
    ensures var outcome := PlayFrom(ready, view, n);
            outcome.rendered == 0 && outcome.state.synchronized ==> outcome.state.readFrame == ready.readFrame
                                                                    || n == 0
  {
  }

  /** As long as there is less than a target behind the gap, the reader does not get there. */
  lemma {:induction false} EarlyRead(p: Pipeline, n: nat, low: nat, first: nat)
    requires Gapped(p, low, first) && Behind(p, first) && |p.log| < Target(p)
    ensures Behind(p.(reader := Read(p, n).state), first)
  {
    if n > 0 && p.ring.streamStart + Target(p) <= p.ring.writeFrame {
      PlayKeepsBehind(Resynchronized(p.reader, AtomicView(p.ring)), p.ring, n, low, first);
    }
  }

  lemma {:induction false} EnoughAhead(available: nat, target: nat, n: nat)
    requires MINIMUM_LATENCY <= target <= available && 4 * n <= target
    ensures Required(n, Ratio(available, target)) <= available
  {
    FewFrames(n as real, Ratio(available, target), target as real);
    assert (Ceil(n as real * Ratio(available, target)) - 1) as real < n as real * Ratio(available, target);
  }

  /** A synchronised call with enough frames is silent only if it gives up its synchronisation. */
  lemma {:induction false} SilentLosesSync(ready: ReaderState, view: View, n: nat)
    requires ready.readFrame >= 0.0 && MINIMUM_LATENCY <= ready.targetLatencyFrames
    requires 0 < 4 * n <= ready.targetLatencyFrames
    requires ready.readFrame.Floor + ready.targetLatencyFrames <= view.writeFrame
    ensures var outcome := PlayFrom(ready, view, n);
            if outcome.rendered == 0 then !outcome.state.synchronized
            else && outcome.state == ready.(readFrame := outcome.state.readFrame)
                 && outcome.state.readFrame >= ready.readFrame + 0.995 * n as real
  {
    var available := view.writeFrame - ready.readFrame.Floor;
    EnoughAhead(available, ready.targetLatencyFrames, n);
    Stall.PositionsClimb(ready.readFrame, Ratio(available, ready.targetLatencyFrames), n);
  }

  /** With a target behind the gap, a reader before it plays on towards the gap or loses its synchronisation. */
  lemma {:induction false} LateRead(p: Pipeline, n: nat, low: nat, first: nat)
    requires Gapped(p, low, first) && Synced(p) && p.reader.readFrame.Floor < first && |p.log| >= Target(p)
    requires 0 < 4 * n <= Target(p)
    ensures var q := p.(reader := Read(p, n).state);
            if Read(p, n).rendered == 0 then !Synced(q)
            else && Synced(q) && q.reader.readFrame.Floor < first
                 && q.reader.readFrame >= p.reader.readFrame + 0.995 * n as real
  {
    assert Resynchronized(p.reader, AtomicView(p.ring)) == p.reader;
    PlayKeepsBehind(p.reader, p.ring, n, low, first);
    SilentLosesSync(p.reader, AtomicView(p.ring), n);
  }

  /** Behind the gap the old part of the stream makes no difference. */
  lemma {:induction false} PeriodFrom(p: Pipeline, cycle: Cycle, low: nat, first: nat)
    requires Gapped(p, low, first) && |p.log| >= Target(p)
    ensures Read(p, cycle.frames) == Read(From(p, first), cycle.frames)
    ensures From(Period(p, cycle), first) == Period(From(p, first), cycle)
  {
    GapIsForgotten(p.reader, p.ring, first, cycle.frames);
  }

  /** Whatever the read does, the captured block extends the log behind the gap. */
  lemma {:induction false} PeriodKeepsGapped(p: Pipeline, cycle: Cycle, low: nat, first: nat)
    requires Gapped(p, low, first) && p.ring.writeFrame as real < SAMPLE_TIME_LIMIT
    ensures var q := Period(p, cycle);
            && Gapped(q, low, first) && q.log == p.log + cycle.block
            && q.ring.writeFrame == p.ring.writeFrame + |cycle.block|
            && q.ring.streamEpoch == p.ring.streamEpoch
            && q.reader == Read(p, cycle.frames).state
  {
    LogBehindGapGrows(p.ring, first, p.log, cycle.block, low);
    assert Captured(p.ring, cycle.block, p.ring.writeFrame) == Period(p, cycle).ring;
  }

  /** A reader without synchronisation renders at once and is locked to the stream behind the gap. */
  lemma {:induction false} RejoinsBehindGap(p: Pipeline, cycle: Cycle, low: nat, first: nat)
    requires Gapped(p, low, first) && !Synced(p) && |p.log| >= Target(p)
    requires Absorbable(cycle, Target(p)) && cycle.frames > 0 && p.ring.writeFrame as real < SAMPLE_TIME_LIMIT
    ensures Read(p, cycle.frames).rendered == cycle.frames
    ensures Locked(From(Period(p, cycle), first))
  {
    var there := From(p, first);
    var synced := there.(reader := Resynchronized(there.reader, AtomicView(there.ring)));
    SynchronizingLocks(there);
    LockedRead(synced, cycle.frames);
    LockedPeriod(synced, cycle);
    PeriodFrom(p, cycle, low, first);
  }

  lemma {:induction false} StaysLockedBehindGap(p: Pipeline, cycle: Cycle, low: nat, first: nat)
    requires Gapped(p, low, first) && Locked(From(p, first))
    requires Absorbable(cycle, Target(p)) && p.ring.writeFrame as real < SAMPLE_TIME_LIMIT
    ensures Read(p, cycle.frames).rendered == cycle.frames
    ensures Locked(From(Period(p, cycle), first))
  {
    LockedRead(From(p, first), cycle.frames);
    LockedPeriod(From(p, first), cycle);
    PeriodFrom(p, cycle, low, first);
  }

  // ---- A run across the gap ----

  /** How many frames of silence a read puts out. */
  ghost function Quiet(p: Pipeline, n: nat): nat
    requires Runnable(p)
  {
    if Read(p, n).rendered == 0 then n else 0
  }

  ghost function SilentFrames(p: Pipeline, cycles: seq<Cycle>): nat
    requires Runnable(p)
  {
    if cycles == [] then 0
    else SilentFrames(p, cycles[..|cycles| - 1])
         + Quiet(Run(p, cycles[..|cycles| - 1]), cycles[|cycles| - 1].frames)
  }

  /** Where the reader is, and how much of its allowance of silence it has used. */
  ghost predicate Crossing(p: Pipeline, low: nat, first: nat, silent: nat) {
    && Gapped(p, low, first)
    && (Behind(p, first) || Locked(From(p, first)))
    && if |p.log| < Target(p) then 199 * silent <= 200 * |p.log|
       else if Synced(p) && !Locked(From(p, first)) then 796 * silent <= 999 * Target(p)
       else 796 * silent <= 1198 * Target(p)
  }

  /** Silence before there is a target behind the gap is paid for by the blocks captured meanwhile. */
  lemma {:induction false} EarlyAllowance(target: nat, log: nat, n: nat, m: nat, silent: nat)
    requires log < target && 4 * n <= target && NearUnitRate(n, m) && 199 * silent <= 200 * log
    ensures if log + m < target then 199 * (silent + n) <= 200 * (log + m) else 796 * (silent + n) <= 999 * target
  {
  }

  lemma {:induction false} EarlyCycle(p: Pipeline, cycle: Cycle, low: nat, first: nat, silent: nat)
    requires Crossing(p, low, first, silent) && |p.log| < Target(p)
    requires Absorbable(cycle, Target(p)) && p.ring.writeFrame as real < SAMPLE_TIME_LIMIT
    ensures Crossing(Period(p, cycle), low, first, silent + Quiet(p, cycle.frames))
  {
    EarlyRead(p, cycle.frames, low, first);
    PeriodKeepsGapped(p, cycle, low, first);
    EarlyAllowance(Target(p), |p.log|, cycle.frames, |cycle.block|, silent);
  }

  lemma {:induction false} EmptyCycle(p: Pipeline, cycle: Cycle)
    requires Runnable(p) && cycle.frames == 0 && cycle.block == []
    ensures Period(p, cycle) == p
  {
  }

  lemma {:induction false} LateCycle(p: Pipeline, cycle: Cycle, low: nat, first: nat, silent: nat)
    requires Crossing(p, low, first, silent) && |p.log| >= Target(p) && cycle.frames > 0
    requires Absorbable(cycle, Target(p)) && p.ring.writeFrame as real < SAMPLE_TIME_LIMIT
    ensures Crossing(Period(p, cycle), low, first, silent + Quiet(p, cycle.frames))
  {
    PeriodKeepsGapped(p, cycle, low, first);
    if Locked(From(p, first)) {
      StaysLockedBehindGap(p, cycle, low, first);
    } else if Synced(p) {
      LateRead(p, cycle.frames, low, first);
    } else {
      RejoinsBehindGap(p, cycle, low, first);
    }
  }

  lemma {:induction false} CrossingCycle(p: Pipeline, cycle: Cycle, low: nat, first: nat, silent: nat)
    requires Crossing(p, low, first, silent)
    requires Absorbable(cycle, Target(p)) && p.ring.writeFrame as real < SAMPLE_TIME_LIMIT
    ensures Crossing(Period(p, cycle), low, first, silent + Quiet(p, cycle.frames))
    ensures Period(p, cycle).ring.writeFrame == p.ring.writeFrame + |cycle.block|
  {
    PeriodKeepsGapped(p, cycle, low, first);
    if cycle.frames == 0 {
      EmptyCycle(p, cycle);
    } else if |p.log| < Target(p) {
      EarlyCycle(p, cycle, low, first, silent);
    } else {
      LateCycle(p, cycle, low, first, silent);
    }
  }

  lemma {:induction false} CrossingRun(p: Pipeline, cycles: seq<Cycle>, low: nat, first: nat)
    requires Gapped(p, low, first) && Behind(p, first) && Representable(p, cycles)
    requires forall c | c in cycles :: Absorbable(c, Target(p))
    ensures Crossing(Run(p, cycles), low, first, SilentFrames(p, cycles))
    ensures Run(p, cycles).ring.writeFrame == p.ring.writeFrame + Appended(cycles)
    decreases |cycles|
  {
    if cycles != [] {
      var before, last := cycles[..|cycles| - 1], cycles[|cycles| - 1];
      LastCycle(p, cycles);
      CrossingRun(p, before, low, first);
      CrossingCycle(Run(p, before), last, low, first, SilentFrames(p, before));
    }
  }

  // ---- The whole story of a gap ----

  /** The pipeline after a capture whose block does not follow on; its log is the block that was kept. */
  ghost function AfterGap(p: Pipeline, block: seq<Stereo>, sampleTime: nat): Pipeline
    requires |p.ring.slots| == CAPACITY
  {
    Pipeline(Captured(p.ring, block, sampleTime), Kept(block), p.reader)
  }

  lemma {:induction false} GapOpens(p: Pipeline, block: seq<Stereo>, sampleTime: nat)
    requires WellFormed(p) && NothingAhead(p.ring)
    requires Synced(p) ==> p.reader.readFrame.Floor <= p.ring.writeFrame
    requires block != [] && p.ring.writeFrame < sampleTime && sampleTime as real < SAMPLE_TIME_LIMIT
    ensures var q, first := AfterGap(p, block, sampleTime), FirstKept(sampleTime, block);
            Gapped(q, p.ring.writeFrame, first) && Behind(q, first)
  {
    GapIsMissing(p.ring, block, sampleTime);
  }

  /**
   Main result: a gap, of any length and with any block behind it, costs the reader little. Over every
   following run of gap-free blocks within half a percent of the reads, all silence together is at most
   1198 / 796 of the target latency, that is about one and a half targets.
   */
  lemma {:induction false} GapCostsLittle(p: Pipeline, block: seq<Stereo>, sampleTime: nat, cycles: seq<Cycle>)
    requires WellFormed(p) && NothingAhead(p.ring)
    requires Synced(p) ==> p.reader.readFrame.Floor <= p.ring.writeFrame
    requires block != [] && p.ring.writeFrame < sampleTime && sampleTime as real < SAMPLE_TIME_LIMIT
    requires Representable(AfterGap(p, block, sampleTime), cycles)
    requires forall c | c in cycles :: Absorbable(c, Target(p))
    ensures var q := AfterGap(p, block, sampleTime);
            Runnable(q) && 796 * SilentFrames(q, cycles) <= 1198 * Target(p)
  {
    GapOpens(p, block, sampleTime);
    CrossingRun(AfterGap(p, block, sampleTime), cycles, p.ring.writeFrame, FirstKept(sampleTime, block));
  }

  /** With a target behind the gap: locked there, about to be, or so far on the way to the gap. */
  ghost predicate Heading(p: Pipeline, low: nat, first: nat, reached: real) {
    && Gapped(p, low, first) && |p.log| >= Target(p)
    && (|| Locked(From(p, first))
        || !Synced(p)
        || reached <= p.reader.readFrame < first as real)
  }

  lemma {:induction false} HeadingCycle(p: Pipeline, cycle: Cycle, low: nat, first: nat, reached: real)
    requires Heading(p, low, first, reached) && cycle.frames > 0
    requires Absorbable(cycle, Target(p)) && p.ring.writeFrame as real < SAMPLE_TIME_LIMIT
    ensures Heading(Period(p, cycle), low, first, reached + 0.995 * cycle.frames as real)
    ensures Locked(From(p, first)) || !Synced(p) ==> Locked(From(Period(p, cycle), first))
    ensures Period(p, cycle).ring.writeFrame == p.ring.writeFrame + |cycle.block|
  {
    PeriodKeepsGapped(p, cycle, low, first);
    if Locked(From(p, first)) {
      StaysLockedBehindGap(p, cycle, low, first);
    } else if Synced(p) {
      LateRead(p, cycle.frames, low, first);
    } else {
      RejoinsBehindGap(p, cycle, low, first);
    }
  }

  lemma {:induction false} HeadingRun(p: Pipeline, cycles: seq<Cycle>, low: nat, first: nat, reached: real)
    requires Heading(p, low, first, reached) && Representable(p, cycles)
    requires forall c | c in cycles :: Absorbable(c, Target(p)) && c.frames > 0
    ensures Heading(Run(p, cycles), low, first, reached + 0.995 * Asked(cycles) as real)
    ensures Run(p, cycles).ring.writeFrame == p.ring.writeFrame + Appended(cycles)
    decreases |cycles|
  {
    if cycles != [] {
      var before, last := cycles[..|cycles| - 1], cycles[|cycles| - 1];
      LastCycle(p, cycles);
      HeadingRun(p, before, low, first, reached);
      HeadingCycle(Run(p, before), last, low, first, reached + 0.995 * Asked(before) as real);
    }
  }

  /**
   Main result: once a target's worth of frames lies behind the gap, reading as far as the gap and one call
   more leaves the reader locked to the stream behind it.
   */
  lemma {:induction false} LocksBehindGap(p: Pipeline, cycles: seq<Cycle>, last: Cycle, low: nat, first: nat)
    requires Gapped(p, low, first) && Behind(p, first) && |p.log| >= Target(p)
    requires Representable(p, cycles + [last])
    requires forall c | c in cycles + [last] :: Absorbable(c, Target(p)) && c.frames > 0
    requires p.reader.readFrame + 0.995 * Asked(cycles) as real >= first as real
    ensures Locked(From(Run(p, cycles + [last]), first))
  {
    var all := cycles + [last];
    assert all[..|all| - 1] == cycles;
    LastCycle(p, all);
    HeadingRun(p, cycles, low, first, p.reader.readFrame);
    HeadingCycle(Run(p, cycles), last, low, first, p.reader.readFrame + 0.995 * Asked(cycles) as real);
  }
}
