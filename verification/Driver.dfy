/**
 The audio device of driver/SoundVolumeControl.c: starting and stopping, the mix callback and the clock.

 The ring is whatever mapping the current lease gives; there may be none.
 */
module Driver {
  import opened Types
  import opened Products
  import opened SharedAudio
  import History = RingHistory

  const ZERO_TIMESTAMP_PERIOD: nat := 16384

  datatype Status = NoError | IllegalOperation | BadObject | UnsupportedOperation

  /** What a call names: this driver's device or stream, or something else. */
  datatype Target = ThisDevice | OtherDriver | OtherObject

  function Validate(target: Target): Status {
    match target
    case ThisDevice => NoError
    case OtherDriver => IllegalOperation
    case OtherObject => BadObject
  }

  // ---- The clock ----

  /** The stamp reported at a host time: how many periods have passed, as a sample time and a host time. */
  datatype Stamp = Stamp(sampleTime: nat, hostTime: nat)

  function Periods(anchor: nat, now: nat, ticksPerPeriod: real): nat
    requires ticksPerPeriod > 0.0
  {
    if now > anchor then
      PeriodsNotNegative((now - anchor) as real, ticksPerPeriod);
      ((now - anchor) as real / ticksPerPeriod).Floor
    else 0
  }

  lemma {:induction false} PeriodsNotNegative(elapsed: real, ticksPerPeriod: real)
    requires ticksPerPeriod > 0.0 && elapsed >= 0.0
    ensures elapsed / ticksPerPeriod >= 0.0
  {
  }

  lemma {:induction false} ProductNotNegative(n: nat, ticksPerPeriod: real)
    requires ticksPerPeriod > 0.0
    ensures n as real * ticksPerPeriod >= 0.0
  {
  }

  function StampOf(anchor: nat, periods: nat, ticksPerPeriod: real): Stamp
    requires ticksPerPeriod > 0.0
  {
    ProductNotNegative(periods, ticksPerPeriod);
    Stamp(periods * ZERO_TIMESTAMP_PERIOD, anchor + (periods as real * ticksPerPeriod).Floor)
  }

  function ZeroTimeStamp(anchor: nat, now: nat, ticksPerPeriod: real): Stamp
    requires ticksPerPeriod > 0.0
  {
    StampOf(anchor, Periods(anchor, now, ticksPerPeriod), ticksPerPeriod)
  }

  lemma {:induction false} Quotient(elapsed: real, tpp: real, q: real, n: int)
    requires tpp > 0.0 && q == elapsed / tpp && n == q.Floor
    ensures n as real * tpp <= elapsed < n as real * tpp + tpp
  {
    assert q * tpp == elapsed;
    ScaledAbove(q, n as real, tpp, elapsed);
    ScaledBelow(q, n as real, tpp, elapsed);
  }

  lemma {:induction false} ScaledAbove(q: real, n: real, z: real, elapsed: real)
    requires z > 0.0 && q * z == elapsed && n <= q
    ensures n * z <= elapsed
  {
    Scaled(n, q, z);
  }

  lemma {:induction false} ScaledBelow(q: real, n: real, z: real, elapsed: real)
    requires z > 0.0 && q * z == elapsed && q < n + 1.0
    ensures elapsed < n * z + z
  {
    OneMore(n, z);
    ScaledLess(q, n + 1.0, z);
  }

  /** The period count is the one whose span contains the present. */
  lemma {:induction false} PeriodContainsNow(anchor: nat, now: nat, tpp: real)
    requires tpp > 0.0 && now >= anchor
    ensures var n := Periods(anchor, now, tpp);
            n as real * tpp <= (now - anchor) as real < n as real * tpp + tpp
  {
    var elapsed := (now - anchor) as real;
    if now > anchor {
      Quotient(elapsed, tpp, elapsed / tpp, Periods(anchor, now, tpp));
    }
  }

  /**
   Main result: the host time reported is never in the future and less than one period and one tick in the
   past, so that truncation does not add up over any number of periods.
   */
  lemma {:induction false} StampIsRecent(anchor: nat, now: nat, tpp: real)
    requires tpp > 0.0 && now >= anchor
    ensures var stamp := ZeroTimeStamp(anchor, now, tpp);
            && stamp.hostTime <= now && now as real < stamp.hostTime as real + tpp + 1.0
            && stamp.sampleTime % ZERO_TIMESTAMP_PERIOD == 0
  {
    PeriodContainsNow(anchor, now, tpp);
    ProductNotNegative(Periods(anchor, now, tpp), tpp);
  }

  /** Counts whose spans follow one another are in order. */
  lemma {:induction false} SpansInOrder(m: nat, n: nat, mz: real, nz: real, z: real, x: real, y: real)
    requires z > 0.0 && mz == m as real * z && nz == n as real * z
    requires mz <= x <= y < nz + z
    ensures m <= n
  {
    if n < m {
      Scaled(n as real + 1.0, m as real, z);
      OneMore(n as real, z);
    }
  }

  lemma {:induction false} PeriodsGrow(anchor: nat, now: nat, later: nat, tpp: real)
    requires tpp > 0.0 && now <= later
    ensures Periods(anchor, now, tpp) <= Periods(anchor, later, tpp)
  {
    if now > anchor {
      PeriodContainsNow(anchor, now, tpp);
      PeriodContainsNow(anchor, later, tpp);
      var m, n := Periods(anchor, now, tpp), Periods(anchor, later, tpp);
      SpansInOrder(m, n, m as real * tpp, n as real * tpp, tpp, (now - anchor) as real, (later - anchor) as real);
    }
  }

  /**
   Main result: for a fixed anchor successive stamps never go back, and stamps of the same sample time have the
   same host time.
   */
  lemma {:induction false} StampsAreMonotone(anchor: nat, now: nat, later: nat, tpp: real)
    requires tpp > 0.0 && now <= later
    ensures var a, b := ZeroTimeStamp(anchor, now, tpp), ZeroTimeStamp(anchor, later, tpp);
            && a.sampleTime <= b.sampleTime && a.hostTime <= b.hostTime
            && (a.sampleTime == b.sampleTime ==> a.hostTime == b.hostTime)
  {
    PeriodsGrow(anchor, now, later, tpp);
    var m, n := Periods(anchor, now, tpp), Periods(anchor, later, tpp);
    Scaled(m as real, n as real, tpp);
    ProductNotNegative(m, tpp);
    ProductNotNegative(n, tpp);
  }

  /**
   Main result: the clock runs at the device's rate. The sample time is 16384 for each whole period since the
   anchor, neither more nor fewer, and the host time is when that period began, to the tick.
   */
  lemma {:induction false} StampIsTheClock(anchor: nat, now: nat, tpp: real)
    requires tpp > 0.0
    ensures var stamp := ZeroTimeStamp(anchor, now, tpp);
            var n := stamp.sampleTime / 16384;
            && stamp.sampleTime == 16384 * n
            && (now >= anchor ==> n as real * tpp <= (now - anchor) as real < n as real * tpp + tpp)
            && (now < anchor ==> n == 0)
            && anchor as real + n as real * tpp - 1.0 < stamp.hostTime as real <= anchor as real + n as real * tpp
  {
    if now >= anchor {
      PeriodContainsNow(anchor, now, tpp);
    }
    var periods := Periods(anchor, now, tpp);
    ProductNotNegative(periods, tpp);
    assert periods * ZERO_TIMESTAMP_PERIOD / 16384 == periods;
  }

  // ---- Starting, stopping and mixing ----

  datatype State = State(running: UInt32, anchor: nat, ring: Option<Ring>)

  datatype Operation = ProcessOutput | WriteMix | OtherOperation

  /** Calls of the host; `now` is the host time at which a first start happens. */
  datatype Call =
    | StartIO(target: Target, now: nat)
    | StopIO(target: Target)
    | DoIO(target: Target, hasCycle: bool, isOutput: bool, operation: Operation, source: Option<seq<Stereo>>,
           sampleTime: Float)

  function Deactivated(ring: Ring): Ring {
    if IsValid(ring) then ring.(writerActive := false) else ring
  }

  /** A statistics counter of 32 bits. */
  function Incremented(count: nat): nat {
    (count + 1) % UINT32_RANGE
  }

  predicate HasSlots(s: State) {
    s.ring.Some? ==> |s.ring.value.slots| == CAPACITY
  }

  /** An I/O call that reaches the ring. */
  predicate Accepted(call: Call) {
    call.DoIO? && Validate(call.target) == NoError && call.hasCycle && call.isOutput && call.source.Some?
    && !call.operation.OtherOperation?
  }

  function Called(s: State, call: Call): (s': State)
    requires HasSlots(s)
    ensures HasSlots(s')
  {
    match call
    case StartIO(target, now) =>
      if Validate(target) != NoError then s
      else
        var started := s.(running := (s.running + 1) % UINT32_RANGE);
        if s.running != 0 then started
        else started.(anchor := now, ring := if s.ring == None then None else Some(Reset(s.ring.value, now)))
    case StopIO(target) =>
      if Validate(target) != NoError || s.running == 0 then s
      else
        var stopped := s.(running := s.running - 1);
        if s.running != 1 || s.ring == None then stopped else stopped.(ring := Some(Deactivated(s.ring.value)))
    case DoIO(_, _, _, operation, source, sampleTime) =>
      if !Accepted(call) || s.ring == None then s
      else if operation.ProcessOutput? then
        s.(ring := Some(s.ring.value.(processOutputCount := Incremented(s.ring.value.processOutputCount))))
      else
        var counted := s.ring.value.(writeMixCount := Incremented(s.ring.value.writeMixCount));
        s.(ring := Some(Capture(counted, source, sampleTime, |source.value|)))
  }

  function StatusOf(s: State, call: Call): Status {
    match call
    case StartIO(target, _) => Validate(target)
    case StopIO(target) =>
      if Validate(target) != NoError then Validate(target) else if s.running > 0 then NoError else IllegalOperation
    case DoIO(target, hasCycle, isOutput, operation, source, _) =>
      if Validate(target) != NoError then Validate(target)
      else if !hasCycle then IllegalOperation
      else if !isOutput then BadObject
      else if source == None || !operation.OtherOperation? then NoError
      else UnsupportedOperation
  }

  /**
   What each status means. A call that is refused has no effect at all.
   */
  lemma {:induction false} StatusMeans(s: State, call: Call)
    requires HasSlots(s)
    ensures StatusOf(s, call) == BadObject <==>
              || call.target == OtherObject
              || (call.DoIO? && call.target == ThisDevice && call.hasCycle && !call.isOutput)
    ensures StatusOf(s, call) == IllegalOperation <==>
              || call.target == OtherDriver
              || (call.StopIO? && call.target == ThisDevice && s.running == 0)
              || (call.DoIO? && call.target == ThisDevice && !call.hasCycle)
    ensures StatusOf(s, call) == UnsupportedOperation <==>
              && call.DoIO? && call.target == ThisDevice && call.hasCycle && call.isOutput && call.source.Some?
              && call.operation.OtherOperation?
    ensures StatusOf(s, call) != NoError ==> Called(s, call) == s
  {
  }

  /**
   A first start, and no other call, moves the anchor: the clock then stands at sample time zero, now. A further
   start changes nothing but the count.
   */
  lemma {:induction false} FirstStartAnchors(s: State, call: Call)
    requires HasSlots(s)
    ensures Called(s, call).anchor ==
              if call.StartIO? && call.target == ThisDevice && s.running == 0 then call.now else s.anchor
    ensures forall tpp: real | tpp > 0.0 && call.StartIO? && call.target == ThisDevice && s.running == 0 ::
              ZeroTimeStamp(Called(s, call).anchor, call.now, tpp) == Stamp(0, call.now)
    ensures call.StartIO? && s.running != 0 ==> Called(s, call).ring == s.ring
  {
  }

  class Driver {
    var gRunningCount: UInt32
    var gTimestampAnchor: nat
    var gHostTicksPerFrame: real
    var gSharedAudio: SharedAudio?

    ghost predicate Valid()
      reads this
    {
      gSharedAudio != null ==> gSharedAudio.Valid()
    }

    ghost function Footprint(): set<object>
      reads this
    {
      if gSharedAudio == null then {this} else {this, gSharedAudio, gSharedAudio.frames}
    }

    ghost function Value(): (s: State)
      reads this, Footprint()
      requires Valid()
      ensures HasSlots(s)
    {
      State(gRunningCount, gTimestampAnchor, if gSharedAudio == null then None else Some(gSharedAudio.Value()))
    }

    constructor (ticksPerFrame: real, audio: SharedAudio?)
      requires audio != null ==> audio.Valid()
      ensures Valid() && gSharedAudio == audio && gHostTicksPerFrame == ticksPerFrame
      ensures gRunningCount == 0 && gTimestampAnchor == 0
    {
      gRunningCount, gTimestampAnchor, gHostTicksPerFrame, gSharedAudio := 0, 0, ticksPerFrame, audio;
    }

    method Start(target: Target, now: nat) returns (status: Status)
      requires Valid()
      modifies Footprint()
      ensures Valid() && gSharedAudio == old(gSharedAudio) && gHostTicksPerFrame == old(gHostTicksPerFrame)
      ensures Value() == Called(old(Value()), StartIO(target, now))
      ensures status == StatusOf(old(Value()), StartIO(target, now))
    {
      status := Validate(target);
      if status != NoError {
        return;
      }
      var previous := gRunningCount;
      gRunningCount := (gRunningCount + 1) % UINT32_RANGE;
      if previous == 0 {
        gTimestampAnchor := now;
        if gSharedAudio != null {
          gSharedAudio.ResetStream(now);
        }
      }
    }

    method Stop(target: Target) returns (status: Status)
      requires Valid()
      modifies Footprint()
      ensures Valid() && gSharedAudio == old(gSharedAudio) && gHostTicksPerFrame == old(gHostTicksPerFrame)
      ensures Value() == Called(old(Value()), StopIO(target))
      ensures status == StatusOf(old(Value()), StopIO(target))
    {
      status := Validate(target);
      if status != NoError {
        return;
      }
      if gRunningCount == 0 {
        return IllegalOperation;
      }
      var current := gRunningCount;
      gRunningCount := current - 1;
      if current == 1 && gSharedAudio != null && gSharedAudio.magic == MAGIC && gSharedAudio.version == VERSION
         && gSharedAudio.channelCount == CHANNEL_COUNT && gSharedAudio.capacityFrames == CAPACITY
         && gSharedAudio.sampleRate > 0 {
        gSharedAudio.writerActive := false;
      }
    }

    method DoIOOperation(target: Target, hasCycle: bool, isOutput: bool, operation: Operation,
                         source: Option<seq<Stereo>>, sampleTime: Float)
      returns (status: Status)
      requires Valid()
      modifies Footprint()
      ensures Valid() && gSharedAudio == old(gSharedAudio) && gHostTicksPerFrame == old(gHostTicksPerFrame)
      ensures var call := DoIO(target, hasCycle, isOutput, operation, source, sampleTime);
              Value() == Called(old(Value()), call) && status == StatusOf(old(Value()), call)
    {
      status := Validate(target);
      if status != NoError {
        return;
      }
      if !hasCycle {
        return IllegalOperation;
      }
      if !isOutput {
        return BadObject;
      }
      if source == None {
        return NoError;
      }
      if operation.ProcessOutput? {
        if gSharedAudio != null {
          gSharedAudio.processOutputCount := Incremented(gSharedAudio.processOutputCount);
        }
        return NoError;
      }
      if operation.WriteMix? {
        if gSharedAudio != null {
          gSharedAudio.writeMixCount := Incremented(gSharedAudio.writeMixCount);
          gSharedAudio.CaptureOutput(source, sampleTime, |source.value|);
        }
        return NoError;
      }
      return UnsupportedOperation;
    }

    method GetZeroTimeStamp(target: Target, outputs: bool, now: nat) returns (status: Status, stamp: Stamp, seed: nat)
      ensures status == (if Validate(target) != NoError then Validate(target)
                         else if !outputs || gHostTicksPerFrame <= 0.0 then IllegalOperation
                         else NoError)
      ensures status == NoError ==>
                gHostTicksPerFrame > 0.0 && seed == 1
                && stamp == ZeroTimeStamp(gTimestampAnchor, now, gHostTicksPerFrame * ZERO_TIMESTAMP_PERIOD as real)
    {
      status := Validate(target);
      stamp, seed := Stamp(0, 0), 0;
      if status != NoError {
        return;
      }
      if !outputs || gHostTicksPerFrame <= 0.0 {
        status := IllegalOperation;
        return;
      }
      var ticksPerPeriod := gHostTicksPerFrame * ZERO_TIMESTAMP_PERIOD as real;
      var periodCount :=
        if now > gTimestampAnchor then ((now - gTimestampAnchor) as real / ticksPerPeriod).Floor else 0;
      ProductNotNegative(Periods(gTimestampAnchor, now, ticksPerPeriod), ticksPerPeriod);
      stamp := Stamp(periodCount * ZERO_TIMESTAMP_PERIOD,
                     gTimestampAnchor + (periodCount as real * ticksPerPeriod).Floor);
      seed := 1;
    }
  }

  // ---- Any sequence of calls ----

  ghost function After(s: State, calls: seq<Call>): (s': State)
    requires HasSlots(s)
    ensures HasSlots(s')
  {
    if calls == [] then s else Called(After(s, calls[..|calls| - 1]), calls[|calls| - 1])
  }

  /** What a call does to the stream, given how many clients are running. */
  function Effect(running: nat, call: Call): seq<History.Operation> {
    match call
    case StartIO(target, now) => if Validate(target) == NoError && running == 0 then [History.ResetOp(now)] else []
    case StopIO(target) => if Validate(target) == NoError && running == 1 then [History.DeactivateOp] else []
    case DoIO(_, _, _, operation, source, sampleTime) =>
      if Accepted(call) && operation.WriteMix? then [History.CaptureOp(source, sampleTime, |source.value|)] else []
  }

  ghost function Effects(s: State, calls: seq<Call>): seq<History.Operation>
    requires HasSlots(s)
  {
    if calls == [] then []
    else Effects(s, calls[..|calls| - 1]) + Effect(After(s, calls[..|calls| - 1]).running, calls[|calls| - 1])
  }

  /** A ring without its statistics. */
  function Stream(ring: Ring): (r: Ring)
    ensures r.slots == ring.slots
  {
    ring.(processOutputCount := 0, writeMixCount := 0)
  }

  lemma {:induction false} StreamApplies(a: Ring, b: Ring, op: History.Operation)
    requires |a.slots| == CAPACITY && |b.slots| == CAPACITY && History.WellFormed(op) && Stream(a) == Stream(b)
    ensures Stream(History.Apply(a, op)) == Stream(History.Apply(b, op))
  {
  }

  lemma {:induction false} RunOne(ring: Ring, ops: seq<History.Operation>, op: History.Operation)
    requires |ring.slots| == CAPACITY && History.AllWellFormed(ops) && History.WellFormed(op)
    ensures History.AllWellFormed(ops + [op])
    ensures History.Run(ring, ops + [op]) == History.Apply(History.Run(ring, ops), op)
  {
    assert (ops + [op])[..|ops|] == ops;
  }

  /**
   Main result: whatever clients start, stop and mix, the ring is that of the history in which the first start
   resets it, the last stop deactivates it and every mix is captured, so that RingHoldsLastStores applies.
   */
  lemma {:induction false} CallsMakeHistory(s: State, calls: seq<Call>)
    requires HasSlots(s) && s.ring.Some?
    ensures History.AllWellFormed(Effects(s, calls))
    ensures After(s, calls).ring.Some?
    ensures Stream(After(s, calls).ring.value) == Stream(History.Run(s.ring.value, Effects(s, calls)))
    decreases |calls|
  {
    if calls != [] {
      var before, call := calls[..|calls| - 1], calls[|calls| - 1];
      CallsMakeHistory(s, before);
      CallApplies(After(s, before), call, History.Run(s.ring.value, Effects(s, before)));
      var effect := Effect(After(s, before).running, call);
      if effect == [] {
        assert Effects(s, calls) == Effects(s, before);
      } else {
        RunOne(s.ring.value, Effects(s, before), effect[0]);
        assert Effects(s, calls) == Effects(s, before) + [effect[0]];
      }
    }
  }

  lemma {:induction false} CallApplies(s: State, call: Call, ring: Ring)
    requires HasSlots(s) && s.ring.Some? && |ring.slots| == CAPACITY && Stream(s.ring.value) == Stream(ring)
    ensures var effect := Effect(s.running, call);
            && |effect| <= 1 && Called(s, call).ring.Some?
            && (effect == [] ==> Stream(Called(s, call).ring.value) == Stream(ring))
            && (|effect| == 1 ==> History.WellFormed(effect[0])
                                  && Stream(Called(s, call).ring.value) == Stream(History.Apply(ring, effect[0])))
  {
    if |Effect(s.running, call)| == 1 {
      StreamApplies(s.ring.value, ring, Effect(s.running, call)[0]);
    }
  }

  // ---- Statistics ----

  /** Whether the call is one for this stage of the output that reaches the ring. */
  function Observes(call: Call, operation: Operation): nat {
    if && call.DoIO? && call.target == ThisDevice && call.hasCycle && call.isOutput && call.source.Some?
       && call.operation == operation then 1 else 0
  }

  function Observed(calls: seq<Call>, operation: Operation): nat {
    if calls == [] then 0
    else Observed(calls[..|calls| - 1], operation) + Observes(calls[|calls| - 1], operation)
  }

  /** A 32-bit counter that is `n` ahead. */
  predicate Counts(before: nat, after: nat, n: nat) {
    after % UINT32_RANGE == (before + n) % UINT32_RANGE
  }

  predicate Ahead(before: Ring, after: Ring, processed: nat, mixed: nat) {
    && Counts(before.processOutputCount, after.processOutputCount, processed)
    && Counts(before.writeMixCount, after.writeMixCount, mixed)
  }

  lemma {:induction false} CountsOn(a: nat, b: nat, c: nat, m: nat, n: nat)
    requires Counts(a, b, m) && Counts(b, c, n)
    ensures Counts(a, c, m + n)
  {
  }

  lemma {:induction false} CallCounts(s: State, call: Call)
    requires HasSlots(s) && s.ring.Some? && !call.StartIO?
    ensures Called(s, call).ring.Some?
    ensures Ahead(s.ring.value, Called(s, call).ring.value, Observes(call, ProcessOutput), Observes(call, WriteMix))
  {
  }

  /**
   Between two starts the ring's statistics count the calls of each stage, up to their 32 bits and also on an
   invalid ring.
   */
  lemma {:induction false} StatisticsCount(s: State, calls: seq<Call>) returns (ring: Ring)
    requires HasSlots(s) && s.ring.Some? && forall call | call in calls :: !call.StartIO?
    ensures After(s, calls).ring == Some(ring)
    ensures Ahead(s.ring.value, ring, Observed(calls, ProcessOutput), Observed(calls, WriteMix))
    decreases |calls|
  {
    ring := s.ring.value;
    if calls != [] {
      var before, call := calls[..|calls| - 1], calls[|calls| - 1];
      assert call in calls && forall c | c in before :: c in calls;
      var r := StatisticsCount(s, before);
      CallCounts(After(s, before), call);
      ring := Called(After(s, before), call).ring.value;
      CountsOn(s.ring.value.processOutputCount, r.processOutputCount, ring.processOutputCount,
               Observed(before, ProcessOutput), Observes(call, ProcessOutput));
      CountsOn(s.ring.value.writeMixCount, r.writeMixCount, ring.writeMixCount,
               Observed(before, WriteMix), Observes(call, WriteMix));
    }
  }

  /** A first start sets the statistics of a valid ring back to zero, a further one leaves them. */
  lemma {:induction false} StartsKeepOrClearStatistics(s: State, now: nat)
    requires HasSlots(s) && s.ring.Some? && IsValid(s.ring.value)
    ensures var r, r' := s.ring.value, Called(s, StartIO(ThisDevice, now)).ring.value;
            && r'.processOutputCount == (if s.running == 0 then 0 else r.processOutputCount)
            && r'.writeMixCount == (if s.running == 0 then 0 else r.writeMixCount)
  {
  }

  /** How many clients are running: starts less stops that were not refused. */
  function Balance(calls: seq<Call>): nat {
    if calls == [] then 0
    else
      var before := Balance(calls[..|calls| - 1]);
      match calls[|calls| - 1]
      case StartIO(target, _) => if Validate(target) == NoError then before + 1 else before
      case StopIO(target) => if Validate(target) == NoError && before > 0 then before - 1 else before
      case DoIO(_, _, _, _, _, _) => before
  }

  /**
   As long as fewer than 2^32 clients are running, the count is their number: a stop is refused exactly when
   none is running.
   */
  lemma {:induction false} CountIsBalance(s: State, calls: seq<Call>)
    requires HasSlots(s) && s.running == 0
    requires forall i | 0 <= i <= |calls| :: Balance(calls[..i]) < UINT32_RANGE
    ensures After(s, calls).running == Balance(calls)
    ensures StatusOf(After(s, calls), StopIO(ThisDevice)) == NoError <==> Balance(calls) > 0
    decreases |calls|
  {
    assert calls[..|calls|] == calls;
    if calls != [] {
      var before := calls[..|calls| - 1];
      forall i | 0 <= i <= |before| ensures Balance(before[..i]) < UINT32_RANGE {
        assert before[..i] == calls[..i];
      }
      CountIsBalance(s, before);
    }
  }
}
