/**
 Starts, stops and mixes of several threads of the host, step by step, on one valid ring.

 The running count and the stream's activity are two atomic variables: the first start counts itself and only then
 resets the stream, and the last stop takes itself off the count and only then deactivates the stream.
 */
module DriverRace {
  import opened Types
  import opened SharedAudio
  import opened Driver

  /** The count, whether the stream is active, and how many threads still have to clear the activity. */
  datatype Race = Race(running: nat, active: bool, resets: nat, deactivations: nat)

  datatype Step =
    | Enter       // the fetch-add of a start
    | Reset       // the first store of the reset a first start makes
    | Leave       // the compare-exchange of a stop that succeeds
    | Deactivate  // the store of a last stop
    | Capture     // the last store of a mix that is captured

  ghost predicate Steps(s: Race, step: Step, s': Race) {
    match step
    case Enter => s' == s.(running := s.running + 1, resets := s.resets + if s.running == 0 then 1 else 0)
    case Reset => s.resets > 0 && s' == s.(active := false, resets := s.resets - 1)
    case Leave =>
      s.running > 0
      && s' == s.(running := s.running - 1, deactivations := s.deactivations + if s.running == 1 then 1 else 0)
    case Deactivate => s.deactivations > 0 && s' == s.(active := false, deactivations := s.deactivations - 1)
    case Capture => s' == s.(active := true)
  }

  ghost predicate Run(trace: seq<Race>, steps: seq<Step>) {
    && |trace| == |steps| + 1
    && forall i | 0 <= i < |steps| :: Steps(trace[i], steps[i], trace[i + 1])
  }

  // ---- Without interleaving ----

  /** The race state of a device between calls. */
  function AtRest(s: State): Race
    requires s.ring.Some?
  {
    Race(s.running, s.ring.value.writerActive, 0, 0)
  }

  /** The steps of a call that nothing interrupts. */
  function StepsOf(s: State, call: Call): seq<Step>
    requires s.ring.Some?
  {
    match call
    case StartIO(target, _) =>
      if Validate(target) != NoError then [] else if s.running == 0 then [Enter, Reset] else [Enter]
    case StopIO(target) =>
      if Validate(target) != NoError || s.running == 0 then []
      else if s.running == 1 then [Leave, Deactivate] else [Leave]
    case DoIO(_, _, _, operation, source, sampleTime) =>
      if Accepted(call) && operation.WriteMix? && Captures(s.ring.value, source, sampleTime, |source.value|)
      then [Capture] else []
  }

  /** A call that nothing interrupts is a run of its steps, with the outcome of the whole call. */
  lemma {:induction false} CallIsItsSteps(s: State, call: Call) returns (trace: seq<Race>)
    requires HasSlots(s) && s.ring.Some? && IsValid(s.ring.value) && s.running + 1 < UINT32_RANGE
    ensures Called(s, call).ring.Some?
    ensures Run(trace, StepsOf(s, call))
    ensures trace[0] == AtRest(s) && trace[|StepsOf(s, call)|] == AtRest(Called(s, call))
  {
    var from, to, steps := AtRest(s), AtRest(Called(s, call)), StepsOf(s, call);
    if steps == [] {
      trace := [from];
    } else if |steps| == 1 {
      trace := [from, to];
    } else if steps[0].Enter? {
      trace := [from, from.(running := 1, resets := 1), to];
    } else {
      trace := [from, from.(running := 0, deactivations := 1), to];
    }
  }

  // ---- With interleaving ----

  /** The device runs throughout. */
  ghost predicate Running(trace: seq<Race>) {
    forall i | 0 <= i < |trace| :: trace[i].running > 0
  }

  ghost predicate Outstanding(s: Race) {
    s.resets > 0 || s.deactivations > 0
  }

  /** While the device runs, the threads that have yet to clear the activity only become fewer. */
  lemma {:induction false} NoneOutstandingStaysActive(trace: seq<Race>, steps: seq<Step>, i: nat)
    requires Run(trace, steps) && Running(trace) && i <= |steps|
    requires trace[0].active && !Outstanding(trace[0])
    ensures trace[i].active && !Outstanding(trace[i])
  {
    if i > 0 {
      NoneOutstandingStaysActive(trace, steps, i - 1);
      assert Steps(trace[i - 1], steps[i - 1], trace[i]);
      assert trace[i].running > 0;
    }
  }

  /** In every continuation in which the device keeps running, the stream stays active. */
  ghost predicate ActiveWhileRunning(s: Race) {
    forall trace: seq<Race>, steps: seq<Step> | Run(trace, steps) && Running(trace) && trace[0] == s ::
      trace[|steps|].active
  }

  /**
   Main result: a mix that is captured while the device runs leaves the stream active for as long as the device
   keeps running, in every interleaving, if and only if no start has its reset and no stop its deactivation
   outstanding at that moment.
   */
  lemma {:induction false} StaysActiveIff(s: Race, captured: Race)
    requires s.running > 0 && Steps(s, Capture, captured)
    ensures ActiveWhileRunning(captured) <==> !Outstanding(s)
  {
    forall trace: seq<Race>, steps: seq<Step>
      | Run(trace, steps) && Running(trace) && trace[0] == captured && !Outstanding(s)
      ensures trace[|steps|].active
    {
      NoneOutstandingStaysActive(trace, steps, |steps|);
    }
    if Outstanding(s) {
      var step := if s.resets > 0 then Reset else Deactivate;
      var after := if s.resets > 0 then captured.(active := false, resets := s.resets - 1)
                   else captured.(active := false, deactivations := s.deactivations - 1);
      var trace, steps := [captured, after], [step];
      assert Run(trace, steps) && Running(trace);
      assert !trace[|steps|].active;
    }
  }

  ghost predicate Clears(step: Step) {
    step.Reset? || step.Deactivate?
  }

  /** Between two mixes the stream is silenced exactly by such a late store. */
  lemma {:induction false} SilencedByLateStore(trace: seq<Race>, steps: seq<Step>, i: nat)
    requires Run(trace, steps) && i <= |steps| && trace[0].active
    requires forall k | 0 <= k < i :: !steps[k].Capture?
    ensures !trace[i].active <==> exists k | 0 <= k < i :: Clears(steps[k])
  {
    if i > 0 {
      SilencedByLateStore(trace, steps, i - 1);
      assert Steps(trace[i - 1], steps[i - 1], trace[i]);
      assert Clears(steps[i - 1]) ==> !trace[i].active;
    }
  }

  /**
   What can be outstanding: at rest nothing; over a run, no more resets than sessions begun, no more
   deactivations than sessions ended, and a running device has begun one more than it has ended.
   */
  ghost predicate Sessions(s: Race, begun: nat, ended: nat) {
    s.resets <= begun && s.deactivations <= ended && begun == ended + if s.running > 0 then 1 else 0
  }

  ghost function Begun(trace: seq<Race>, steps: seq<Step>, i: nat): nat
    requires |trace| == |steps| + 1 && i <= |steps|
  {
    if i == 0 then 0
    else Begun(trace, steps, i - 1) + if steps[i - 1].Enter? && trace[i - 1].running == 0 then 1 else 0
  }

  ghost function Ended(trace: seq<Race>, steps: seq<Step>, i: nat): nat
    requires |trace| == |steps| + 1 && i <= |steps|
  {
    if i == 0 then 0
    else Ended(trace, steps, i - 1) + if steps[i - 1].Leave? && trace[i - 1].running == 1 then 1 else 0
  }

  lemma {:induction false} RunHasSessions(trace: seq<Race>, steps: seq<Step>, i: nat)
    requires Run(trace, steps) && i <= |steps| && trace[0].running == 0 && !Outstanding(trace[0])
    ensures Sessions(trace[i], Begun(trace, steps, i), Ended(trace, steps, i))
  {
    if i > 0 {
      RunHasSessions(trace, steps, i - 1);
      assert Steps(trace[i - 1], steps[i - 1], trace[i]);
    }
  }

  /**
   Main result: the run in which the last stop is overtaken. It takes itself off the count, another client starts,
   resets and mixes, and then the stop clears the activity: the device runs, a mix of the new session was
   captured, nothing is outstanding, and the stream is inactive until the next mix.
   */
  lemma {:induction false} OvertakenStopSilences(active: bool)
    returns (trace: seq<Race>, steps: seq<Step>)
    ensures Run(trace, steps) && trace[0] == Race(0, active, 0, 0)
    ensures steps == [Enter, Reset, Capture, Leave, Enter, Reset, Capture, Deactivate]
    ensures trace[|steps| - 1].active && trace[|steps|] == Race(1, false, 0, 0)
    ensures forall s | Steps(trace[|steps|], Capture, s) :: ActiveWhileRunning(s)
  {
    steps := [Enter, Reset, Capture, Leave, Enter, Reset, Capture, Deactivate];
    trace := [Race(0, active, 0, 0), Race(1, active, 1, 0), Race(1, false, 0, 0), Race(1, true, 0, 0),
              Race(0, true, 0, 1), Race(1, true, 1, 1), Race(1, false, 0, 1), Race(1, true, 0, 1),
              Race(1, false, 0, 0)];
    forall s | Steps(trace[|steps|], Capture, s) ensures ActiveWhileRunning(s) {
      StaysActiveIff(trace[|steps|], s);
    }
  }
}
