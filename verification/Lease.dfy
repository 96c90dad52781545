/**
 Lease reclamation of common/SecureAudioWriter.c.

 Render callbacks count themselves in, load the current ring, use it and count themselves out. The serial
 control queue exchanges the ring and deallocates an old one only after it has read a lease count of zero.
 Every step below is one atomic operation, and steps of any number of callbacks interleave with the queue's.
 A ring is known by an identity that is never allocated twice.
 */
module Lease {
  import opened Types

  type Thread = nat
  type RingId = nat

  /** A callback between its fetch-add and its fetch-sub. */
  datatype Callback = Counted | Loaded(ring: Option<RingId>)

  /** Where the block that runs on the control queue stands. */
  datatype Control =
    | Idle
    | Allocated(replacement: Option<RingId>)  // about to exchange
    | Retiring(ring: RingId)            // about to read the leases
    | Deactivating(ring: RingId)        // has read zero
    | Deallocating(ring: RingId)

  datatype State = State(
    leases: nat,
    current: Option<RingId>,
    callbacks: map<Thread, Callback>,
    control: Control,
    queued: multiset<RingId>,           // blocks that will retire a ring later
    freed: multiset<RingId>,            // every deallocation so far
    created: set<RingId>,               // every allocation so far
    active: set<RingId>)                // rings whose writerActive is set

  datatype Step =
    | FetchAdd(thread: Thread)
    | Load(thread: Thread)
    | Access(thread: Thread, activate: bool)
    | FetchSub(thread: Thread)
    | Allocate(replacement: Option<RingId>)
    | Exchange
    | Poll(ring: RingId)
    | ReadLeases
    | Deactivate
    | Deallocate

  function Initial(): State {
    State(0, None, map[], Idle, multiset{}, multiset{}, {}, {})
  }

  predicate Holds(s: State, t: Thread, ring: RingId) {
    t in s.callbacks && s.callbacks[t] == Loaded(Some(ring))
  }

  /** What the system allows next. The count is 32 bits wide and wraps around. */
  predicate Enabled(s: State, step: Step) {
    match step
    case FetchAdd(t) => t !in s.callbacks
    case Load(t) => t in s.callbacks && s.callbacks[t].Counted?
    case Access(t, _) => t in s.callbacks && s.callbacks[t].Loaded? && s.callbacks[t].ring.Some?
    case FetchSub(t) => t in s.callbacks && s.callbacks[t].Loaded?
    case Allocate(replacement) => s.control.Idle? && (replacement.Some? ==> replacement.value !in s.created)
    case Exchange => s.control.Allocated?
    case Poll(ring) => s.control.Idle? && ring in s.queued
    case ReadLeases => s.control.Retiring?
    case Deactivate => s.control.Deactivating?
    case Deallocate => s.control.Deallocating?
  }

  function Next(s: State, step: Step): State
    requires Enabled(s, step)
  {
    match step
    case FetchAdd(t) =>
      s.(leases := (s.leases + 1) % UINT32_RANGE, callbacks := s.callbacks[t := Counted])
    case Load(t) =>
      s.(callbacks := s.callbacks[t := Loaded(s.current)])
    case Access(t, activate) =>
      var ring := s.callbacks[t].ring.value;
      s.(active := if activate then s.active + {ring} else s.active - {ring})
    case FetchSub(t) =>
      s.(leases := (s.leases - 1) % UINT32_RANGE, callbacks := s.callbacks - {t})
    case Allocate(replacement) =>
      s.(control := Allocated(replacement), created := s.created + Single(replacement))
    case Exchange =>
      s.(current := s.control.replacement, control := if s.current.Some? then Retiring(s.current.value) else Idle)
    case Poll(ring) =>
      s.(control := Retiring(ring), queued := s.queued - multiset{ring})
    case ReadLeases =>
      if s.leases == 0 then s.(control := Deactivating(s.control.ring))
      else s.(control := Idle, queued := s.queued + multiset{s.control.ring})
    case Deactivate =>
      s.(active := s.active - {s.control.ring}, control := Deallocating(s.control.ring))
    case Deallocate =>
      s.(freed := s.freed + multiset{s.control.ring}, control := Idle)
  }

  /** A ring becomes active or inactive by a callback that holds it, and inactive when it is retired, and only so. */
  lemma {:induction false} ActivityChangesExactly(s: State, step: Step, r: RingId)
    requires Enabled(s, step)
    ensures r in Next(s, step).active <==>
            if step.Access? && Holds(s, step.thread, r) then step.activate
            else r in s.active && !(step.Deactivate? && s.control == Deactivating(r))
  {
  }

  function Single(ring: Option<RingId>): set<RingId> {
    if ring.Some? then {ring.value} else {}
  }

  /** Whether the control queue is working on the ring. */
  predicate InControl(control: Control, ring: RingId) {
    match control
    case Idle => false
    case Allocated(replacement) => replacement == Some(ring)
    case Retiring(r) => r == ring
    case Deactivating(r) => r == ring
    case Deallocating(r) => r == ring
  }

  /** How many places a ring is in. */
  function Places(s: State, ring: RingId): nat {
    (if s.current == Some(ring) then 1 else 0)
    + (if InControl(s.control, ring) then 1 else 0)
    + s.queued[ring] + s.freed[ring]
  }

  /** The control queue has read a lease count of zero for this ring. */
  predicate Doomed(s: State, ring: RingId) {
    s.control == Deactivating(ring) || s.control == Deallocating(ring) || ring in s.freed
  }

  /**
   The invariant. The count is the number of callbacks, every allocated ring is in exactly one place, nobody
   holds a ring that has been found unused, and a ring about to be deallocated is inactive for good.
   */
  ghost predicate Inv(s: State) {
    && s.leases == |s.callbacks| < UINT32_RANGE
    && (forall r :: Places(s, r) == if r in s.created then 1 else 0)
    && (forall t, r | Holds(s, t, r) :: r in s.created && !Doomed(s, r))
    && (forall r | r in s.active :: r in s.created && r !in s.freed && s.control != Deallocating(r))
  }

  lemma {:induction false} CurrentIsNotDoomed(s: State, r: RingId)
    requires Inv(s) && s.current == Some(r)
    ensures r in s.created && !Doomed(s, r)
  {
    assert Places(s, r) <= 1;
  }

  /** A step of a callback. */
  predicate ByCallback(step: Step) {
    step.FetchAdd? || step.Load? || step.Access? || step.FetchSub?
  }

  lemma {:induction false} SizeWith<K, V>(m: map<K, V>, k: K, v: V)
    ensures |m[k := v]| == |m| + if k in m then 0 else 1
  {
    assert m[k := v].Keys == m.Keys + {k};
    assert |m| == |m.Keys| && |m[k := v]| == |m[k := v].Keys|;
  }

  lemma {:induction false} SizeWithout<K, V>(m: map<K, V>, k: K)
    requires k in m
    ensures |m - {k}| == |m| - 1
  {
    assert (m - {k}).Keys == m.Keys - {k};
    assert |m| == |m.Keys| && |m - {k}| == |(m - {k}).Keys|;
  }

  lemma {:induction false} CountUpAndDown(n: nat)
    ensures n + 1 < UINT32_RANGE ==> (n + 1) % UINT32_RANGE == n + 1
    ensures 0 < n < UINT32_RANGE ==> (n - 1) % UINT32_RANGE == n - 1
  {
  }

  lemma {:induction false} CallbackKeepsCount(s: State, step: Step)
    requires s.leases == |s.callbacks| < UINT32_RANGE && Enabled(s, step) && ByCallback(step)
    requires |Next(s, step).callbacks| < UINT32_RANGE
    ensures Next(s, step).leases == |Next(s, step).callbacks|
  {
    CountUpAndDown(s.leases);
    if step.FetchAdd? {
      SizeWith(s.callbacks, step.thread, Counted);
    } else if step.Load? {
      SizeWith(s.callbacks, step.thread, Loaded(s.current));
    } else if step.FetchSub? {
      SizeWithout(s.callbacks, step.thread);
    }
  }

  lemma {:induction false} CallbackKeepsHolders(s: State, step: Step, t: Thread, r: RingId)
    requires Inv(s) && Enabled(s, step) && ByCallback(step) && Holds(Next(s, step), t, r)
    ensures r in Next(s, step).created && !Doomed(Next(s, step), r)
  {
    if step == Load(t) {
      CurrentIsNotDoomed(s, r);
    } else {
      assert Holds(s, t, r);
    }
  }

  lemma {:induction false} CallbackKeepsInv(s: State, step: Step)
    requires Inv(s) && Enabled(s, step) && ByCallback(step) && |Next(s, step).callbacks| < UINT32_RANGE
    ensures Inv(Next(s, step))
  {
    var s' := Next(s, step);
    CallbackKeepsCount(s, step);
    forall r ensures Places(s', r) == if r in s'.created then 1 else 0 {
      assert Places(s', r) == Places(s, r);
    }
    forall t, r | Holds(s', t, r) ensures r in s'.created && !Doomed(s', r) {
      CallbackKeepsHolders(s, step, t, r);
    }
    if step.Access? {
      assert Holds(s, step.thread, s.callbacks[step.thread].ring.value);
    }
  }

  /** A step of the control queue moves one ring from one place to another, or brings in a new one. */
  lemma {:induction false} ControlKeepsPlaces(s: State, step: Step, r: RingId)
    requires Inv(s) && Enabled(s, step)
    requires !ByCallback(step)
    ensures Places(Next(s, step), r) == if r in Next(s, step).created then 1 else 0
  {
    assert Places(s, r) == if r in s.created then 1 else 0;
  }

  lemma {:induction false} NobodyHolds(s: State)
    requires Inv(s) && s.leases == 0
    ensures s.callbacks == map[]
  {
  }

  lemma {:induction false} ControlKeepsHolders(s: State, step: Step, t: Thread, r: RingId)
    requires Inv(s) && Enabled(s, step) && Holds(Next(s, step), t, r)
    requires !ByCallback(step)
    ensures r in Next(s, step).created && !Doomed(Next(s, step), r)
  {
    assert Holds(s, t, r);
    if s.leases == 0 {
      NobodyHolds(s);
    }
  }

  lemma {:induction false} ControlKeepsInv(s: State, step: Step)
    requires Inv(s) && Enabled(s, step)
    requires !ByCallback(step)
    ensures Inv(Next(s, step))
  {
    var s' := Next(s, step);
    forall r ensures Places(s', r) == if r in s'.created then 1 else 0 {
      ControlKeepsPlaces(s, step, r);
    }
    forall t, r | Holds(s', t, r) ensures r in s'.created && !Doomed(s', r) {
      ControlKeepsHolders(s, step, t, r);
    }
    forall r | r in s'.active ensures r in s'.created && r !in s'.freed && s'.control != Deallocating(r) {
      assert Places(s', r) == 1;
    }
  }

  lemma {:induction false} StepKeepsInv(s: State, step: Step)
    requires Inv(s) && Enabled(s, step) && |Next(s, step).callbacks| < UINT32_RANGE
    ensures Inv(Next(s, step))
  {
    if ByCallback(step) {
      CallbackKeepsInv(s, step);
    } else {
      ControlKeepsInv(s, step);
    }
  }

  // ---- Runs ----

  /** A run: the states before, between and after its steps. */
  ghost predicate Run(trace: seq<State>, steps: seq<Step>) {
    && |trace| == |steps| + 1
    && trace[0] == Initial()
    && forall i | 0 <= i < |steps| :: Enabled(trace[i], steps[i]) && trace[i + 1] == Next(trace[i], steps[i])
  }

  /** At no time do more than n callbacks run. */
  ghost predicate AtMost(trace: seq<State>, n: nat) {
    forall i | 0 <= i < |trace| :: |trace[i].callbacks| <= n
  }

  lemma {:induction false} RunKeepsInv(trace: seq<State>, steps: seq<Step>, i: nat)
    requires Run(trace, steps) && AtMost(trace, UINT32_RANGE - 1) && i <= |steps|
    ensures Inv(trace[i])
  {
    if i > 0 {
      RunKeepsInv(trace, steps, i - 1);
      StepKeepsInv(trace[i - 1], steps[i - 1]);
    }
  }

  /**
   Main result: in every run, whatever the interleaving, a callback that touches a ring touches one that has
   not been deallocated and that the control queue has not found unused.
   */
  lemma {:induction false} AccessIsSafe(trace: seq<State>, steps: seq<Step>, i: nat)
    requires Run(trace, steps) && AtMost(trace, UINT32_RANGE - 1) && i < |steps| && steps[i].Access?
    ensures var ring := trace[i].callbacks[steps[i].thread].ring.value;
            ring in trace[i].created && ring !in trace[i].freed && !Doomed(trace[i], ring)
  {
    RunKeepsInv(trace, steps, i);
    assert Holds(trace[i], steps[i].thread, trace[i].callbacks[steps[i].thread].ring.value);
  }

  /**
   Main result: every ring ever allocated is in exactly one place: current, with the control queue, waiting
   for another look at the leases, or deallocated; and it is deallocated at most once.
   */
  lemma {:induction false} EveryRingIsInOnePlace(trace: seq<State>, steps: seq<Step>, i: nat, r: RingId)
    requires Run(trace, steps) && AtMost(trace, UINT32_RANGE - 1) && i <= |steps|
    ensures Places(trace[i], r) == if r in trace[i].created then 1 else 0
    ensures trace[i].freed[r] <= 1
  {
    RunKeepsInv(trace, steps, i);
  }

  /** A ring that is neither current nor about to become it. */
  predicate Replaced(s: State, r: RingId) {
    r in s.created && s.current != Some(r) && s.control != Allocated(Some(r))
  }

  /** Once replaced, a ring never becomes current again. */
  lemma {:induction false} ReplacedForGood(trace: seq<State>, steps: seq<Step>, r: RingId, i: nat, j: nat)
    requires Run(trace, steps) && i <= j <= |steps| && Replaced(trace[i], r)
    ensures Replaced(trace[j], r)
    decreases j
  {
    if i < j {
      ReplacedForGood(trace, steps, r, i, j - 1);
      assert Enabled(trace[j - 1], steps[j - 1]);
    }
  }

  lemma {:induction false} ExchangeReplaces(trace: seq<State>, steps: seq<Step>, j: nat, r: RingId)
    requires Run(trace, steps) && AtMost(trace, UINT32_RANGE - 1) && j < |steps|
    requires steps[j].Exchange? && trace[j].current == Some(r)
    ensures Replaced(trace[j + 1], r)
  {
    RunKeepsInv(trace, steps, j);
    assert Places(trace[j], r) <= 1;
  }

  /** The load that gave a callback its ring, and which it has held since. */
  ghost predicate LoadedAt(trace: seq<State>, steps: seq<Step>, t: Thread, r: RingId, k: nat, i: nat)
    requires Run(trace, steps) && i <= |steps|
  {
    && k < i && steps[k] == Load(t) && trace[k].current == Some(r)
    && forall m | k < m <= i :: Holds(trace[m], t, r)
  }

  lemma {:induction false} HolderLoaded(trace: seq<State>, steps: seq<Step>, t: Thread, r: RingId,
                                        i: nat) returns (k: nat)
    requires Run(trace, steps) && i <= |steps| && Holds(trace[i], t, r)
    ensures LoadedAt(trace, steps, t, r, k, i)
  {
    if steps[i - 1] == Load(t) {
      k := i - 1;
    } else {
      k := HolderLoaded(trace, steps, t, r, i - 1);
    }
  }

  /**
   Main result: a ring that an exchange has taken out is touched afterwards only by callbacks that loaded it
   before that exchange and have not released it since.
   */
  lemma {:induction false} LateAccessLoadedEarly(trace: seq<State>, steps: seq<Step>, j: nat, i: nat,
                                                 r: RingId) returns (k: nat)
    requires Run(trace, steps) && AtMost(trace, UINT32_RANGE - 1) && j < i < |steps|
    requires steps[j].Exchange? && trace[j].current == Some(r)
    requires steps[i].Access? && Holds(trace[i], steps[i].thread, r)
    ensures k < j && LoadedAt(trace, steps, steps[i].thread, r, k, i)
  {
    k := HolderLoaded(trace, steps, steps[i].thread, r, i);
    if j <= k {
      ExchangeReplaces(trace, steps, j, r);
      if j < k {
        ReplacedForGood(trace, steps, r, j + 1, k);
      }
    }
  }

  /** A deallocated ring was left inactive, for the readers that still map it, and stays so. */
  lemma {:induction false} FreedForGood(trace: seq<State>, steps: seq<Step>, r: RingId, i: nat, j: nat)
    requires Run(trace, steps) && AtMost(trace, UINT32_RANGE - 1) && i <= j <= |steps| && r in trace[i].freed
    ensures r in trace[j].freed && r !in trace[j].active
  {
    FreedStaysFreed(trace, steps, r, i, j);
    RunKeepsInv(trace, steps, j);
  }

  lemma {:induction false} FreedStaysFreed(trace: seq<State>, steps: seq<Step>, r: RingId, i: nat, j: nat)
    requires Run(trace, steps) && i <= j <= |steps| && r in trace[i].freed
    ensures r in trace[j].freed
    decreases j - i
  {
    if i < j {
      StepKeepsFreed(trace[i], steps[i], r);
      FreedStaysFreed(trace, steps, r, i + 1, j);
    }
  }

  lemma {:induction false} StepKeepsFreed(s: State, step: Step, r: RingId)
    requires Enabled(s, step) && r in s.freed
    ensures r in Next(s, step).freed
  {
  }

  // ---- How many callbacks the count can stand ----

  /** In runs of at most n callbacks at a time, no callback touches a deallocated ring. */
  ghost predicate SafeWith(n: nat) {
    forall trace: seq<State>, steps: seq<Step>, i: nat |
      Run(trace, steps) && AtMost(trace, n) && i < |steps| && steps[i].Access? ::
      trace[i].callbacks[steps[i].thread].ring.value !in trace[i].freed
  }

  /** One more step of a run. */
  lemma {:induction false} OneMore(trace: seq<State>, steps: seq<Step>, step: Step, n: nat)
    returns (trace': seq<State>, steps': seq<Step>)
    requires Run(trace, steps) && AtMost(trace, n) && Enabled(trace[|steps|], step)
    requires |Next(trace[|steps|], step).callbacks| <= n
    ensures Run(trace', steps') && AtMost(trace', n)
    ensures steps' == steps + [step] && trace' == trace + [Next(trace[|steps|], step)]
  {
    RunGrows(trace, steps, step, Next(trace[|steps|], step));
    trace', steps' := trace + [Next(trace[|steps|], step)], steps + [step];
  }

  lemma {:induction false} RunGrows(trace: seq<State>, steps: seq<Step>, step: Step, next: State)
    requires Run(trace, steps) && Enabled(trace[|steps|], step) && next == Next(trace[|steps|], step)
    ensures Run(trace + [next], steps + [step])
  {
    var trace', steps' := trace + [next], steps + [step];
    forall i | 0 <= i < |steps'| ensures Enabled(trace'[i], steps'[i]) && trace'[i + 1] == Next(trace'[i], steps'[i]) {
      if i < |steps| {
        assert trace'[i] == trace[i] && steps'[i] == steps[i] && trace'[i + 1] == trace[i + 1];
      }
    }
  }

  /** Callbacks 1 to k come in after callback 0 and stay. */
  lemma {:induction false} Enter(trace: seq<State>, steps: seq<Step>, k: nat)
    returns (trace': seq<State>, steps': seq<Step>)
    requires Run(trace, steps) && AtMost(trace, UINT32_RANGE) && k < UINT32_RANGE
    requires trace[|steps|].leases == 1 && trace[|steps|].callbacks.Keys == {0}
    ensures Run(trace', steps') && AtMost(trace', UINT32_RANGE)
    ensures var s, s' := trace[|steps|], trace'[|steps'|];
            && s' == s.(leases := (1 + k) % UINT32_RANGE, callbacks := s'.callbacks)
            && |s'.callbacks| == 1 + k && 0 in s'.callbacks && s'.callbacks[0] == s.callbacks[0]
            && forall t | t in s'.callbacks :: t <= k
  {
    if k == 0 {
      trace', steps' := trace, steps;
      assert |trace[|steps|].callbacks| == |trace[|steps|].callbacks.Keys|;
    } else {
      trace', steps' := Enter(trace, steps, k - 1);
      var s := trace'[|steps'|];
      SizeWith(s.callbacks, k, Counted);
      trace', steps' := OneMore(trace', steps', FetchAdd(k), UINT32_RANGE);
    }
  }

  /** Callback 0 holds ring 0. */
  lemma {:induction false} FirstCallback() returns (trace: seq<State>, steps: seq<Step>)
    ensures Run(trace, steps) && AtMost(trace, UINT32_RANGE)
    ensures trace[|steps|] == State(1, Some(0), map[0 := Loaded(Some(0))], Idle, multiset{}, multiset{}, {0}, {})
  {
    trace, steps := [Initial()], [];
    trace, steps := OneMore(trace, steps, Allocate(Some(0)), UINT32_RANGE);
    trace, steps := OneMore(trace, steps, Exchange, UINT32_RANGE);
    trace, steps := OneMore(trace, steps, FetchAdd(0), UINT32_RANGE);
    trace, steps := OneMore(trace, steps, Load(0), UINT32_RANGE);
  }

  /** With 2^32 callbacks the count is back at zero, and a ring is deallocated while one of them holds it. */
  lemma {:induction false} WrapAround() returns (trace: seq<State>, steps: seq<Step>)
    ensures Run(trace, steps) && AtMost(trace, UINT32_RANGE)
    ensures Holds(trace[|steps|], 0, 0) && 0 in trace[|steps|].freed
  {
    trace, steps := FirstCallback();
    trace, steps := Enter(trace, steps, UINT32_RANGE - 1);
    trace, steps := OneMore(trace, steps, Allocate(None), UINT32_RANGE);
    trace, steps := OneMore(trace, steps, Exchange, UINT32_RANGE);
    trace, steps := OneMore(trace, steps, ReadLeases, UINT32_RANGE);
    trace, steps := OneMore(trace, steps, Deactivate, UINT32_RANGE);
    trace, steps := OneMore(trace, steps, Deallocate, UINT32_RANGE);
  }

  /** Main result: the scheme is safe for any number of callbacks below 2^32 at a time, and for no more. */
  lemma {:induction false} SafeIffCountCannotWrap(n: nat)
    ensures SafeWith(n) <==> n < UINT32_RANGE
  {
    if n < UINT32_RANGE {
      forall trace: seq<State>, steps: seq<Step>, i: nat |
        Run(trace, steps) && AtMost(trace, n) && i < |steps| && steps[i].Access?
        ensures trace[i].callbacks[steps[i].thread].ring.value !in trace[i].freed
      {
        AccessIsSafe(trace, steps, i);
      }
    } else {
      var trace, steps := WrapAround();
      trace, steps := OneMore(trace, steps, Access(0, false), UINT32_RANGE);
      var i := |steps| - 1;
      assert AtMost(trace, n) && steps[i] == Access(0, false) && Holds(trace[i], 0, 0) && 0 in trace[i].freed;
    }
  }

  // ---- No ring is kept for ever ----

  function RunAll(s: State, steps: seq<Step>): Option<State>
    decreases |steps|
  {
    if steps == [] then Some(s)
    else if Enabled(s, steps[0]) then RunAll(Next(s, steps[0]), steps[1..])
    else None
  }

  /** One look at a queued ring. */
  function PollSteps(ring: RingId): seq<Step> {
    [Poll(ring), ReadLeases, Deactivate, Deallocate]
  }

  /** With no callback running, the next look at a queued ring deallocates it. */
  lemma {:induction false} PollFrees(s: State, ring: RingId)
    requires Inv(s) && s.control.Idle? && s.callbacks == map[] && ring in s.queued
    ensures var s' := s.(queued := s.queued - multiset{ring}, freed := s.freed + multiset{ring},
                         active := s.active - {ring});
            RunAll(s, PollSteps(ring)) == Some(s') && Inv(s')
  {
    var s1 := Next(s, Poll(ring));
    var s2 := Next(s1, ReadLeases);
    var s3 := Next(s2, Deactivate);
    StepKeepsInv(s, Poll(ring));
    StepKeepsInv(s1, ReadLeases);
    StepKeepsInv(s2, Deactivate);
    StepKeepsInv(s3, Deallocate);
    RunRetire(s1);
    FirstStep(s, Poll(ring), RETIRE);
    assert [Poll(ring)] + RETIRE == PollSteps(ring);
  }

  const RETIRE: seq<Step> := [ReadLeases, Deactivate, Deallocate]

  lemma {:induction false} FirstStep(s: State, step: Step, rest: seq<Step>)
    requires Enabled(s, step)
    ensures RunAll(s, [step] + rest) == RunAll(Next(s, step), rest)
  {
    assert ([step] + rest)[1..] == rest;
  }

  lemma {:induction false} OneStep(s: State, step: Step)
    requires Enabled(s, step)
    ensures RunAll(s, [step]) == Some(Next(s, step))
  {
    FirstStep(s, step, []);
    assert [step] + [] == [step];
  }

  lemma {:induction false} TwoSteps(s: State, a: Step, b: Step)
    requires Enabled(s, a) && Enabled(Next(s, a), b)
    ensures RunAll(s, [a, b]) == Some(Next(Next(s, a), b))
  {
    OneStep(Next(s, a), b);
    FirstStep(s, a, [b]);
    assert [a] + [b] == [a, b];
  }

  lemma {:induction false} RunRetire(s: State)
    requires s.control.Retiring? && s.leases == 0
    ensures RunAll(s, RETIRE) == Some(s.(freed := s.freed + multiset{s.control.ring},
                                         active := s.active - {s.control.ring}, control := Idle))
  {
    var s1 := Next(s, ReadLeases);
    TwoSteps(s1, Deactivate, Deallocate);
    FirstStep(s, ReadLeases, [Deactivate, Deallocate]);
    assert [ReadLeases] + [Deactivate, Deallocate] == RETIRE;
  }

  lemma {:induction false} RunInTwoParts(s: State, a: seq<Step>, b: seq<Step>)
    requires RunAll(s, a).Some?
    ensures RunAll(s, a + b) == RunAll(RunAll(s, a).value, b)
    decreases |a|
  {
    if a == [] {
      assert a + b == b;
    } else {
      assert (a + b)[1..] == a[1..] + b;
      RunInTwoParts(Next(s, a[0]), a[1..], b);
    }
  }

  /** Main result: whenever the callbacks are gone, the queue can deallocate everything it has kept. */
  lemma {:induction false} QueueDrains(s: State) returns (steps: seq<Step>)
    requires Inv(s) && s.control.Idle? && s.callbacks == map[]
    ensures RunAll(s, steps).Some?
    ensures var s' := RunAll(s, steps).value;
            Inv(s') && s'.queued == multiset{} && s'.freed == s.freed + s.queued && s'.current == s.current
    decreases |s.queued|
  {
    steps := [];
    if s.queued != multiset{} {
      var ring :| ring in s.queued;
      PollFrees(s, ring);
      var s' := RunAll(s, PollSteps(ring)).value;
      var rest := QueueDrains(s');
      steps := PollSteps(ring) + rest;
      RunInTwoParts(s, PollSteps(ring), rest);
      assert s'.freed + s'.queued == s.freed + s.queued;
    } else {
      assert s.freed + s.queued == s.freed;
    }
  }

  // ---- The functions of the source ----

  /**
   The static variables and the functions that change them. Each method is one function's atomic operations in
   order; `callbacks`, `freed` and `created` are the threads' and the kernel's part of the state.
   */
  class Writer {
    var leases: nat
    var currentAudio: Option<RingId>
    var queued: multiset<RingId>
    var active: set<RingId>
    ghost var callbacks: map<Thread, Callback>
    ghost var freed: multiset<RingId>
    ghost var created: set<RingId>

    ghost function Value(control: Control): State
      reads this
    {
      State(leases, currentAudio, callbacks, control, queued, freed, created, active)
    }

    constructor ()
      ensures Value(Idle) == Initial()
    {
      leases, currentAudio, queued, active := 0, None, multiset{}, {};
      callbacks, freed, created := map[], multiset{}, {};
    }

    method Acquire(ghost t: Thread) returns (audio: Option<RingId>)
      requires Enabled(Value(Idle), FetchAdd(t))
      modifies this
      ensures RunAll(old(Value(Idle)), [FetchAdd(t), Load(t)]) == Some(Value(Idle))
      ensures audio == currentAudio
    {
      TwoSteps(Value(Idle), FetchAdd(t), Load(t));
      leases := (leases + 1) % UINT32_RANGE;
      callbacks := callbacks[t := Counted];
      audio := currentAudio;
      callbacks := callbacks[t := Loaded(audio)];
    }

    method Release(ghost t: Thread)
      requires Enabled(Value(Idle), FetchSub(t))
      modifies this
      ensures RunAll(old(Value(Idle)), [FetchSub(t)]) == Some(Value(Idle))
    {
      OneStep(Value(Idle), FetchSub(t));
      leases := (leases - 1) % UINT32_RANGE;
      callbacks := callbacks - {t};
    }

    method Retire(audio: Option<RingId>)
      modifies this`queued, this`active, this`freed
      ensures audio == None ==> Value(Idle) == old(Value(Idle))
      ensures audio.Some? ==>
                RunAll(old(Value(Retiring(audio.value))), RetireSteps(leases)) == Some(Value(Idle))
    {
      if audio == None {
        return;
      }
      if leases == 0 {
        RunRetire(Value(Retiring(audio.value)));
        active := active - {audio.value};
        freed := freed + multiset{audio.value};
      } else {
        OneStep(Value(Retiring(audio.value)), ReadLeases);
        queued := queued + multiset{audio.value};
      }
    }

    /** The rotate handler, or with no replacement also the handler of a connection error. */
    method Rotate(replacement: Option<RingId>)
      requires Enabled(Value(Idle), Allocate(replacement))
      modifies this
      ensures currentAudio == replacement && leases == old(leases)
      ensures RunAll(old(Value(Idle)),
                     [Allocate(replacement), Exchange]
                     + if old(currentAudio).Some? then RetireSteps(leases) else [])
              == Some(Value(Idle))
    {
      ghost var before := Value(Idle);
      created := created + Single(replacement);
      var audio := currentAudio;
      currentAudio := replacement;
      TwoSteps(before, Allocate(replacement), Exchange);
      RunInTwoParts(before, [Allocate(replacement), Exchange], if audio.Some? then RetireSteps(leases) else []);
      Retire(audio);
    }

    /** A block that dispatch_after has queued. */
    method RetireAgain(audio: RingId)
      requires audio in queued
      modifies this
      ensures RunAll(old(Value(Idle)), [Poll(audio)] + RetireSteps(leases)) == Some(Value(Idle))
    {
      FirstStep(Value(Idle), Poll(audio), RetireSteps(leases));
      queued := queued - multiset{audio};
      Retire(Some(audio));
    }
  }

  /** What Retire does with a ring at a given lease count. */
  function RetireSteps(leases: nat): seq<Step> {
    if leases == 0 then RETIRE else [ReadLeases]
  }
}
