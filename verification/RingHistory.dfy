/**
 What a ring contains after any history of resets, captures and stops: for each residue class modulo the
 capacity, the last frame stored in it since the last reset, and nothing else.
 */
module RingHistory {
  import opened Types
  import opened SharedAudio

  datatype Operation =
    | ResetOp(now: nat)
    | CaptureOp(source: Option<seq<Stereo>>, sampleTime: Float, frameCount: nat)
    | DeactivateOp  // the last StopIO only clears writerActive

  /** A mix buffer holds at least the announced number of frames. */
  predicate WellFormed(op: Operation) {
    op.CaptureOp? && op.source.Some? ==> op.frameCount <= |op.source.value|
  }

  function Apply(ring: Ring, op: Operation): (r: Ring)
    requires |ring.slots| == CAPACITY && WellFormed(op)
    ensures |r.slots| == CAPACITY
  {
    match op
    case ResetOp(now) => Reset(ring, now)
    case CaptureOp(source, time, count) => Capture(ring, source, time, count)
    case DeactivateOp => if IsValid(ring) then ring.(writerActive := false) else ring
  }

  ghost predicate AllWellFormed(ops: seq<Operation>) {
    forall op | op in ops :: WellFormed(op)
  }

  ghost function Run(ring: Ring, ops: seq<Operation>): (r: Ring)
    requires |ring.slots| == CAPACITY && AllWellFormed(ops)
    ensures |r.slots| == CAPACITY
    ensures IsValid(r) == IsValid(ring)
  {
    if ops == [] then ring else Apply(Run(ring, ops[..|ops| - 1]), ops[|ops| - 1])
  }

  // ---- The reference: a log of everything stored since the last reset ----

  datatype Entry = Entry(frame: nat, stereo: Stereo)

  function Published(first: nat, samples: seq<Stereo>): (log: seq<Entry>)
    ensures |log| == |samples|
  {
    seq(|samples|, k requires 0 <= k < |samples| => Entry(first + k, samples[k]))
  }

  ghost function Log(valid: bool, ops: seq<Operation>): seq<Entry>
    requires AllWellFormed(ops)
  {
    if ops == [] || !valid then []
    else
      var before := Log(valid, ops[..|ops| - 1]);
      var op := ops[|ops| - 1];
      assert WellFormed(op);
      match op
      case ResetOp(_) => []
      case DeactivateOp => before
      case CaptureOp(source, time, count) =>
        if source.Some? && time.Finite? && 0.0 <= time.value < SAMPLE_TIME_LIMIT then
          before + Published(time.value.Floor + Skipped(count), source.value[Skipped(count)..count])
        else before
  }

  predicate SameSlot(f: nat, g: nat) {
    f % CAPACITY == g % CAPACITY
  }

  /** Entry i of the log is the last one stored in its slot. */
  ghost predicate LastInSlot(log: seq<Entry>, i: nat)
    requires i < |log|
  {
    forall j | i < j < |log| :: !SameSlot(log[j].frame, log[i].frame)
  }

  /** The last entry of its residue class is frame f with samples s. */
  ghost predicate Retained(log: seq<Entry>, f: nat, s: Stereo) {
    exists i | 0 <= i < |log| :: log[i] == Entry(f, s) && LastInSlot(log, i)
  }

  /** The slots hold the last entry of every residue class and no other frame. */
  ghost predicate Holds(slots: seq<Slot>, log: seq<Entry>)
    requires |slots| == CAPACITY
  {
    forall f: nat, s :: Load(slots, f) == Some(s) <==> Retained(log, f, s)
  }

  lemma {:induction false} StoreHolds(slots: seq<Slot>, log: seq<Entry>, frame: nat, stereo: Stereo)
    requires |slots| == CAPACITY && Holds(slots, log)
    ensures Holds(Store(slots, frame, stereo), log + [Entry(frame, stereo)])
  {
    var slots', log' := Store(slots, frame, stereo), log + [Entry(frame, stereo)];
    forall f: nat, s
      ensures Load(slots', f) == Some(s) <==> Retained(log', f, s)
    {
      if SameSlot(f, frame) {
        assert LastInSlot(log', |log|);
        assert forall i | 0 <= i < |log| && log'[i].frame == f :: SameSlot(log'[|log|].frame, log'[i].frame);
      } else {
        assert Load(slots', f) == Load(slots, f);
        assert forall i | 0 <= i < |log| && log[i].frame == f :: LastInSlot(log', i) <==> LastInSlot(log, i) by {
          forall i | 0 <= i < |log| && log[i].frame == f ensures LastInSlot(log', i) <==> LastInSlot(log, i) {
            assert forall j | i < j < |log| :: log'[j] == log[j];
          }
        }
      }
    }
  }

  lemma {:induction false} PublishedLast(log: seq<Entry>, first: nat, samples: seq<Stereo>)
    requires samples != []
    ensures var n := |samples| - 1;
            log + Published(first, samples) == log + Published(first, samples[..n]) + [Entry(first + n, samples[n])]
  {
  }

  lemma {:induction false} StoreAllHolds(slots: seq<Slot>, log: seq<Entry>, first: nat, samples: seq<Stereo>)
    requires |slots| == CAPACITY && Holds(slots, log)
    ensures Holds(StoreAll(slots, first, samples), log + Published(first, samples))
    decreases |samples|
  {
    if samples == [] {
      assert log + Published(first, samples) == log;
    } else {
      var n := |samples| - 1;
      StoreAllHolds(slots, log, first, samples[..n]);
      StoreHolds(StoreAll(slots, first, samples[..n]), log + Published(first, samples[..n]), first + n, samples[n]);
      PublishedLast(log, first, samples);
    }
  }

  ghost predicate NoFrames(slots: seq<Slot>) {
    forall i | 0 <= i < |slots| :: slots[i].tag == 0
  }

  /**
   Main result: after any history on a ring that starts without frames, loading f returns s exactly when the
   last frame stored in f's slot since the last reset was f with samples s.
   */
  lemma {:induction false} RingHoldsLastStores(ring: Ring, ops: seq<Operation>)
    requires |ring.slots| == CAPACITY && NoFrames(ring.slots) && AllWellFormed(ops)
    ensures Holds(Run(ring, ops).slots, Log(IsValid(ring), ops))
    decreases |ops|
  {
    if ops == [] || !IsValid(ring) {
      InvalidRingIsUntouched(ring, ops);
    } else {
      var before, op := ops[..|ops| - 1], ops[|ops| - 1];
      RingHoldsLastStores(ring, before);
      assert WellFormed(op);
      var r := Run(ring, before);
      match op
      case ResetOp(now) =>
      case DeactivateOp =>
      case CaptureOp(source, time, count) =>
        if source.Some? && time.Finite? && 0.0 <= time.value < SAMPLE_TIME_LIMIT {
          var first, samples := time.value.Floor + Skipped(count), source.value[Skipped(count)..count];
          StoreAllHolds(r.slots, Log(true, before), first, samples);
        }
    }
  }

  lemma {:induction false} InvalidRingIsUntouched(ring: Ring, ops: seq<Operation>)
    requires |ring.slots| == CAPACITY && AllWellFormed(ops)
    requires ops == [] || !IsValid(ring)
    ensures Run(ring, ops) == ring
    decreases |ops|
  {
    if ops != [] {
      InvalidRingIsUntouched(ring, ops[..|ops| - 1]);
    }
  }

  /** The operation captured this sample as this frame. */
  ghost predicate CapturesFrame(op: Operation, frame: nat, stereo: Stereo) {
    && op.CaptureOp? && op.source.Some? && op.sampleTime.Finite?
    && exists k | 0 <= k < |op.source.value| ::
         k < op.frameCount && op.sampleTime.value.Floor + k == frame && op.source.value[k] == stereo
  }

  /** Everything logged was captured since the last reset. */
  lemma {:induction false} LoggedWasCaptured(valid: bool, ops: seq<Operation>, e: Entry) returns (k: nat)
    requires AllWellFormed(ops) && e in Log(valid, ops)
    ensures k < |ops| && CapturesFrame(ops[k], e.frame, e.stereo)
    ensures forall i | k < i < |ops| :: !ops[i].ResetOp?
    decreases |ops|
  {
    var n := |ops| - 1;
    var op := ops[n];
    var before := Log(valid, ops[..n]);
    if e in before && !op.ResetOp? {
      k := LoggedWasCaptured(valid, ops[..n], e);
    } else {
      assert WellFormed(op);
      var skipped := Skipped(op.frameCount);
      var samples := op.source.value[skipped..op.frameCount];
      var published := Published(op.sampleTime.value.Floor + skipped, samples);
      assert e in published;
      var j :| 0 <= j < |published| && published[j] == e;
      assert op.source.value[skipped + j] == e.stereo;
      k := n;
    }
  }

  /** How far into a block starting at `first` the slot of f lies. */
  function Offset(first: nat, f: nat): (offset: nat)
    ensures offset < CAPACITY
  {
    (f - first) % CAPACITY
  }

  lemma {:induction false} OffsetOfSlot(first: nat, f: nat, n: nat)
    requires n < CAPACITY
    ensures (first + n) % CAPACITY == f % CAPACITY <==> n == Offset(first, f)
  {
    assert (first + Offset(first, f)) % CAPACITY == f % CAPACITY;
  }

  lemma {:induction false} OffsetInside(first: nat, f: nat)
    ensures first <= f < first + CAPACITY ==> Offset(first, f) == f - first
    ensures f < first <= f + CAPACITY ==> Offset(first, f) == f - first + CAPACITY
    ensures f != first + Offset(first, f) <==> !(first <= f < first + CAPACITY)
  {
  }

  /** What a block of at most one lap leaves in the slot of f. */
  lemma {:induction false} SlotAfterStoreAll(slots: seq<Slot>, first: nat, samples: seq<Stereo>, f: nat)
    requires |slots| == CAPACITY && |samples| <= CAPACITY
    ensures var k := Offset(first, f);
            StoreAll(slots, first, samples)[f % CAPACITY] ==
              if k < |samples| then Slot(first + k + 1, samples[k]) else slots[f % CAPACITY]
    decreases |samples|
  {
    if samples != [] {
      var n := |samples| - 1;
      SlotAfterStoreAll(slots, first, samples[..n], f);
      OffsetOfSlot(first, f, n);
    }
  }

  /** A block of at most one lap is loadable whole; every other frame sharing one of its slots is gone. */
  lemma {:induction false} LoadAfterStoreAll(slots: seq<Slot>, first: nat, samples: seq<Stereo>, f: nat)
    requires |slots| == CAPACITY && |samples| <= CAPACITY
    ensures Load(StoreAll(slots, first, samples), f) ==
            if first <= f < first + |samples| then Some(samples[f - first])
            else if Offset(first, f) < |samples| then None
            else Load(slots, f)
  {
    SlotAfterStoreAll(slots, first, samples, f);
    OffsetInside(first, f);
  }

  /** Storing a block does not disturb an older frame less than a lap behind the block's end. */
  lemma {:induction false} LoadBeforeBlock(slots: seq<Slot>, first: nat, samples: seq<Stereo>, f: nat)
    requires |slots| == CAPACITY && |samples| <= CAPACITY
    requires f < first && first + |samples| <= f + CAPACITY
    ensures Load(StoreAll(slots, first, samples), f) == Load(slots, f)
  {
    LoadAfterStoreAll(slots, first, samples, f);
    OffsetInside(first, f);
  }

  /** Storing a block makes no other frame loadable. */
  lemma {:induction false} LoadOutsideBlock(slots: seq<Slot>, first: nat, samples: seq<Stereo>, f: nat)
    requires |slots| == CAPACITY && |samples| <= CAPACITY && !(first <= f < first + |samples|)
    ensures var load := Load(StoreAll(slots, first, samples), f); load == None || load == Load(slots, f)
  {
    LoadAfterStoreAll(slots, first, samples, f);
  }

  lemma {:induction false} FullLapReplacesEverything(slots: seq<Slot>, first: nat, samples: seq<Stereo>, f: nat)
    requires |slots| == CAPACITY && |samples| == CAPACITY
    ensures Load(StoreAll(slots, first, samples), f) ==
            if first <= f < first + CAPACITY then Some(samples[f - first]) else None
  {
    LoadAfterStoreAll(slots, first, samples, f);
  }

  /** An oversize mix of one valid capture leaves exactly its last 32768 frames loadable, whatever was there. */
  lemma {:induction false} OversizeCaptureKeepsLastLap(ring: Ring, source: seq<Stereo>, sampleTime: Float,
                                                       frameCount: nat, f: nat)
    requires |ring.slots| == CAPACITY && CAPACITY <= frameCount <= |source|
    requires Captures(ring, Some(source), sampleTime, frameCount)
    ensures var ring' := Capture(ring, Some(source), sampleTime, frameCount);
            var end := sampleTime.value.Floor + frameCount;
            && ring'.writeFrame == end
            && Load(ring'.slots, f) ==
               if end - CAPACITY <= f < end then Some(source[f - sampleTime.value.Floor]) else None
  {
    FullLapReplacesEverything(ring.slots, sampleTime.value.Floor + Skipped(frameCount),
                              source[Skipped(frameCount)..frameCount], f);
  }
}
