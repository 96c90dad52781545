/**
 The tagged ring of common/SharedAudio.h and the driver functions that write it.

 `Ring` is the value of one mapping. The functions on it say what each operation does to that value;
 the class `SharedAudio` is the mapping itself, whose methods change header fields and slots in place.
 */
module SharedAudio {
  import opened Types

  const CAPACITY: nat := 32768
  const CHANNEL_COUNT: nat := 2
  const MAGIC: nat := 0x53564341
  const VERSION: nat := 2
  const SAMPLE_TIME_LIMIT: real := 9007199254740992.0  // two to the power 53

  /** A slot is free when its tag is 0 and holds frame f when its tag is f + 1. */
  datatype Slot = Slot(tag: nat, stereo: Stereo)

  datatype Ring = Ring(
    magic: nat,
    version: nat,
    channelCount: nat,
    capacityFrames: nat,
    sampleRate: nat,
    processOutputCount: nat,
    writeFrame: nat,
    streamStart: nat,
    streamEpoch: nat,
    writerActive: bool,
    writeMixCount: nat,
    slots: seq<Slot>)

  predicate IsValid(ring: Ring) {
    && ring.magic == MAGIC
    && ring.version == VERSION
    && ring.channelCount == CHANNEL_COUNT
    && ring.capacityFrames == CAPACITY
    && ring.sampleRate > 0
  }

  function FreeSlots(): seq<Slot> {
    seq(CAPACITY, _ => Slot(0, SILENCE))
  }

  function Initialized(sampleRate: nat): Ring {
    Ring(MAGIC, VERSION, CHANNEL_COUNT, CAPACITY, sampleRate, 0, 0, 0, 0, false, 0, FreeSlots())
  }

  /**
   Every header field is checked: a mapping that differs from a valid one in any of them is not used, and nothing
   else matters. A freshly initialised mapping passes if it has a sample rate.
   */
  lemma {:induction false} HeaderIsChecked(ring: Ring, other: Ring, rate: nat)
    requires IsValid(ring)
    ensures IsValid(other) <==>
              && other.magic == ring.magic && other.version == ring.version
              && other.channelCount == ring.channelCount && other.capacityFrames == ring.capacityFrames
              && other.sampleRate != 0
    ensures IsValid(Initialized(rate)) <==> rate != 0
  {
  }

  function Store(slots: seq<Slot>, frame: nat, stereo: Stereo): (r: seq<Slot>)
    requires |slots| == CAPACITY
    ensures |r| == CAPACITY
  {
    slots[frame % CAPACITY := Slot(frame + 1, stereo)]
  }

  /** Stores the samples as the consecutive frames first, first + 1, ... */
  function StoreAll(slots: seq<Slot>, first: nat, samples: seq<Stereo>): (r: seq<Slot>)
    requires |slots| == CAPACITY
    ensures |r| == CAPACITY
  {
    if samples == [] then slots
    else
      var last := |samples| - 1;
      Store(StoreAll(slots, first, samples[..last]), first + last, samples[last])
  }

  function Load(slots: seq<Slot>, frame: nat): Option<Stereo>
    requires |slots| == CAPACITY
  {
    var slot := slots[frame % CAPACITY];
    if slot.tag == frame + 1 then Some(slot.stereo) else None
  }

  function ClearTags(slots: seq<Slot>): (r: seq<Slot>)
    ensures |r| == |slots|
  {
    seq(|slots|, i requires 0 <= i < |slots| => Slot(0, slots[i].stereo))
  }

  function Reset(ring: Ring, now: nat): Ring {
    if !IsValid(ring) then ring
    else ring.(writerActive := false, streamEpoch := now, writeFrame := 0, streamStart := 0,
               processOutputCount := 0, writeMixCount := 0, slots := ClearTags(ring.slots))
  }

  /** The driver ignores a mix without a buffer, without frames or with an unusable sample time. */
  predicate Captures(ring: Ring, source: Option<seq<Stereo>>, sampleTime: Float, frameCount: nat) {
    && source.Some?
    && sampleTime.Finite?
    && 0.0 <= sampleTime.value < SAMPLE_TIME_LIMIT
    && frameCount > 0
    && IsValid(ring)
  }

  /** Sample times are accepted up to the last one that, as a double, still has every smaller frame exactly. */
  lemma {:induction false} LastSampleTime(ring: Ring, source: seq<Stereo>, frameCount: nat)
    requires IsValid(ring) && 0 < frameCount
    ensures Captures(ring, Some(source), Finite(0.0), frameCount)
    ensures Captures(ring, Some(source), Finite(0x1F_FFFF_FFFF_FFFF as real), frameCount)
    ensures !Captures(ring, Some(source), Finite(0x20_0000_0000_0000 as real), frameCount)
  {
  }

  /** How many leading frames of an oversize mix are dropped. */
  function Skipped(frameCount: nat): (skipped: nat)
    ensures skipped <= frameCount && frameCount - skipped <= CAPACITY
  {
    if frameCount > CAPACITY then frameCount - CAPACITY else 0
  }

  function Capture(ring: Ring, source: Option<seq<Stereo>>, sampleTime: Float, frameCount: nat): Ring
    requires |ring.slots| == CAPACITY
    requires source.Some? ==> frameCount <= |source.value|
  {
    if !Captures(ring, source, sampleTime, frameCount) then ring
    else
      var first := sampleTime.value.Floor + Skipped(frameCount);
      var samples := source.value[Skipped(frameCount)..frameCount];
      ring.(streamStart := if ring.writerActive then ring.streamStart else first,
            slots := StoreAll(ring.slots, first, samples),
            writeFrame := first + |samples|,
            writerActive := true)
  }

  class SharedAudio {
    var magic: nat
    var version: nat
    var channelCount: nat
    var capacityFrames: nat
    var sampleRate: nat
    var processOutputCount: nat
    var writeFrame: nat
    var streamStart: nat
    var streamEpoch: nat
    var writerActive: bool
    var writeMixCount: nat
    const frames: array<Slot>

    ghost predicate Valid() {
      frames.Length == CAPACITY
    }

    /** The value of the whole mapping. */
    ghost function Value(): (ring: Ring)
      reads this, frames
      requires Valid()
      ensures |ring.slots| == CAPACITY
    {
      Ring(magic, version, channelCount, capacityFrames, sampleRate, processOutputCount, writeFrame,
           streamStart, streamEpoch, writerActive, writeMixCount, frames[..])
    }

    constructor (sampleRate: nat)
      ensures Valid() && fresh(frames)
      ensures Value() == Initialized(sampleRate)
    {
      frames := new Slot[CAPACITY];
      new;
      Initialize(sampleRate);
    }

    /** The magic number is written last, when every slot has been cleared. */
    method Initialize(sampleRate: nat)
      requires Valid()
      modifies this, frames
      ensures Value() == Initialized(sampleRate)
      ensures this.sampleRate == sampleRate && processOutputCount == writeMixCount == 0
      ensures magic == 0x53564341 && version == 2 && channelCount == 2 && capacityFrames == 32768
      ensures writeFrame == streamStart == streamEpoch == 0 && !writerActive
      ensures forall f: nat :: Load(Value().slots, f) == None
    {
      version := VERSION;
      channelCount := CHANNEL_COUNT;
      capacityFrames := CAPACITY;
      this.sampleRate := sampleRate;
      magic := 0;
      processOutputCount, writeMixCount := 0, 0;
      writeFrame, streamStart, streamEpoch := 0, 0, 0;
      writerActive := false;
      var index := 0;
      while index < CAPACITY
        invariant index <= CAPACITY
        invariant Value() == Initialized(sampleRate).(magic := 0, slots := frames[..])
        invariant forall i | 0 <= i < index :: frames[i] == Slot(0, SILENCE)
      {
        frames[index] := Slot(0, SILENCE);
        index := index + 1;
      }
      magic := MAGIC;
      assert frames[..] == FreeSlots();
    }

    method StoreFrame(frame: nat, stereo: Stereo)
      requires Valid()
      modifies frames
      ensures frames[..] == Store(old(frames[..]), frame, stereo)
    {
      var slot := frame % CAPACITY;
      frames[slot] := Slot(0, frames[slot].stereo);
      frames[slot] := Slot(frames[slot].tag, stereo);
      frames[slot] := Slot(frame + 1, frames[slot].stereo);
    }

    method LoadFrame(frame: nat) returns (stereo: Option<Stereo>)
      requires Valid()
      ensures stereo == Load(frames[..], frame)
    {
      var slot := frame % CAPACITY;
      if frames[slot].tag != frame + 1 {
        return None;
      }
      stereo := Some(frames[slot].stereo);
      if frames[slot].tag != frame + 1 {
        stereo := None;
      }
    }

    method ResetStream(now: nat)
      requires Valid()
      modifies this, frames
      ensures Value() == Reset(old(Value()), now)
      ensures IsValid(old(Value())) ==>
                && !writerActive && streamEpoch == now && writeFrame == streamStart == 0
                && processOutputCount == writeMixCount == 0 && sampleRate == old(sampleRate)
                && forall f: nat :: Load(Value().slots, f) == None
    {
      if magic != MAGIC || version != VERSION || channelCount != CHANNEL_COUNT
         || capacityFrames != CAPACITY || sampleRate == 0 {
        return;
      }
      writerActive := false;
      streamEpoch := now;
      writeFrame, streamStart := 0, 0;
      processOutputCount, writeMixCount := 0, 0;
      var index := 0;
      while index < CAPACITY
        invariant index <= CAPACITY
        invariant Value() == Reset(old(Value()), now).(slots := frames[..])
        invariant forall i | 0 <= i < index :: frames[i] == Slot(0, old(frames[i].stereo))
        invariant forall i | index <= i < CAPACITY :: frames[i] == old(frames[i])
      {
        frames[index] := Slot(0, frames[index].stereo);
        index := index + 1;
      }
      assert frames[..] == ClearTags(old(frames[..]));
    }

    /** The loop of CaptureOutput. */
    method StoreFrames(first: nat, samples: seq<Stereo>)
      requires Valid()
      modifies frames
      ensures frames[..] == StoreAll(old(frames[..]), first, samples)
    {
      var frame := 0;
      while frame < |samples|
        invariant frame <= |samples|
        invariant frames[..] == StoreAll(old(frames[..]), first, samples[..frame])
      {
        assert samples[..frame + 1][..frame] == samples[..frame];
        StoreFrame(first + frame, samples[frame]);
        frame := frame + 1;
      }
      assert samples[..frame] == samples;
    }

    method CaptureOutput(source: Option<seq<Stereo>>, rawSampleTime: Float, frameCount: nat)
      requires Valid()
      requires source.Some? ==> frameCount <= |source.value|
      modifies this, frames
      ensures Value() == Capture(old(Value()), source, rawSampleTime, frameCount)
    {
      if source == None || rawSampleTime.NotFinite? || rawSampleTime.value < 0.0
         || rawSampleTime.value >= SAMPLE_TIME_LIMIT || frameCount == 0
         || magic != MAGIC || version != VERSION || channelCount != CHANNEL_COUNT
         || capacityFrames != CAPACITY || sampleRate == 0 {
        return;
      }
      var sampleFrame: nat := rawSampleTime.value.Floor;
      var samples := source.value[..frameCount];
      if frameCount > CAPACITY {
        var skipped := frameCount - CAPACITY;
        samples := samples[skipped..];
        sampleFrame := sampleFrame + skipped;
      }
      assert samples == source.value[Skipped(frameCount)..frameCount];
      if !writerActive {
        streamStart := sampleFrame;
        writeFrame := sampleFrame;
      }
      StoreFrames(sampleFrame, samples);
      writeFrame := sampleFrame + |samples|;
      writerActive := true;
    }
  }
}
