/**
 What the reader's second look at the epoch achieves: calls that overlap ResetSharedAudioStream.

 The writer's side is a sequence of single stores: those of a stream, the reset's in their order, and those of
 the next stream. The reader's loads fall between them in the order the call makes them.
 */
module ResetOverlap {
  import opened Types
  import opened SharedAudio
  import opened RingHistory
  import opened SlotInterleaving
  import opened Reader
  import opened LogRefinement
  import opened OverlappingReads

  type Slots = s: seq<Slot> | |s| == CAPACITY witness FreeSlots()

  /** What the reader can load. */
  datatype Memory = Memory(
    writerActive: bool,
    streamEpoch: nat,
    writeFrame: nat,
    streamStart: nat,
    slots: Slots)

  type Phase = x: nat | x < 3
  type SlotIndex = x: nat | x < CAPACITY

  /** One atomic store. */
  datatype Write =
    | SetActive(on: bool)
    | SetEpoch(epoch: nat)
    | SetWriteFrame(frame: nat)
    | SetStreamStart(frame: nat)
    | Part(store: Entry, phase: Phase)  // one of the three stores of a frame
    | Clear(slot: SlotIndex)

  function Written(m: Memory, write: Write): Memory {
    match write
    case SetActive(on) => m.(writerActive := on)
    case SetEpoch(epoch) => m.(streamEpoch := epoch)
    case SetWriteFrame(frame) => m.(writeFrame := frame)
    case SetStreamStart(frame) => m.(streamStart := frame)
    case Part(store, phase) =>
      var c := store.frame % CAPACITY;
      m.(slots := m.slots[c := Step(m.slots[c], store, phase)])
    case Clear(slot) => m.(slots := m.slots[slot := m.slots[slot].(tag := 0)])
  }

  /** The memory after the first t stores. */
  function At(m: Memory, writes: seq<Write>, t: nat): Memory
    requires t <= |writes|
  {
    if t == 0 then m else Written(At(m, writes, t - 1), writes[t - 1])
  }

  lemma {:induction false} AtPrefix(m: Memory, a: seq<Write>, b: seq<Write>, t: nat)
    requires t <= |a|
    ensures At(m, a + b, t) == At(m, a, t)
  {
    if t > 0 {
      AtPrefix(m, a, b, t - 1);
    }
  }

  lemma {:induction false} AtSuffix(m: Memory, a: seq<Write>, b: seq<Write>, t: nat)
    requires t <= |b|
    ensures At(m, a + b, |a| + t) == At(At(m, a, |a|), b, t)
  {
    if t == 0 {
      AtPrefix(m, a, b, |a|);
    } else {
      AtSuffix(m, a, b, t - 1);
      assert (a + b)[|a| + t - 1] == b[t - 1];
    }
  }

  // ---- A stream being written ----

  /** How many of the first t stores are parts of frames. */
  function PartCount(writes: seq<Write>, t: nat): (count: nat)
    requires t <= |writes|
    ensures count <= t
  {
    if t == 0 then 0 else PartCount(writes, t - 1) + if writes[t - 1].Part? then 1 else 0
  }

  /** Header stores apart from the epoch's, among which frames are stored in order. */
  ghost predicate Storing(writes: seq<Write>, stores: seq<Entry>) {
    forall t | 0 <= t < |writes| :: InOrderOf(writes, stores, t)
  }

  ghost predicate InOrderOf(writes: seq<Write>, stores: seq<Entry>, t: nat)
    requires t < |writes|
  {
    && !writes[t].SetEpoch? && !writes[t].Clear?
    && (writes[t].Part? ==>
          var k := PartCount(writes, t); k < 3 * |stores| && writes[t] == Part(stores[k / 3], k % 3))
  }

  lemma {:induction false} StoringSlots(m: Memory, writes: seq<Write>, stores: seq<Entry>, t: nat)
    requires Storing(writes, stores) && t <= |writes|
    ensures PartCount(writes, t) <= 3 * |stores|
    ensures At(m, writes, t).slots == RingAfter(m.slots, stores, PartCount(writes, t))
    ensures At(m, writes, t).streamEpoch == m.streamEpoch
  {
    if t > 0 {
      StoringSlots(m, writes, stores, t - 1);
      assert InOrderOf(writes, stores, t - 1);
      if writes[t - 1].Part? {
        RingAfterPart(At(m, writes, t - 1), m.slots, stores, PartCount(writes, t - 1));
      }
    }
  }

  lemma {:induction false} RingAfterPart(m: Memory, slots: Slots, stores: seq<Entry>, k: nat)
    requires k < 3 * |stores| && m.slots == RingAfter(slots, stores, k)
    ensures Written(m, Part(stores[k / 3], k % 3)).slots == RingAfter(slots, stores, k + 1)
  {
  }

  lemma {:induction false} PartCountGrows(writes: seq<Write>, s: nat, t: nat)
    requires s <= t <= |writes|
    ensures PartCount(writes, s) <= PartCount(writes, t)
    decreases t - s
  {
    if s < t {
      PartCountGrows(writes, s + 1, t);
    }
  }

  // ---- The reset ----

  /** The stores of ResetSharedAudioStream that a reader can notice. */
  function ResetWrites(epoch: nat): (writes: seq<Write>)
    ensures |writes| == CAPACITY + 4
  {
    [SetActive(false), SetEpoch(epoch), SetWriteFrame(0), SetStreamStart(0)]
    + seq(CAPACITY, c requires 0 <= c < CAPACITY => Clear(c))
  }

  lemma {:induction false} HeaderIsReset(m: Memory, epoch: nat)
    ensures At(m, ResetWrites(epoch), 1) == m.(writerActive := false)
    ensures At(m, ResetWrites(epoch), 2) == m.(writerActive := false, streamEpoch := epoch)
    ensures At(m, ResetWrites(epoch), 4) ==
            m.(writerActive := false, streamEpoch := epoch, writeFrame := 0, streamStart := 0)
  {
    var writes := ResetWrites(epoch);
    assert At(m, writes, 1) == Written(At(m, writes, 0), writes[0]);
    assert At(m, writes, 2) == Written(At(m, writes, 1), writes[1]);
    assert At(m, writes, 3) == Written(At(m, writes, 2), writes[2]);
    assert At(m, writes, 4) == Written(At(m, writes, 3), writes[3]);
  }

  lemma {:induction false} TagsAreCleared(m: Memory, epoch: nat, c: nat)
    requires c <= CAPACITY
    ensures var now := At(m, ResetWrites(epoch), c + 4);
            now.streamEpoch == epoch && forall i | 0 <= i < c :: now.slots[i].tag == 0
  {
    if c == 0 {
      HeaderIsReset(m, epoch);
    } else {
      TagsAreCleared(m, epoch, c - 1);
      assert ResetWrites(epoch)[c + 3] == Clear(c - 1);
    }
  }

  /** What the reader can load of a ring. */
  function MemoryOf(ring: Ring): Memory
    requires |ring.slots| == CAPACITY
  {
    Memory(ring.writerActive, ring.streamEpoch, ring.writeFrame, ring.streamStart, ring.slots)
  }

  lemma {:induction false} ClearsInOrder(m: Memory, epoch: nat, c: nat)
    requires c <= CAPACITY
    ensures var now := At(m, ResetWrites(epoch), c + 4);
            && now == Memory(false, epoch, 0, 0, now.slots)
            && forall i | 0 <= i < CAPACITY :: now.slots[i] == if i < c then Slot(0, m.slots[i].stereo) else m.slots[i]
  {
    if c == 0 {
      HeaderIsReset(m, epoch);
    } else {
      ClearsInOrder(m, epoch, c - 1);
      assert ResetWrites(epoch)[c + 3] == Clear(c - 1);
    }
  }

  /** Run without interruption, the atomic stores of a reset are the reset. */
  lemma {:induction false} StepsAreReset(ring: Ring, epoch: nat)
    requires |ring.slots| == CAPACITY && IsValid(ring)
    ensures At(MemoryOf(ring), ResetWrites(epoch), CAPACITY + 4) == MemoryOf(Reset(ring, epoch))
  {
    ClearsInOrder(MemoryOf(ring), epoch, CAPACITY);
  }

  lemma {:induction false} EpochDuringReset(m: Memory, epoch: nat, t: nat)
    requires 2 <= t <= CAPACITY + 4
    ensures At(m, ResetWrites(epoch), t).streamEpoch == epoch
  {
    if t == 2 {
      HeaderIsReset(m, epoch);
    } else {
      EpochDuringReset(m, epoch, t - 1);
    }
  }

  lemma {:induction false} WriteFrameDuringReset(m: Memory, epoch: nat, t: nat)
    requires 3 <= t <= CAPACITY + 4
    ensures At(m, ResetWrites(epoch), t).writeFrame == 0
  {
    if t == 3 {
      assert At(m, ResetWrites(epoch), 3) == Written(At(m, ResetWrites(epoch), 2), SetWriteFrame(0));
    } else {
      WriteFrameDuringReset(m, epoch, t - 1);
    }
  }

  /** The start of the stream is the old one or 0, and the last slot keeps its frame until the very end. */
  lemma {:induction false} RestDuringReset(m: Memory, epoch: nat, t: nat)
    requires t <= CAPACITY + 3
    ensures var now := At(m, ResetWrites(epoch), t);
            && (now.streamStart == m.streamStart || now.streamStart == 0)
            && now.slots[CAPACITY - 1] == m.slots[CAPACITY - 1]
  {
    if t > 0 {
      RestDuringReset(m, epoch, t - 1);
      assert t > 4 ==> ResetWrites(epoch)[t - 1] == Clear(t - 5);
    }
  }

  /** One stream, a reset, and the next stream. */
  datatype Writer = Writer(
    memory: Memory,
    first: seq<Write>,
    firstStores: seq<Entry>,
    epoch: nat,
    next: seq<Write>,
    nextStores: seq<Entry>)

  function Writes(w: Writer): seq<Write> {
    w.first + ResetWrites(w.epoch) + w.next
  }

  /** How many stores have been made when the epoch is still the old one, and when all tags are clear. */
  function EpochStore(w: Writer): nat {
    |w.first| + 1
  }

  function LastClear(w: Writer): nat {
    |w.first| + CAPACITY + 4
  }

  ghost predicate WellFormedWriter(w: Writer) {
    Storing(w.first, w.firstStores) && Storing(w.next, w.nextStores) && w.epoch != w.memory.streamEpoch
  }

  /** The memory when the reset is over. */
  ghost function Cleared(w: Writer): Memory {
    At(w.memory, w.first + ResetWrites(w.epoch), LastClear(w))
  }

  lemma {:induction false} BeforeEpoch(w: Writer, t: nat)
    requires WellFormedWriter(w) && t <= EpochStore(w)
    ensures |Writes(w)| == LastClear(w) + |w.next|
    ensures var now, k := At(w.memory, Writes(w), t), PartCount(w.first, Min(t, |w.first|));
            && k <= 3 * |w.firstStores| && now.slots == RingAfter(w.memory.slots, w.firstStores, k)
            && now.streamEpoch == w.memory.streamEpoch
  {
    var reset := ResetWrites(w.epoch);
    assert Writes(w) == w.first + (reset + w.next);
    StoringSlots(w.memory, w.first, w.firstStores, Min(t, |w.first|));
    if t <= |w.first| {
      AtPrefix(w.memory, w.first, reset + w.next, t);
    } else {
      AtSuffix(w.memory, w.first, reset + w.next, 1);
      AtPrefix(At(w.memory, w.first, |w.first|), reset, w.next, 1);
      HeaderIsReset(At(w.memory, w.first, |w.first|), w.epoch);
    }
  }

  lemma {:induction false} AfterEpoch(w: Writer, t: nat)
    requires WellFormedWriter(w) && EpochStore(w) < t <= |Writes(w)|
    ensures At(w.memory, Writes(w), t).streamEpoch == w.epoch
  {
    var m := At(w.memory, w.first, |w.first|);
    var reset := ResetWrites(w.epoch);
    if t <= LastClear(w) {
      assert Writes(w) == w.first + (reset + w.next);
      AtSuffix(w.memory, w.first, reset + w.next, t - |w.first|);
      AtPrefix(m, reset, w.next, t - |w.first|);
      EpochDuringReset(m, w.epoch, t - |w.first|);
    } else {
      AfterClear(w, t);
    }
  }

  /** From the reset's store of the write frame to its last tag clear, nothing is published. */
  lemma {:induction false} NothingDuringReset(w: Writer, t: nat)
    requires EpochStore(w) + 2 <= t <= LastClear(w)
    ensures t <= |Writes(w)| && At(w.memory, Writes(w), t).writeFrame == 0
  {
    var reset := ResetWrites(w.epoch);
    assert Writes(w) == w.first + (reset + w.next);
    AtSuffix(w.memory, w.first, reset + w.next, t - |w.first|);
    AtPrefix(At(w.memory, w.first, |w.first|), reset, w.next, t - |w.first|);
    WriteFrameDuringReset(At(w.memory, w.first, |w.first|), w.epoch, t - |w.first|);
  }

  lemma {:induction false} ClearedIsEmpty(w: Writer)
    ensures Cleared(w).streamEpoch == w.epoch && forall i | 0 <= i < CAPACITY :: Cleared(w).slots[i].tag == 0
  {
    AtSuffix(w.memory, w.first, ResetWrites(w.epoch), CAPACITY + 4);
    TagsAreCleared(At(w.memory, w.first, |w.first|), w.epoch, CAPACITY);
  }

  /** How many parts of the next stream's frames have been stored. */
  ghost function NextParts(w: Writer, t: nat): nat
    requires LastClear(w) <= t <= |Writes(w)|
  {
    PartCount(w.next, t - LastClear(w))
  }

  lemma {:induction false} AfterClear(w: Writer, t: nat)
    requires WellFormedWriter(w) && LastClear(w) <= t <= |Writes(w)|
    ensures NextParts(w, t) <= 3 * |w.nextStores|
    ensures At(w.memory, Writes(w), t).slots == RingAfter(Cleared(w).slots, w.nextStores, NextParts(w, t))
    ensures At(w.memory, Writes(w), t).streamEpoch == w.epoch
  {
    AtSuffix(w.memory, w.first + ResetWrites(w.epoch), w.next, t - LastClear(w));
    StoringSlots(Cleared(w), w.next, w.nextStores, t - LastClear(w));
    ClearedIsEmpty(w);
  }

  // ---- The reader's loads ----

  /** How many stores precede each header load of a call, in the order of the loads. */
  datatype Moments = Moments(active: nat, epoch: nat, writeFrame: nat, streamStart: nat, epochAgain: nat,
                             activeAgain: nat)

  predicate InOrder(x: Moments, end: nat) {
    x.active <= x.epoch <= x.writeFrame <= x.streamStart <= x.epochAgain <= x.activeAgain <= end
  }

  /** LoadFrame(f) whose three loads come after t1, t2 and t3 stores. */
  function LoadAt(m: Memory, writes: seq<Write>, f: nat, t1: nat, t2: nat, t3: nat): Option<Stereo>
    requires t1 <= t2 <= t3 <= |writes|
  {
    var c := f % CAPACITY;
    if At(m, writes, t1).slots[c].tag != f + 1 then None
    else if At(m, writes, t3).slots[c].tag != f + 1 then None
    else Some(At(m, writes, t2).slots[c].stereo)
  }

  /** A frame load between the header loads and the second look at the epoch. */
  ghost predicate SeesFrame(result: Option<Stereo>, m: Memory, writes: seq<Write>, f: nat, low: nat, high: nat)
    requires high <= |writes|
  {
    exists t1: nat, t2: nat, t3: nat :: low <= t1 <= t2 <= t3 <= high && result == LoadAt(m, writes, f, t1, t2, t3)
  }

  /** The view of a call whose loads fall at these moments. */
  ghost predicate Sees(view: View, m: Memory, writes: seq<Write>, x: Moments) {
    && InOrder(x, |writes|)
    && view.writerActive == At(m, writes, x.active).writerActive
    && view.streamEpoch == At(m, writes, x.epoch).streamEpoch
    && view.writeFrame == At(m, writes, x.writeFrame).writeFrame
    && view.streamStart == At(m, writes, x.streamStart).streamStart
    && view.epochAfter == At(m, writes, x.epochAgain).streamEpoch
    && view.activeAfter == At(m, writes, x.activeAgain).writerActive
    && forall k: nat, f: nat :: SeesFrame(view.load(k, f), m, writes, f, x.streamStart, x.epochAgain)
  }

  /** A load of slots that are those of a ring being stored to. */
  lemma {:induction false} LoadOfRing(m: Memory, writes: seq<Write>, slots: Slots, stores: seq<Entry>, f: nat,
                                      t1: nat, t2: nat, t3: nat, k1: nat, k2: nat, k3: nat)
    requires t1 <= t2 <= t3 <= |writes| && k1 <= k2 <= k3 <= 3 * |stores|
    requires At(m, writes, t1).slots == RingAfter(slots, stores, k1)
    requires At(m, writes, t2).slots == RingAfter(slots, stores, k2)
    requires At(m, writes, t3).slots == RingAfter(slots, stores, k3)
    ensures ObservedLoad(LoadAt(m, writes, f, t1, t2, t3), slots, stores, f, 0)
  {
    assert LoadAt(m, writes, f, t1, t2, t3) == ConcurrentLoad(slots, stores, f, k1, k2, k3);
  }

  lemma {:induction false} LoadBeforeEpoch(w: Writer, f: nat, t1: nat, t2: nat, t3: nat)
    requires WellFormedWriter(w) && t1 <= t2 <= t3 <= EpochStore(w) <= |Writes(w)|
    ensures ObservedLoad(LoadAt(w.memory, Writes(w), f, t1, t2, t3), w.memory.slots, w.firstStores, f, 0)
  {
    BeforeEpoch(w, t1);
    BeforeEpoch(w, t2);
    BeforeEpoch(w, t3);
    var u1, u2, u3 := Min(t1, |w.first|), Min(t2, |w.first|), Min(t3, |w.first|);
    PartCountGrows(w.first, u1, u2);
    PartCountGrows(w.first, u2, u3);
    LoadOfRing(w.memory, Writes(w), w.memory.slots, w.firstStores, f, t1, t2, t3,
               PartCount(w.first, u1), PartCount(w.first, u2), PartCount(w.first, u3));
  }

  lemma {:induction false} NextPartsGrow(w: Writer, s: nat, t: nat)
    requires LastClear(w) <= s <= t <= |Writes(w)|
    ensures NextParts(w, s) <= NextParts(w, t)
  {
    PartCountGrows(w.next, s - LastClear(w), t - LastClear(w));
  }

  lemma {:induction false} LoadAfterClear(w: Writer, f: nat, t1: nat, t2: nat, t3: nat)
    requires WellFormedWriter(w) && LastClear(w) <= t1 <= t2 <= t3 <= |Writes(w)|
    ensures ObservedLoad(LoadAt(w.memory, Writes(w), f, t1, t2, t3), Cleared(w).slots, w.nextStores, f, 0)
  {
    AfterClear(w, t1);
    AfterClear(w, t2);
    AfterClear(w, t3);
    NextPartsGrow(w, t1, t2);
    NextPartsGrow(w, t2, t3);
    LoadOfRing(w.memory, Writes(w), Cleared(w).slots, w.nextStores, f, t1, t2, t3,
               NextParts(w, t1), NextParts(w, t2), NextParts(w, t3));
  }

  lemma {:induction false} SeesFirstStream(w: Writer, view: View, x: Moments)
    requires WellFormedWriter(w) && Sees(view, w.memory, Writes(w), x) && x.epochAgain <= EpochStore(w)
    ensures Observed(view.load, w.memory.slots, w.firstStores, 0)
  {
    forall k: nat, f: nat ensures ObservedLoad(view.load(k, f), w.memory.slots, w.firstStores, f, 0) {
      assert SeesFrame(view.load(k, f), w.memory, Writes(w), f, x.streamStart, x.epochAgain);
      var t1: nat, t2: nat, t3: nat :| x.streamStart <= t1 <= t2 <= t3 <= x.epochAgain
        && view.load(k, f) == LoadAt(w.memory, Writes(w), f, t1, t2, t3);
      LoadBeforeEpoch(w, f, t1, t2, t3);
    }
  }

  lemma {:induction false} SeesNextStream(w: Writer, view: View, x: Moments)
    requires WellFormedWriter(w) && Sees(view, w.memory, Writes(w), x) && LastClear(w) <= x.streamStart
    ensures Observed(view.load, Cleared(w).slots, w.nextStores, 0)
  {
    forall k: nat, f: nat ensures ObservedLoad(view.load(k, f), Cleared(w).slots, w.nextStores, f, 0) {
      assert SeesFrame(view.load(k, f), w.memory, Writes(w), f, x.streamStart, x.epochAgain);
      var t1: nat, t2: nat, t3: nat :| x.streamStart <= t1 <= t2 <= t3 <= x.epochAgain
        && view.load(k, f) == LoadAt(w.memory, Writes(w), f, t1, t2, t3);
      LoadAfterClear(w, f, t1, t2, t3);
    }
  }

  lemma {:induction false} RenderedEpochIsStable(state: ReaderState, view: View, n: nat)
    requires state.readFrame >= 0.0 && state.targetLatencyFrames > 0
    requires ReadOutcome(state, view, n).rendered > 0
    ensures view.epochAfter == view.streamEpoch && view.writerActive && view.activeAfter
  {
  }

  /** The logs of the two streams. */
  datatype Logs = Logs(firstStart: nat, first: seq<Stereo>, from: nat, nextStart: nat, next: seq<Stereo>)

  ghost predicate WritesLogs(w: Writer, logs: Logs) {
    && GapFree(w.firstStores, logs.firstStart, logs.first, logs.from)
    && FromLog(w.memory.slots, logs.firstStart, logs.first, logs.from)
    && GapFree(w.nextStores, logs.nextStart, logs.next, logs.nextStart)
  }

  lemma {:induction false} NothingPublishedRendersNothing(state: ReaderState, view: View, n: nat)
    requires state.readFrame >= 0.0 && state.targetLatencyFrames > 0 && view.writeFrame == 0
    ensures ReadOutcome(state, view, n).rendered == 0
  {
  }

  /**
   The call has loaded the epoch and the write frame between the reset's stores of these two, and the stream's
   start, after which the frame loads come, before the last tag was cleared.
   */
  predicate InWindow(w: Writer, x: Moments) {
    x.epoch == x.writeFrame == EpochStore(w) + 1 && x.streamStart < LastClear(w)
  }

  /** Outside the window, a call with an epoch of the reset or later has seen none of the old stream's frames. */
  lemma {:induction false} LateCallSeesNext(w: Writer, state: ReaderState, view: View, n: nat, x: Moments)
    requires WellFormedWriter(w) && Sees(view, w.memory, Writes(w), x)
    requires state.readFrame >= 0.0 && state.targetLatencyFrames > 0
    requires ReadOutcome(state, view, n).rendered > 0
    requires EpochStore(w) < x.epoch && !InWindow(w, x)
    ensures Observed(view.load, Cleared(w).slots, w.nextStores, 0)
  {
    if x.streamStart < LastClear(w) {
      NothingDuringReset(w, x.writeFrame);
      NothingPublishedRendersNothing(state, view, n);
      assert false;
    } else {
      SeesNextStream(w, view, x);
    }
  }

  /** The frames are those of the stream whose epoch the call has loaded. */
  ghost predicate PlaysItsStream(w: Writer, logs: Logs, state: ReaderState, view: View, n: nat, x: Moments)
    requires state.readFrame >= 0.0 && state.targetLatencyFrames > 0
    requires view.streamStart + state.targetLatencyFrames <= view.writeFrame
  {
    var ready, frames := Resynchronized(state, view), ReadOutcome(state, view, n).frames;
    if x.epoch <= EpochStore(w) then PlayedFrom(ready, view.writeFrame, logs.firstStart, logs.first, frames)
    else PlayedFrom(ready, view.writeFrame, logs.nextStart, logs.next, frames)
  }

  /** A call that overlaps a reset in any way and renders plays one stream only, unless it is in the window. */
  lemma {:induction false} OneStreamOnly(w: Writer, logs: Logs, state: ReaderState, view: View, n: nat, x: Moments)
    requires WellFormedWriter(w) && WritesLogs(w, logs) && Sees(view, w.memory, Writes(w), x)
    requires state.readFrame >= 0.0 && state.targetLatencyFrames > 0
    requires ReadOutcome(state, view, n).rendered > 0
    requires !InWindow(w, x)
    ensures view.streamStart + state.targetLatencyFrames <= view.writeFrame
    ensures PlaysItsStream(w, logs, state, view, n, x)
  {
    RenderedEpochIsStable(state, view, n);
    if x.epoch <= EpochStore(w) {
      BeforeEpoch(w, x.epoch);
      if x.epochAgain > EpochStore(w) {
        AfterEpoch(w, x.epochAgain);
      }
      SeesFirstStream(w, view, x);
      ConcurrentReadFollowsLog(state, view, n, w.memory.slots, w.firstStores, logs.firstStart, logs.first,
                               logs.from, 0);
    } else {
      LateCallSeesNext(w, state, view, n, x);
      ClearedIsEmpty(w);
      ConcurrentReadFollowsLog(state, view, n, Cleared(w).slots, w.nextStores, logs.nextStart, logs.next,
                               logs.nextStart, 0);
    }
  }

  // ---- The window in which the look fails ----

  const FIRST := Stereo(1.0, 1.0)
  const NEXT := Stereo(2.0, 2.0)
  const LAST_SLOT: nat := CAPACITY - 1
  const FIRST_LENGTH: nat := 256
  const NEXT_START: nat := CAPACITY - 68
  const NEXT_LENGTH: nat := 300

  function Constant(sample: Stereo, length: nat): (log: seq<Stereo>)
    ensures |log| == length
  {
    seq(length, _ => sample)
  }

  /** The next stream's frames. */
  function NextEntries(): (stores: seq<Entry>)
    ensures |stores| == NEXT_LENGTH
  {
    seq(NEXT_LENGTH, i requires 0 <= i < NEXT_LENGTH => Entry(NEXT_START + i, NEXT))
  }

  /** The single stores of a capture that starts a stream. */
  function CaptureWrites(first: nat, stores: seq<Entry>): (writes: seq<Write>)
    ensures |writes| == 3 * |stores| + 4
  {
    [SetStreamStart(first), SetWriteFrame(first)]
    + seq(3 * |stores|, k requires 0 <= k < 3 * |stores| => Part(stores[k / 3], k % 3))
    + [SetWriteFrame(first + |stores|), SetActive(true)]
  }

  lemma {:induction false} CapturePartCount(first: nat, stores: seq<Entry>, k: nat)
    requires k <= 3 * |stores|
    ensures PartCount(CaptureWrites(first, stores), k + 2) == k
  {
    var writes := CaptureWrites(first, stores);
    if k == 0 {
      assert PartCount(writes, 1) == PartCount(writes, 0) + 0;
    } else {
      CapturePartCount(first, stores, k - 1);
      assert writes[k + 1] == Part(stores[(k - 1) / 3], (k - 1) % 3);
    }
  }

  lemma {:induction false} CaptureWrite(first: nat, stores: seq<Entry>, t: nat)
    requires t < |CaptureWrites(first, stores)|
    ensures var write := CaptureWrites(first, stores)[t];
            && !write.SetEpoch? && !write.Clear?
            && (write.Part? <==> 2 <= t < 3 * |stores| + 2)
            && (write.Part? ==> write == Part(stores[(t - 2) / 3], (t - 2) % 3))
  {
  }

  lemma {:induction false} CaptureStores(first: nat, stores: seq<Entry>)
    ensures Storing(CaptureWrites(first, stores), stores)
    ensures PartCount(CaptureWrites(first, stores), |CaptureWrites(first, stores)|) == 3 * |stores|
  {
    var writes := CaptureWrites(first, stores);
    forall t | 0 <= t < |writes| ensures InOrderOf(writes, stores, t) {
      CaptureWriteInOrder(first, stores, t);
    }
    var n := 3 * |stores|;
    CapturePartCount(first, stores, n);
    CaptureWrite(first, stores, n + 2);
    CaptureWrite(first, stores, n + 3);
    assert PartCount(writes, n + 3) == n && PartCount(writes, n + 4) == n;
  }

  lemma {:induction false} CaptureWriteInOrder(first: nat, stores: seq<Entry>, t: nat)
    requires t < |CaptureWrites(first, stores)|
    ensures InOrderOf(CaptureWrites(first, stores), stores, t)
  {
    CaptureWrite(first, stores, t);
    if CaptureWrites(first, stores)[t].Part? {
      CapturePartCount(first, stores, t - 2);
    }
  }

  /** A ring with one stream, whose first frame is in the last slot, is reset and gets another of the same frames. */
  function Example(): Writer {
    Writer(Memory(true, 1, LAST_SLOT + FIRST_LENGTH, LAST_SLOT, FilledSlots()), [], [], 2,
           CaptureWrites(NEXT_START, NextEntries()), NextEntries())
  }

  function FilledSlots(): Slots {
    seq(CAPACITY, c requires 0 <= c < CAPACITY =>
      if c == LAST_SLOT then Slot(LAST_SLOT + 1, FIRST)
      else if c < FIRST_LENGTH - 1 then Slot(CAPACITY + c + 1, FIRST)
      else Slot(0, SILENCE))
  }

  ghost function ExampleAt(t: nat): Memory
    requires t <= |Writes(Example())|
  {
    At(Example().memory, Writes(Example()), t)
  }

  /** How many stores the run has, the last of which publishes the next stream. */
  ghost function End(): nat {
    |Writes(Example())|
  }

  /** A call whose first frame load comes after s stores and whose other loads come at the very end. */
  ghost function ExampleView(s: nat): View
    requires s <= End()
  {
    var early: Slots, late: Slots := ExampleAt(s).slots, ExampleAt(End()).slots;
    View(true, true, 2, LAST_SLOT + FIRST_LENGTH, ExampleAt(s).streamStart,
         (k: nat, f: nat) => if k == 0 then Load(early, f) else Load(late, f), 2, true)
  }

  const EXAMPLE_STATE := ReaderState(0.0, 1, 0, 0, 256, false)

  const EXAMPLE_LOGS := Logs(LAST_SLOT, Constant(FIRST, FIRST_LENGTH), LAST_SLOT + FIRST_LENGTH, NEXT_START,
                             Constant(NEXT, NEXT_LENGTH))

  lemma {:induction false} ExampleIsWellFormed()
    ensures WellFormedWriter(Example())
    ensures LastClear(Example()) == CAPACITY + 4 < End()
  {
    CaptureStores(NEXT_START, NextEntries());
  }

  lemma {:induction false} ExampleWritesLogs()
    ensures WritesLogs(Example(), EXAMPLE_LOGS)
  {
    var slots, log := FilledSlots(), Constant(FIRST, FIRST_LENGTH);
    forall c | 0 <= c < CAPACITY && slots[c].tag > 0
      ensures var f := slots[c].tag - 1;
              && f % CAPACITY == c && LAST_SLOT <= f < LAST_SLOT + FIRST_LENGTH
              && slots[c].stereo == log[f - LAST_SLOT]
    {
    }
  }

  /** The memory during the reset. */
  lemma {:induction false} ExampleDuringReset(t: nat)
    requires t <= CAPACITY + 3
    ensures t <= End() && ExampleAt(t) == At(Example().memory, ResetWrites(2), t)
  {
    var w := Example();
    assert Writes(w) == ResetWrites(2) + w.next;
    AtPrefix(w.memory, ResetWrites(2), w.next, t);
  }

  /** The memory at the end. */
  lemma {:induction false} ExampleAtEnd()
    ensures ExampleAt(End()).writerActive && ExampleAt(End()).streamEpoch == 2
    ensures forall f | NEXT_START <= f < NEXT_START + NEXT_LENGTH :: Load(ExampleAt(End()).slots, f) == Some(NEXT)
  {
    var w := Example();
    assert Writes(w)[End() - 1] == SetActive(true);
    ExampleIsWellFormed();
    AfterClear(w, End());
    CaptureStores(NEXT_START, NextEntries());
    forall f: nat | NEXT_START <= f < NEXT_START + NEXT_LENGTH ensures Load(ExampleAt(End()).slots, f) == Some(NEXT) {
      LoadAtEnd(Cleared(w).slots, f);
    }
  }

  lemma {:induction false} LoadAtEnd(slots: Slots, f: nat)
    requires NEXT_START <= f < NEXT_START + NEXT_LENGTH
    ensures Load(RingAfter(slots, NextEntries(), 3 * NEXT_LENGTH), f) == Some(NEXT)
  {
    var steps := 3 * NEXT_LENGTH;
    ConcurrentLoadSucceeds(slots, NextEntries(), NEXT_START, Constant(NEXT, NEXT_LENGTH), NEXT_START, f,
                           steps, steps, steps);
  }

  lemma {:induction false} LoadAtRest(m: Memory, writes: seq<Write>, f: nat, t: nat)
    requires t <= |writes|
    ensures LoadAt(m, writes, f, t, t, t) == Load(At(m, writes, t).slots, f)
  {
  }

  lemma {:induction false} ExampleLoad(s: nat, k: nat, f: nat)
    requires s <= End()
    ensures SeesFrame(ExampleView(s).load(k, f), Example().memory, Writes(Example()), f, s, End())
  {
    var t := if k == 0 then s else End();
    LoadAtRest(Example().memory, Writes(Example()), f, t);
    assert ExampleView(s).load(k, f) == Load(ExampleAt(t).slots, f);
  }

  lemma {:induction false} ExampleHeaderIsSeen(s: nat)
    requires 2 <= s <= CAPACITY + 3
    ensures s <= End()
    ensures var m, writes, view := Example().memory, Writes(Example()), ExampleView(s);
            && |writes| == End()
            && view.writerActive == At(m, writes, 0).writerActive == At(m, writes, End()).writerActive
            && view.streamEpoch == At(m, writes, 2).streamEpoch && view.writeFrame == At(m, writes, 2).writeFrame
            && view.streamStart == At(m, writes, s).streamStart
            && view.epochAfter == At(m, writes, End()).streamEpoch
            && view.activeAfter == At(m, writes, End()).writerActive
  {
    ExampleIsWellFormed();
    ExampleDuringReset(2);
    HeaderIsReset(Example().memory, 2);
    ExampleAtEnd();
  }

  lemma {:induction false} SeenByParts(view: View, m: Memory, writes: seq<Write>, x: Moments)
    requires InOrder(x, |writes|)
    requires view.writerActive == At(m, writes, x.active).writerActive
    requires view.streamEpoch == At(m, writes, x.epoch).streamEpoch
    requires view.writeFrame == At(m, writes, x.writeFrame).writeFrame
    requires view.streamStart == At(m, writes, x.streamStart).streamStart
    requires view.epochAfter == At(m, writes, x.epochAgain).streamEpoch
    requires view.activeAfter == At(m, writes, x.activeAgain).writerActive
    requires forall k: nat, f: nat :: SeesFrame(view.load(k, f), m, writes, f, x.streamStart, x.epochAgain)
    ensures Sees(view, m, writes, x)
  {
  }

  lemma {:induction false} ExampleFramesAreSeen(s: nat)
    requires s <= End()
    ensures forall k: nat, f: nat ::
              SeesFrame(ExampleView(s).load(k, f), Example().memory, Writes(Example()), f, s, End())
  {
    forall k: nat, f: nat
      ensures SeesFrame(ExampleView(s).load(k, f), Example().memory, Writes(Example()), f, s, End())
    {
      ExampleLoad(s, k, f);
    }
  }

  lemma {:induction false} ExampleIsSeen(s: nat)
    requires 2 <= s <= CAPACITY + 3
    ensures s <= End()
    ensures Sees(ExampleView(s), Example().memory, Writes(Example()), Moments(0, 2, 2, s, End(), End()))
  {
    ExampleHeaderIsSeen(s);
    ExampleFramesAreSeen(s);
    SeenByParts(ExampleView(s), Example().memory, Writes(Example()), Moments(0, 2, 2, s, End(), End()));
  }

  lemma {:induction false} FrameAtWhole(load: (nat, nat) -> Option<Stereo>, j: nat, f: nat, sample: Stereo)
    requires load(2 * j, f) == Some(sample) && load(2 * j + 1, f + 1).Some?
    ensures FrameAt(load, j, f as real) == Some(sample)
  {
    assert (f as real).Floor == f;
  }

  lemma {:induction false} EarlyLoad(s: nat)
    requires s <= CAPACITY + 3
    ensures s <= End() && ExampleView(s).load(0, LAST_SLOT) == Some(FIRST)
  {
    EarlySlot(s);
    LoadOfSlot(ExampleAt(s).slots, LAST_SLOT, FIRST);
    assert ExampleView(s).load(0, LAST_SLOT) == Load(ExampleAt(s).slots, LAST_SLOT);
  }

  lemma {:induction false} EarlySlot(s: nat)
    requires s <= CAPACITY + 3
    ensures s <= End() && ExampleAt(s).slots[LAST_SLOT] == Slot(LAST_SLOT + 1, FIRST)
  {
    ExampleDuringReset(s);
    RestDuringReset(Example().memory, 2, s);
    assert FilledSlots()[LAST_SLOT] == Slot(LAST_SLOT + 1, FIRST);
  }

  lemma {:induction false} LoadOfSlot(slots: Slots, f: nat, sample: Stereo)
    requires f < CAPACITY && slots[f] == Slot(f + 1, sample)
    ensures Load(slots, f) == Some(sample)
  {
  }

  lemma {:induction false} LateLoad(s: nat, k: nat, f: nat)
    requires s <= End() && k > 0 && NEXT_START <= f < NEXT_START + NEXT_LENGTH
    ensures ExampleView(s).load(k, f) == Some(NEXT)
  {
    ExampleAtEnd();
    assert ExampleView(s).load(k, f) == Load(ExampleAt(End()).slots, f);
  }

  lemma {:induction false} ExampleFrames(s: nat)
    requires s <= CAPACITY + 3
    ensures s <= End()
    ensures FrameAt(ExampleView(s).load, 0, LAST_SLOT as real) == Some(FIRST)
    ensures FrameAt(ExampleView(s).load, 1, CAPACITY as real) == Some(NEXT)
  {
    EarlyLoad(s);
    LateLoad(s, 1, CAPACITY);
    LateLoad(s, 2, CAPACITY);
    LateLoad(s, 3, CAPACITY + 1);
    FrameAtWhole(ExampleView(s).load, 0, LAST_SLOT, FIRST);
    FrameAtWhole(ExampleView(s).load, 1, CAPACITY, NEXT);
  }

  lemma {:induction false} ExampleIsLoadable(s: nat)
    requires s <= CAPACITY + 3
    ensures s <= End()
    ensures Loadable(ExampleView(s).load, LAST_SLOT as real, 1.0, 2) == 2
    ensures Rendering(ExampleView(s).load, LAST_SLOT as real, 1.0, 2) == [FIRST, NEXT]
  {
    ExampleFrames(s);
    var load, start := ExampleView(s).load, LAST_SLOT as real;
    assert PositionAfter(start, 1.0, 0) == start && PositionAfter(start, 1.0, 1) == CAPACITY as real;
    assert Loadable(load, start, 1.0, 0) == 0;
    assert Loadable(load, start, 1.0, 1) == 1;
  }

  lemma {:induction false} ExampleRenders(s: nat)
    requires s <= CAPACITY + 3
    ensures s <= End() && ExampleView(s).streamStart + 256 <= ExampleView(s).writeFrame
    ensures var outcome := ReadOutcome(EXAMPLE_STATE, ExampleView(s), 2);
            outcome.rendered == 2 && outcome.frames == [FIRST, NEXT]
    ensures Resynchronized(EXAMPLE_STATE, ExampleView(s)).readFrame == LAST_SLOT as real
  {
    ExampleDuringReset(s);
    RestDuringReset(Example().memory, 2, s);
    var ready := Resynchronized(EXAMPLE_STATE, ExampleView(s));
    assert ready.readFrame == LAST_SLOT as real;
    assert Ratio(256, 256) == 1.0;
    ExampleIsLoadable(s);
    CompletePlay(ready, ExampleView(s), 2, 1.0);
  }

  /** A constant log does not contain the other sample. */
  lemma {:induction false} MixIsOfNeither(ready: ReaderState, writeFrame: nat, sample: Stereo, other: Stereo,
                                          start: nat, length: nat, j: nat)
    requires ready.targetLatencyFrames > 0 && sample != other && j < 2 && [FIRST, NEXT][j] == other
    ensures !PlayedFrom(ready, writeFrame, start, Constant(sample, length), [FIRST, NEXT])
  {
    var log, frames := Constant(sample, length), [FIRST, NEXT];
    if PlayedFrom(ready, writeFrame, start, log, frames) {
      var ratio := Ratio(Max(0, writeFrame - ready.readFrame.Floor), ready.targetLatencyFrames);
      var p := PositionAfter(ready.readFrame, ratio, j);
      assert frames[j] == LogAt(start, log, p);
      InterpolatedConstant(sample, p - p.Floor as real);
    }
  }

  lemma {:induction false} InterpolatedConstant(sample: Stereo, fraction: real)
    ensures Interpolate(sample, sample, fraction) == sample
  {
  }

  /**
   The condition cannot be dropped, wherever in the window the frame loads begin: in this run one of the two
   frames rendered is of the first stream, the other of the next.
   */
  lemma {:induction false} WindowMixesStreams(s: nat) returns (w: Writer, view: View, x: Moments)
    requires 2 <= s <= CAPACITY + 3
    ensures WellFormedWriter(w) && WritesLogs(w, EXAMPLE_LOGS) && Sees(view, w.memory, Writes(w), x)
    ensures InWindow(w, x) && EpochStore(w) == 1 && x.streamStart == s
    ensures ReadOutcome(EXAMPLE_STATE, view, 2).rendered == 2 && view.streamStart + 256 <= view.writeFrame
    ensures var ready, frames := Resynchronized(EXAMPLE_STATE, view), ReadOutcome(EXAMPLE_STATE, view, 2).frames;
            && !PlayedFrom(ready, view.writeFrame, EXAMPLE_LOGS.firstStart, EXAMPLE_LOGS.first, frames)
            && !PlayedFrom(ready, view.writeFrame, EXAMPLE_LOGS.nextStart, EXAMPLE_LOGS.next, frames)
  {
    ExampleIsWellFormed();
    w, view := Example(), ExampleView(s);
    x := Moments(0, 2, 2, s, End(), End());
    ExampleWritesLogs();
    ExampleIsSeen(s);
    ExampleRenders(s);
    MixIsOfNeither(Resynchronized(EXAMPLE_STATE, view), view.writeFrame, FIRST, NEXT, LAST_SLOT, FIRST_LENGTH, 1);
    MixIsOfNeither(Resynchronized(EXAMPLE_STATE, view), view.writeFrame, NEXT, FIRST, NEXT_START, NEXT_LENGTH, 0);
  }

  // ---- Exactly when the look suffices ----

  /** The call plays one of the two streams. */
  ghost predicate PlaysOne(logs: Logs, state: ReaderState, view: View, n: nat)
    requires state.readFrame >= 0.0 && state.targetLatencyFrames > 0
    requires view.streamStart + state.targetLatencyFrames <= view.writeFrame
  {
    var ready, frames := Resynchronized(state, view), ReadOutcome(state, view, n).frames;
    || PlayedFrom(ready, view.writeFrame, logs.firstStart, logs.first, frames)
    || PlayedFrom(ready, view.writeFrame, logs.nextStart, logs.next, frames)
  }

  /** A run and a call in it. */
  datatype Call = Call(writer: Writer, logs: Logs, state: ReaderState, view: View, n: nat, moments: Moments)

  /** A call that renders; its header loads come e, f and s stores after the last one before the epoch's store. */
  ghost predicate Renders(c: Call, e: int, f: int, s: int) {
    && WellFormedWriter(c.writer) && WritesLogs(c.writer, c.logs)
    && Sees(c.view, c.writer.memory, Writes(c.writer), c.moments)
    && c.state.readFrame >= 0.0 && c.state.targetLatencyFrames > 0
    && ReadOutcome(c.state, c.view, c.n).rendered > 0
    && c.moments.epoch == EpochStore(c.writer) + e
    && c.moments.writeFrame == EpochStore(c.writer) + f
    && c.moments.streamStart == EpochStore(c.writer) + s
  }

  ghost predicate IsSafe(c: Call)
    requires c.state.readFrame >= 0.0 && c.state.targetLatencyFrames > 0
  {
    c.view.streamStart + c.state.targetLatencyFrames <= c.view.writeFrame && PlaysOne(c.logs, c.state, c.view, c.n)
  }

  /** Whatever the writer, the reader and its other loads, such a call plays one stream. */
  ghost predicate SafeAt(e: int, f: int, s: int) {
    forall c: Call | Renders(c, e, f, s) :: IsSafe(c)
  }

  /**
   Main result: the second look at the epoch keeps calls from playing two streams if and only if they do not load
   both the epoch and the write frame between the reset's stores of the two, and the stream's start, after which
   the frame loads come, before its last tag clear.
   */
  lemma {:induction false} SafeIffOutsideWindow(e: int, f: int, s: int)
    ensures SafeAt(e, f, s) <==> !(e == 1 && f == 1 && 1 <= s < CAPACITY + 3)
  {
    if e == 1 && f == 1 && 1 <= s < CAPACITY + 3 {
      var w, view, x := WindowMixesStreams(s + 1);
      var c := Call(w, EXAMPLE_LOGS, EXAMPLE_STATE, view, 2, x);
      assert Renders(c, e, f, s) && !IsSafe(c);
    } else {
      forall c: Call | Renders(c, e, f, s) ensures IsSafe(c) {
        OneStreamOnly(c.writer, c.logs, c.state, c.view, c.n, c.moments);
      }
    }
  }
}
