/**
 Loads of a frame that run between the steps of the single writer.

 The writer performs three atomic stores per frame (tag := 0, word, tag := frame + 1); a load performs three
 atomic loads (tag, word, tag). Under sequential consistency a load is therefore fixed by the number of
 writer steps that precede each of its three reads.
 */
module SlotInterleaving {
  import opened Types
  import opened SharedAudio
  import opened RingHistory

  /** One of the three atomic stores of StoreFrame. */
  function Step(slot: Slot, store: Entry, phase: nat): Slot
    requires phase < 3
  {
    match phase
    case 0 => slot.(tag := 0)
    case 1 => slot.(stereo := store.stereo)
    case _ => slot.(tag := store.frame + 1)
  }

  function SlotAfter(initial: Slot, stores: seq<Entry>, steps: nat): Slot
    requires steps <= 3 * |stores|
  {
    if steps == 0 then initial
    else Step(SlotAfter(initial, stores, steps - 1), stores[(steps - 1) / 3], (steps - 1) % 3)
  }

  /** The store whose word is in the slot; -1 for the word that was there at the start. */
  ghost function Owner(steps: nat): (j: int)
    ensures -1 <= j && 3 * j < steps
  {
    if steps == 0 then -1
    else if (steps - 1) % 3 == 1 then (steps - 1) / 3
    else Owner(steps - 1)
  }

  /** The frame a word was stored for; -1 when the slot was free at the start. */
  ghost function FrameOf(initial: Slot, stores: seq<Entry>, j: int): int
    requires -1 <= j < |stores|
  {
    if j == -1 then initial.tag - 1 else stores[j].frame
  }

  ghost function WordOf(initial: Slot, stores: seq<Entry>, j: int): Stereo
    requires -1 <= j < |stores|
  {
    if j == -1 then initial.stereo else stores[j].stereo
  }

  /** LoadFrame(f) whose three reads happen after t1, t2 and t3 writer steps. */
  function LoadBetween(initial: Slot, stores: seq<Entry>, f: nat, t1: nat, t2: nat, t3: nat): Option<Stereo>
    requires t1 <= t2 <= t3 <= 3 * |stores|
  {
    if SlotAfter(initial, stores, t1).tag != f + 1 then None
    else if SlotAfter(initial, stores, t3).tag != f + 1 then None
    else Some(SlotAfter(initial, stores, t2).stereo)
  }

  lemma {:induction false} SlotContents(initial: Slot, stores: seq<Entry>, steps: nat)
    requires steps <= 3 * |stores|
    ensures Owner(steps) == (steps + 1) / 3 - 1
    ensures SlotAfter(initial, stores, steps).stereo == WordOf(initial, stores, Owner(steps))
    ensures SlotAfter(initial, stores, steps).tag ==
            if steps > 0 && steps % 3 != 0 then 0 else FrameOf(initial, stores, Owner(steps)) + 1
  {
    if steps > 0 {
      SlotContents(initial, stores, steps - 1);
    }
  }

  /** Every successful load of f, at any moments, returns a word that was stored for f. */
  ghost predicate LoadsAreSafe(initial: Slot, stores: seq<Entry>, f: nat) {
    forall t1: nat, t2: nat, t3: nat | t1 <= t2 <= t3 <= 3 * |stores| ::
      LoadBetween(initial, stores, f, t1, t2, t3).Some? ==> FrameOf(initial, stores, Owner(t2)) == f
  }

  ghost predicate ReturnsAt(initial: Slot, stores: seq<Entry>, f: nat, i: int, j: int, k: int)
    requires -1 <= i < j < k < |stores|
  {
    FrameOf(initial, stores, i) == f && FrameOf(initial, stores, j) != f && FrameOf(initial, stores, k) == f
  }

  /** The slot held f, then another frame, then f again. */
  ghost predicate Returns(initial: Slot, stores: seq<Entry>, f: nat) {
    exists i, j, k :: -1 <= i < j < k < |stores| && ReturnsAt(initial, stores, f, i, j, k)
  }

  lemma {:induction false} SafeWithoutReturn(initial: Slot, stores: seq<Entry>, f: nat, t1: nat, t2: nat, t3: nat)
    requires t1 <= t2 <= t3 <= 3 * |stores|
    requires !Returns(initial, stores, f)
    requires LoadBetween(initial, stores, f, t1, t2, t3).Some?
    ensures FrameOf(initial, stores, Owner(t2)) == f
    ensures LoadBetween(initial, stores, f, t1, t2, t3) == Some(WordOf(initial, stores, Owner(t2)))
  {
    SlotContents(initial, stores, t1);
    SlotContents(initial, stores, t2);
    SlotContents(initial, stores, t3);
    if FrameOf(initial, stores, Owner(t2)) != f {
      assert ReturnsAt(initial, stores, f, Owner(t1), Owner(t2), Owner(t3));
    }
  }

  /** A slot that comes back to f lets a load return, as frame f, the word of the frame in between. */
  lemma {:induction false} ReturnDefeatsTheTags(initial: Slot, stores: seq<Entry>, f: nat, i: int, j: int, k: int)
    requires -1 <= i < j < k < |stores| && ReturnsAt(initial, stores, f, i, j, k)
    ensures LoadBetween(initial, stores, f, 3 * (i + 1), 3 * (j + 1), 3 * (k + 1)) == Some(stores[j].stereo)
    ensures Owner(3 * (j + 1)) == j && stores[j].frame != f
  {
    SlotBetweenStores(initial, stores, i);
    SlotBetweenStores(initial, stores, j);
    SlotBetweenStores(initial, stores, k);
  }

  /** After whole stores the slot shows the last of them. */
  lemma {:induction false} SlotBetweenStores(initial: Slot, stores: seq<Entry>, j: int)
    requires -1 <= j < |stores|
    ensures Owner(3 * (j + 1)) == j
    ensures SlotAfter(initial, stores, 3 * (j + 1)) == Slot(FrameOf(initial, stores, j) + 1, WordOf(initial, stores, j))
  {
    ThirdOf(j + 1, 0);
    ThirdOf(j + 1, 1);
    SlotContents(initial, stores, 3 * (j + 1));
  }

  /** Main result: the tag protocol is sound exactly when the slot never leaves a frame and comes back to it. */
  lemma {:induction false} LoadsAreSafeIff(initial: Slot, stores: seq<Entry>, f: nat)
    ensures LoadsAreSafe(initial, stores, f) <==> !Returns(initial, stores, f)
  {
    if Returns(initial, stores, f) {
      var i, j, k :| -1 <= i < j < k < |stores| && ReturnsAt(initial, stores, f, i, j, k);
      ReturnDefeatsTheTags(initial, stores, f, i, j, k);
    } else {
      forall t1: nat, t2: nat, t3: nat |
        t1 <= t2 <= t3 <= 3 * |stores| && LoadBetween(initial, stores, f, t1, t2, t3).Some?
        ensures FrameOf(initial, stores, Owner(t2)) == f
      {
        SafeWithoutReturn(initial, stores, f, t1, t2, t3);
      }
    }
  }

  ghost predicate NonDecreasing(initial: Slot, stores: seq<Entry>) {
    forall i, j | -1 <= i < j < |stores| :: FrameOf(initial, stores, i) <= FrameOf(initial, stores, j)
  }

  /** A writer whose frames never go backwards satisfies the condition for every frame. */
  lemma {:induction false} NonDecreasingNeverReturns(initial: Slot, stores: seq<Entry>, f: nat)
    requires NonDecreasing(initial, stores)
    ensures LoadsAreSafe(initial, stores, f)
  {
    LoadsAreSafeIff(initial, stores, f);
  }

  // ---- From one slot to the whole ring ----

  /** The whole ring after some steps of storing the given frames one after the other. */
  function RingAfter(slots: seq<Slot>, stores: seq<Entry>, steps: nat): (r: seq<Slot>)
    requires |slots| == CAPACITY && steps <= 3 * |stores|
    ensures |r| == CAPACITY
  {
    if steps == 0 then slots
    else
      var before := RingAfter(slots, stores, steps - 1);
      var store := stores[(steps - 1) / 3];
      var c := store.frame % CAPACITY;
      before[c := Step(before[c], store, (steps - 1) % 3)]
  }

  lemma {:induction false} StepsOfOneStore(slots: seq<Slot>, stores: seq<Entry>, j: nat, steps: nat)
    requires |slots| == CAPACITY && j < |stores| && steps == 3 * j
    ensures RingAfter(slots, stores, steps + 3) ==
            Store(RingAfter(slots, stores, steps), stores[j].frame, stores[j].stereo)
  {
    var r := RingAfter(slots, stores, steps);
    var c := stores[j].frame % CAPACITY;
    assert RingAfter(slots, stores, steps + 1) == r[c := Step(r[c], stores[j], 0)];
    assert RingAfter(slots, stores, steps + 2) == r[c := Step(Step(r[c], stores[j], 0), stores[j], 1)];
    assert RingAfter(slots, stores, steps + 3) ==
           r[c := Step(Step(Step(r[c], stores[j], 0), stores[j], 1), stores[j], 2)];
  }

  lemma {:induction false} StoreAllNext(slots: seq<Slot>, first: nat, samples: seq<Stereo>, j: nat)
    requires |slots| == CAPACITY && j < |samples|
    ensures StoreAll(slots, first, samples[..j + 1]) ==
            Store(StoreAll(slots, first, samples[..j]), first + j, samples[j])
  {
    assert samples[..j + 1][..j] == samples[..j];
  }

  /** Run without interruption, the atomic stores of a block's first j frames are the capture of these frames. */
  lemma {:induction false} StepsAreStoreAll(slots: seq<Slot>, first: nat, samples: seq<Stereo>, j: nat, steps: nat)
    requires |slots| == CAPACITY && j <= |samples| && steps == 3 * j
    ensures RingAfter(slots, Published(first, samples), steps) == StoreAll(slots, first, samples[..j])
  {
    if j > 0 {
      StepsAreStoreAll(slots, first, samples, j - 1, steps - 3);
      StepsOfOneStore(slots, Published(first, samples), j - 1, steps - 3);
      StoreAllNext(slots, first, samples, j - 1);
    }
  }

  /** The stores that go to slot c. */
  function ForSlot(stores: seq<Entry>, c: nat): (r: seq<Entry>)
    ensures |r| <= |stores|
  {
    if stores == [] then []
    else
      var n := |stores| - 1;
      ForSlot(stores[..n], c) + if stores[n].frame % CAPACITY == c then [stores[n]] else []
  }

  predicate Here(stores: seq<Entry>, c: nat, j: nat)
    requires j < |stores|
  {
    stores[j].frame % CAPACITY == c
  }

  /** How many of the first steps go to slot c. */
  function StepsForSlot(stores: seq<Entry>, c: nat, steps: nat): nat
    requires steps <= 3 * |stores|
  {
    if steps == 0 then 0
    else StepsForSlot(stores, c, steps - 1) + if Here(stores, c, (steps - 1) / 3) then 1 else 0
  }

  lemma {:induction false} ForSlotPrefix(stores: seq<Entry>, c: nat, i: nat)
    requires i <= |stores|
    ensures ForSlot(stores[..i], c) <= ForSlot(stores, c)
    ensures i < |stores| ==>
              ForSlot(stores[..i + 1], c) ==
              ForSlot(stores[..i], c) + if stores[i].frame % CAPACITY == c then [stores[i]] else []
    decreases |stores|
  {
    if i < |stores| {
      assert stores[..i + 1][..i] == stores[..i];
      var n := |stores| - 1;
      ForSlotPrefix(stores[..n], c, i);
      assert stores[..n][..i] == stores[..i];
    } else {
      assert stores[..i] == stores;
    }
  }

  lemma {:induction false} ThirdOf(j: nat, q: nat)
    requires q < 3
    ensures (3 * j + q) / 3 == j && (3 * j + q) % 3 == q
  {
  }

  lemma {:induction false} StepOfSlot(stores: seq<Entry>, c: nat, j: nat, q: nat)
    requires j < |stores| && q < 3
    ensures StepsForSlot(stores, c, 3 * j + q + 1) ==
            StepsForSlot(stores, c, 3 * j + q) + if Here(stores, c, j) then 1 else 0
  {
    ThirdOf(j, q);
  }

  lemma {:induction false} StepsByStore(stores: seq<Entry>, c: nat, j: nat, q: nat)
    requires q <= 3 && 3 * j + q <= 3 * |stores| && (j == |stores| ==> q == 0)
    ensures StepsForSlot(stores, c, 3 * j + q) ==
            3 * |ForSlot(stores[..j], c)| + if j < |stores| && Here(stores, c, j) then q else 0
    decreases j, q
  {
    if q > 0 {
      StepsByStore(stores, c, j, q - 1);
      StepOfSlot(stores, c, j, q - 1);
    } else if j > 0 {
      StepsByStore(stores, c, j - 1, 3);
      ForSlotCount(stores, c, j - 1);
    }
  }

  lemma {:induction false} ForSlotCount(stores: seq<Entry>, c: nat, i: nat)
    requires i < |stores|
    ensures |ForSlot(stores[..i + 1], c)| == |ForSlot(stores[..i], c)| + if Here(stores, c, i) then 1 else 0
  {
    ForSlotPrefix(stores, c, i);
  }

  /** Step q of store j, when it concerns slot c, is the next step of that slot's own stores. */
  lemma {:induction false} NextStepOfSlot(stores: seq<Entry>, c: nat, steps: nat)
    requires steps < 3 * |stores| && Here(stores, c, steps / 3)
    ensures var n := StepsForSlot(stores, c, steps);
            && n < 3 * |ForSlot(stores, c)|
            && ForSlot(stores, c)[n / 3] == stores[steps / 3]
            && n % 3 == steps % 3
  {
    var j, q := steps / 3, steps % 3;
    var before := |ForSlot(stores[..j], c)|;
    StepsByStore(stores, c, j, q);
    ThirdOf(before, q);
    StoreOfSlot(stores, c, j);
  }

  /** Store j, when it goes to slot c, follows in that slot's own stores the earlier ones that do. */
  lemma {:induction false} StoreOfSlot(stores: seq<Entry>, c: nat, j: nat)
    requires j < |stores| && Here(stores, c, j)
    ensures |ForSlot(stores[..j], c)| < |ForSlot(stores, c)|
    ensures ForSlot(stores, c)[|ForSlot(stores[..j], c)|] == stores[j]
  {
    ForSlotPrefix(stores, c, j);
    ForSlotPrefix(stores, c, j + 1);
    assert ForSlot(stores[..j + 1], c)[|ForSlot(stores[..j], c)|] == stores[j];
  }

  lemma {:induction false} RingStep(slots: seq<Slot>, stores: seq<Entry>, c: nat, steps: nat)
    requires |slots| == CAPACITY && c < CAPACITY && steps < 3 * |stores|
    ensures RingAfter(slots, stores, steps + 1)[c] ==
            if Here(stores, c, steps / 3)
            then Step(RingAfter(slots, stores, steps)[c], stores[steps / 3], steps % 3)
            else RingAfter(slots, stores, steps)[c]
  {
  }

  lemma {:induction false} SlotStep(initial: Slot, stores: seq<Entry>, steps: nat, store: Entry, phase: nat)
    requires steps < 3 * |stores| && stores[steps / 3] == store && steps % 3 == phase
    ensures SlotAfter(initial, stores, steps + 1) == Step(SlotAfter(initial, stores, steps), store, phase)
  {
  }

  lemma {:induction false} StepsInRange(stores: seq<Entry>, c: nat, steps: nat)
    requires steps <= 3 * |stores|
    ensures StepsForSlot(stores, c, steps) <= 3 * |ForSlot(stores, c)|
  {
    StepsByStore(stores, c, steps / 3, steps % 3);
    ForSlotPrefix(stores, c, steps / 3);
    if steps / 3 < |stores| {
      ForSlotPrefix(stores, c, steps / 3 + 1);
    }
  }

  /** Slot c of the ring sees exactly its own stores. */
  lemma {:induction false} RingSlotAfter(slots: seq<Slot>, stores: seq<Entry>, c: nat, steps: nat)
    requires |slots| == CAPACITY && c < CAPACITY && steps <= 3 * |stores|
    ensures StepsForSlot(stores, c, steps) <= 3 * |ForSlot(stores, c)|
    ensures RingAfter(slots, stores, steps)[c] ==
            SlotAfter(slots[c], ForSlot(stores, c), StepsForSlot(stores, c, steps))
  {
    StepsInRange(stores, c, steps);
    if steps > 0 {
      var before := steps - 1;
      RingSlotAfter(slots, stores, c, before);
      StepsGrow(stores, c, before, steps);
      NextRingSlot(slots, stores, c, before);
    }
  }

  lemma {:induction false} NextRingSlot(slots: seq<Slot>, stores: seq<Entry>, c: nat, steps: nat)
    requires |slots| == CAPACITY && c < CAPACITY && steps < 3 * |stores|
    requires StepsForSlot(stores, c, steps) <= StepsForSlot(stores, c, steps + 1) <= 3 * |ForSlot(stores, c)|
    requires RingAfter(slots, stores, steps)[c] ==
             SlotAfter(slots[c], ForSlot(stores, c), StepsForSlot(stores, c, steps))
    ensures RingAfter(slots, stores, steps + 1)[c] ==
            SlotAfter(slots[c], ForSlot(stores, c), StepsForSlot(stores, c, steps + 1))
  {
    RingStep(slots, stores, c, steps);
    var k := StepsForSlot(stores, c, steps);
    if Here(stores, c, steps / 3) {
      NextStepOfSlot(stores, c, steps);
      SlotStep(slots[c], ForSlot(stores, c), k, stores[steps / 3], steps % 3);
      assert StepsForSlot(stores, c, steps + 1) == k + 1;
    } else {
      assert StepsForSlot(stores, c, steps + 1) == k;
    }
  }

  lemma {:induction false} StepsGrow(stores: seq<Entry>, c: nat, s: nat, t: nat)
    requires s <= t <= 3 * |stores|
    ensures StepsForSlot(stores, c, s) <= StepsForSlot(stores, c, t)
    decreases t - s
  {
    if s < t {
      StepsGrow(stores, c, s + 1, t);
    }
  }

  /** LoadFrame on the shared ring while the writer stores frames, its reads after t1, t2 and t3 writer steps. */
  function ConcurrentLoad(slots: seq<Slot>, stores: seq<Entry>, f: nat, t1: nat, t2: nat, t3: nat): Option<Stereo>
    requires |slots| == CAPACITY && t1 <= t2 <= t3 <= 3 * |stores|
  {
    var c := f % CAPACITY;
    if RingAfter(slots, stores, t1)[c].tag != f + 1 then None
    else if RingAfter(slots, stores, t3)[c].tag != f + 1 then None
    else Some(RingAfter(slots, stores, t2)[c].stereo)
  }

  /** The stores of one gap-free stream: log[i] is the sample of frame start + i, stored in order. */
  ghost predicate GapFree(stores: seq<Entry>, start: nat, log: seq<Stereo>, from: nat) {
    && start <= from && from + |stores| == start + |log|
    && forall i | 0 <= i < |stores| :: stores[i] == Entry(from + i, log[from + i - start])
  }

  /** Every loadable frame of the ring is a frame of the log published before `end`. */
  ghost predicate FromLog(slots: seq<Slot>, start: nat, log: seq<Stereo>, end: nat)
    requires |slots| == CAPACITY
  {
    forall c | 0 <= c < CAPACITY && slots[c].tag > 0 ::
      var f := slots[c].tag - 1;
      f % CAPACITY == c && start <= f < end && f - start < |log| && slots[c].stereo == log[f - start]
  }

  /** Stores of ascending frames between `from` and `end`, each with the log's sample. */
  ghost predicate Ascending(stores: seq<Entry>, start: nat, log: seq<Stereo>, from: nat, end: nat) {
    && start <= from && end <= start + |log|
    && (forall i | 0 <= i < |stores| ::
         from <= stores[i].frame < end && stores[i].stereo == log[stores[i].frame - start])
    && (forall i, j | 0 <= i < j < |stores| :: stores[i].frame < stores[j].frame)
  }

  lemma {:induction false} AscendsFurther(stores: seq<Entry>, start: nat, log: seq<Stereo>, from: nat, end: nat,
                                          store: Entry)
    requires Ascending(stores, start, log, from, end) && from <= end < start + |log|
    requires store == Entry(end, log[end - start])
    ensures Ascending(stores + [store], start, log, from, end + 1)
  {
  }

  lemma {:induction false} ForSlotAscends(stores: seq<Entry>, c: nat, start: nat, log: seq<Stereo>, from: nat)
    requires |stores| + from - start <= |log|
    requires start <= from && forall i | 0 <= i < |stores| :: stores[i] == Entry(from + i, log[from + i - start])
    ensures Ascending(ForSlot(stores, c), start, log, from, from + |stores|)
    decreases |stores|
  {
    if stores != [] {
      var n := |stores| - 1;
      ForSlotAscends(stores[..n], c, start, log, from);
      if stores[n].frame % CAPACITY == c {
        AscendsFurther(ForSlot(stores[..n], c), start, log, from, from + n, stores[n]);
        assert ForSlot(stores, c) == ForSlot(stores[..n], c) + [stores[n]];
      } else {
        assert ForSlot(stores, c) == ForSlot(stores[..n], c);
      }
    }
  }

  lemma {:induction false} OwnStoresAscend(stores: seq<Entry>, c: nat, start: nat, log: seq<Stereo>, from: nat)
    requires GapFree(stores, start, log, from)
    ensures Ascending(ForSlot(stores, c), start, log, from, start + |log|)
  {
    ForSlotAscends(stores, c, start, log, from);
  }

  /** The same for one slot, whose stores ascend and carry the samples of the log. */
  lemma {:induction false} LoadFromAscendingStores(initial: Slot, stores: seq<Entry>, start: nat, log: seq<Stereo>,
                                                   from: nat, f: nat, t1: nat, t2: nat, t3: nat)
    requires t1 <= t2 <= t3 <= 3 * |stores|
    requires initial.tag > 0 ==> start <= initial.tag - 1 < from && initial.tag - 1 - start < |log|
                                 && initial.stereo == log[initial.tag - 1 - start]
    requires start <= from
    requires Ascending(stores, start, log, from, start + |log|)
    requires LoadBetween(initial, stores, f, t1, t2, t3).Some?
    ensures start <= f < start + |log|
    ensures LoadBetween(initial, stores, f, t1, t2, t3) == Some(log[f - start])
  {
    assert NonDecreasing(initial, stores);
    NonDecreasingNeverReturns(initial, stores, f);
    LoadsAreSafeIff(initial, stores, f);
    SafeWithoutReturn(initial, stores, f, t1, t2, t3);
  }

  /** A load on the ring is a load on its slot, between that slot's own steps. */
  lemma {:induction false} ConcurrentLoadIsSlotLoad(slots: seq<Slot>, stores: seq<Entry>, f: nat, c: nat, t1: nat,
                                                    t2: nat, t3: nat)
    returns (s1: nat, s2: nat, s3: nat)
    requires |slots| == CAPACITY && t1 <= t2 <= t3 <= 3 * |stores| && c == f % CAPACITY
    ensures s1 <= s2 <= s3 <= 3 * |ForSlot(stores, c)|
    ensures ConcurrentLoad(slots, stores, f, t1, t2, t3) == LoadBetween(slots[c], ForSlot(stores, c), f, s1, s2, s3)
  {
    s1, s2, s3 := StepsForSlot(stores, c, t1), StepsForSlot(stores, c, t2), StepsForSlot(stores, c, t3);
    RingSlotAfter(slots, stores, c, t1);
    RingSlotAfter(slots, stores, c, t2);
    RingSlotAfter(slots, stores, c, t3);
    StepsGrow(stores, c, t1, t2);
    StepsGrow(stores, c, t2, t3);
  }

  lemma {:induction false} SlotIsLogged(slots: seq<Slot>, start: nat, log: seq<Stereo>, end: nat, c: nat)
    requires |slots| == CAPACITY && FromLog(slots, start, log, end) && c < CAPACITY
    ensures slots[c].tag > 0 ==> start <= slots[c].tag - 1 < end && slots[c].tag - 1 - start < |log|
                                 && slots[c].stereo == log[slots[c].tag - 1 - start]
  {
  }

  /**
   Main result for the ring: while a gap-free writer extends the stream, any load of f at any moments either
   fails or returns the log's sample for f, never a torn word or another lap's.
   */
  lemma {:induction false} ConcurrentLoadIsLogged(slots: seq<Slot>, stores: seq<Entry>, start: nat, log: seq<Stereo>,
                                                  from: nat, f: nat, t1: nat, t2: nat, t3: nat)
    requires |slots| == CAPACITY && t1 <= t2 <= t3 <= 3 * |stores|
    requires GapFree(stores, start, log, from) && FromLog(slots, start, log, from)
    requires ConcurrentLoad(slots, stores, f, t1, t2, t3).Some?
    ensures start <= f < start + |log|
    ensures ConcurrentLoad(slots, stores, f, t1, t2, t3) == Some(log[f - start])
  {
    var c := f % CAPACITY;
    var s1, s2, s3 := ConcurrentLoadIsSlotLoad(slots, stores, f, c, t1, t2, t3);
    OwnStoresAscend(stores, c, start, log, from);
    SlotIsLogged(slots, start, log, from, c);
    LoadFromAscendingStores(slots[c], ForSlot(stores, c), start, log, from, f, s1, s2, s3);
  }

  // ---- Loads that cannot fail ----

  /** Three steps complete a store. */
  lemma {:induction false} StoreCompletes(slots: seq<Slot>, stores: seq<Entry>, i: nat, c: nat)
    requires |slots| == CAPACITY && i < |stores| && c == stores[i].frame % CAPACITY
    ensures RingAfter(slots, stores, 3 * (i + 1))[c] == Slot(stores[i].frame + 1, stores[i].stereo)
  {
    var steps := 3 * i;
    StepOfStore(slots, stores, i, 0, c, steps);
    StepOfStore(slots, stores, i, 1, c, steps + 1);
    StepOfStore(slots, stores, i, 2, c, steps + 2);
    ThreeSteps(RingAfter(slots, stores, steps)[c], stores[i]);
  }

  lemma {:induction false} ThreeSteps(slot: Slot, store: Entry)
    ensures Step(Step(Step(slot, store, 0), store, 1), store, 2) == Slot(store.frame + 1, store.stereo)
  {
  }

  lemma {:induction false} StepOfStore(slots: seq<Slot>, stores: seq<Entry>, i: nat, phase: nat, c: nat, steps: nat)
    requires |slots| == CAPACITY && i < |stores| && phase < 3 && c == stores[i].frame % CAPACITY
    requires steps == 3 * i + phase
    ensures RingAfter(slots, stores, steps + 1)[c] == Step(RingAfter(slots, stores, steps)[c], stores[i], phase)
  {
    ThirdOf(i, phase);
    RingStep(slots, stores, c, steps);
  }

  /** Stores to other slots leave a slot alone. */
  lemma {:induction false} SlotIsLeftAlone(slots: seq<Slot>, stores: seq<Entry>, c: nat, j: nat, steps: nat)
    requires |slots| == CAPACITY && c < CAPACITY && 3 * j <= steps <= 3 * |stores|
    requires forall i | j <= i < |stores| :: !Here(stores, c, i)
    ensures RingAfter(slots, stores, steps)[c] == RingAfter(slots, stores, 3 * j)[c]
    decreases steps
  {
    if steps > 3 * j {
      SlotIsLeftAlone(slots, stores, c, j, steps - 1);
      RingStep(slots, stores, c, steps - 1);
      assert j <= (steps - 1) / 3 < |stores|;
    }
  }

  /** Every frame of the last lap can be loaded. */
  ghost predicate Retains(slots: seq<Slot>, start: nat, log: seq<Stereo>, end: nat)
    requires |slots| == CAPACITY && end <= start + |log|
  {
    forall f | start <= f < end && end <= f + CAPACITY :: Load(slots, f) == Some(log[f - start])
  }

  lemma {:induction false} OthersAreElsewhere(stores: seq<Entry>, start: nat, log: seq<Stereo>, from: nat, f: nat,
                                              j: nat)
    requires GapFree(stores, start, log, from) && from + |stores| <= f + CAPACITY && f < from + j
    ensures forall i | j <= i < |stores| :: !Here(stores, f % CAPACITY, i)
  {
    forall i | j <= i < |stores| ensures !Here(stores, f % CAPACITY, i) {
      assert 0 < stores[i].frame - f < CAPACITY;
    }
  }

  lemma {:induction false} SlotOfOldFrame(slots: seq<Slot>, stores: seq<Entry>, start: nat, log: seq<Stereo>,
                                          from: nat, f: nat, steps: nat)
    requires |slots| == CAPACITY && steps <= 3 * |stores|
    requires GapFree(stores, start, log, from) && Retains(slots, start, log, from)
    requires start <= f < from && from + |stores| <= f + CAPACITY
    ensures RingAfter(slots, stores, steps)[f % CAPACITY] == Slot(f + 1, log[f - start])
  {
    OthersAreElsewhere(stores, start, log, from, f, 0);
    SlotIsLeftAlone(slots, stores, f % CAPACITY, 0, steps);
    assert Load(slots, f) == Some(log[f - start]);
  }

  lemma {:induction false} SlotOfNewFrame(slots: seq<Slot>, stores: seq<Entry>, start: nat, log: seq<Stereo>,
                                          from: nat, f: nat, steps: nat)
    requires |slots| == CAPACITY && steps <= 3 * |stores| && GapFree(stores, start, log, from)
    requires from <= f < from + |stores| <= f + CAPACITY && 3 * (f - from) + 3 <= steps
    ensures RingAfter(slots, stores, steps)[f % CAPACITY] == Slot(f + 1, log[f - start])
  {
    var i, c := f - from, f % CAPACITY;
    OthersAreElsewhere(stores, start, log, from, f, i + 1);
    StoreCompletes(slots, stores, i, c);
    SlotIsLeftAlone(slots, stores, c, i + 1, steps);
  }

  lemma {:induction false} SlotOfFrame(slots: seq<Slot>, stores: seq<Entry>, start: nat, log: seq<Stereo>, from: nat,
                                       f: nat, steps: nat)
    requires |slots| == CAPACITY && steps <= 3 * |stores|
    requires GapFree(stores, start, log, from) && Retains(slots, start, log, from)
    requires start <= f < from + steps / 3 && from + |stores| <= f + CAPACITY
    ensures RingAfter(slots, stores, steps)[f % CAPACITY] == Slot(f + 1, log[f - start])
  {
    if f < from {
      SlotOfOldFrame(slots, stores, start, log, from, f, steps);
    } else {
      SlotOfNewFrame(slots, stores, start, log, from, f, steps);
    }
  }

  /**
   Main result: a load of a frame that was published before the load began, and that the writer does not reach
   with its next lap before the load ends, succeeds.
   */
  lemma {:induction false} ConcurrentLoadSucceeds(slots: seq<Slot>, stores: seq<Entry>, start: nat, log: seq<Stereo>,
                                                  from: nat, f: nat, t1: nat, t2: nat, t3: nat)
    requires |slots| == CAPACITY && t1 <= t2 <= t3 <= 3 * |stores|
    requires GapFree(stores, start, log, from) && Retains(slots, start, log, from)
    requires start <= f < from + t1 / 3 && from + |stores| <= f + CAPACITY
    ensures ConcurrentLoad(slots, stores, f, t1, t2, t3) == Some(log[f - start])
  {
    SlotOfFrame(slots, stores, start, log, from, f, t1);
    SlotOfFrame(slots, stores, start, log, from, f, t2);
    SlotOfFrame(slots, stores, start, log, from, f, t3);
  }
}
