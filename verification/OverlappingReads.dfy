/** Calls that run between the steps of the writer: of a gap-free stream, and of one that is reset meanwhile. */
module OverlappingReads {
  import opened Types
  import opened SharedAudio
  import opened RingHistory
  import opened SlotInterleaving
  import opened Reader
  import opened LogRefinement

  // ---- A gap-free writer ----

  /** Each load of the call was made at some moments of the writer's progress, none before `low` steps. */
  ghost predicate Observed(load: (nat, nat) -> Option<Stereo>, slots: seq<Slot>, stores: seq<Entry>, low: nat)
    requires |slots| == CAPACITY
  {
    forall k: nat, f: nat :: ObservedLoad(load(k, f), slots, stores, f, low)
  }

  ghost predicate ObservedLoad(result: Option<Stereo>, slots: seq<Slot>, stores: seq<Entry>, f: nat, low: nat)
    requires |slots| == CAPACITY
  {
    exists t1: nat, t2: nat, t3: nat :: low <= t1 <= t2 <= t3 <= 3 * |stores|
      && result == ConcurrentLoad(slots, stores, f, t1, t2, t3)
  }

  lemma {:induction false} ObservedLoadsAreLogged(load: (nat, nat) -> Option<Stereo>, slots: seq<Slot>,
                                                  stores: seq<Entry>, start: nat, log: seq<Stereo>, from: nat,
                                                  low: nat, k: nat, f: nat)
    requires |slots| == CAPACITY && Observed(load, slots, stores, low)
    requires GapFree(stores, start, log, from) && FromLog(slots, start, log, from)
    requires load(k, f).Some?
    ensures start <= f < start + |log| && load(k, f) == Some(log[f - start])
  {
    assert ObservedLoad(load(k, f), slots, stores, f, low);
    var t1: nat, t2: nat, t3: nat :| low <= t1 <= t2 <= t3 <= 3 * |stores|
      && load(k, f) == ConcurrentLoad(slots, stores, f, t1, t2, t3);
    ConcurrentLoadIsLogged(slots, stores, start, log, from, f, t1, t2, t3);
  }

  lemma {:induction false} RenderedCall(ready: ReaderState, view: View, n: nat)
    requires ready.readFrame >= 0.0 && ready.targetLatencyFrames > 0
    requires PlayFrom(ready, view, n).rendered > 0
    ensures var ratio := Ratio(Max(0, view.writeFrame - ready.readFrame.Floor), ready.targetLatencyFrames);
            && |PlayFrom(ready, view, n).frames| == n
            && forall j | 0 <= j < n ::
                 FrameAt(view.load, j, PositionAfter(ready.readFrame, ratio, j)) ==
                 Some(PlayFrom(ready, view, n).frames[j])
  {
  }

  lemma {:induction false} ObservedFrameIsLogged(load: (nat, nat) -> Option<Stereo>, slots: seq<Slot>,
                                                 stores: seq<Entry>, start: nat, log: seq<Stereo>, from: nat,
                                                 low: nat, j: nat, p: real)
    requires |slots| == CAPACITY && Observed(load, slots, stores, low)
    requires GapFree(stores, start, log, from) && FromLog(slots, start, log, from)
    requires p >= 0.0 && FrameAt(load, j, p).Some?
    ensures start as real <= p && p.Floor + 1 < start + |log| && FrameAt(load, j, p) == Some(LogAt(start, log, p))
  {
    ObservedLoadsAreLogged(load, slots, stores, start, log, from, low, 2 * j, p.Floor);
    ObservedLoadsAreLogged(load, slots, stores, start, log, from, low, 2 * j + 1, p.Floor + 1);
  }

  /**
   Main result for overlapping calls: whatever header values the call saw and whenever its loads were made
   while a gap-free writer stored frames, a rendered call contains only interpolations of the log.
   */
  lemma {:induction false} ConcurrentReadFollowsLog(state: ReaderState, view: View, n: nat, slots: seq<Slot>,
                                                    stores: seq<Entry>, start: nat, log: seq<Stereo>, from: nat,
                                                    low: nat)
    requires state.readFrame >= 0.0 && state.targetLatencyFrames > 0
    requires |slots| == CAPACITY && Observed(view.load, slots, stores, low)
    requires GapFree(stores, start, log, from) && FromLog(slots, start, log, from)
    requires ReadOutcome(state, view, n).rendered > 0
    ensures view.streamStart + state.targetLatencyFrames <= view.writeFrame
    ensures PlayedFrom(Resynchronized(state, view), view.writeFrame, start, log, ReadOutcome(state, view, n).frames)
  {
    ConcurrentPlayFollowsLog(Resynchronized(state, view), view, n, slots, stores, start, log, from, low);
  }

  lemma {:induction false} ConcurrentPlayFollowsLog(ready: ReaderState, view: View, n: nat, slots: seq<Slot>,
                                                    stores: seq<Entry>, start: nat, log: seq<Stereo>, from: nat,
                                                    low: nat)
    requires ready.readFrame >= 0.0 && ready.targetLatencyFrames > 0
    requires |slots| == CAPACITY && Observed(view.load, slots, stores, low)
    requires GapFree(stores, start, log, from) && FromLog(slots, start, log, from)
    requires PlayFrom(ready, view, n).rendered > 0
    ensures PlayedFrom(ready, view.writeFrame, start, log, PlayFrom(ready, view, n).frames)
  {
    var ratio := Ratio(Max(0, view.writeFrame - ready.readFrame.Floor), ready.targetLatencyFrames);
    RenderedCall(ready, view, n);
    forall j | 0 <= j < n
      ensures var p := PositionAfter(ready.readFrame, ratio, j);
              && start as real <= p && p.Floor + 1 < start + |log|
              && PlayFrom(ready, view, n).frames[j] == LogAt(start, log, p)
    {
      ObservedFrameIsLogged(view.load, slots, stores, start, log, from, low, j,
                            PositionAfter(ready.readFrame, ratio, j));
    }
  }

  /** Loads of published frames that the writer does not lap meanwhile all succeed. */
  lemma {:induction false} ObservedLoadsSucceed(load: (nat, nat) -> Option<Stereo>, slots: seq<Slot>,
                                                stores: seq<Entry>, start: nat, log: seq<Stereo>, from: nat,
                                                published: nat, position: nat)
    requires |slots| == CAPACITY && GapFree(stores, start, log, from) && Retains(slots, start, log, from)
    requires from <= published <= from + |stores| <= position + CAPACITY
    requires Observed(load, slots, stores, 3 * (published - from))
    ensures AgreesOn(load, start, log[..published - start], position)
  {
    forall k: nat, f: nat | start <= f < published && position <= f
      ensures load(k, f) == Some(log[f - start])
    {
      assert ObservedLoad(load(k, f), slots, stores, f, 3 * (published - from));
      var t1: nat, t2: nat, t3: nat :| 3 * (published - from) <= t1 <= t2 <= t3 <= 3 * |stores|
        && load(k, f) == ConcurrentLoad(slots, stores, f, t1, t2, t3);
      ConcurrentLoadSucceeds(slots, stores, start, log, from, f, t1, t2, t3);
    }
  }

  /**
   Main result: as long as the latency plus the frames stored during the call stay within a lap, a call that
   overlaps a gap-free writer does what it would do on the log published when it read the header. No load
   fails, so it is silent only for the reasons a call at rest is.
   */
  lemma {:induction false} ConcurrentReadPlaysLog(state: ReaderState, view: View, n: nat, slots: seq<Slot>,
                                                  stores: seq<Entry>, start: nat, log: seq<Stereo>, from: nat)
    requires |slots| == CAPACITY && GapFree(stores, start, log, from) && Retains(slots, start, log, from)
    requires view.valid && view.writerActive && view.activeAfter && view.epochAfter == view.streamEpoch
    requires view.streamStart == start && from <= view.writeFrame <= from + |stores|
    requires Observed(view.load, slots, stores, 3 * (view.writeFrame - from))
    requires n > 0 && Follows(state, view.streamEpoch, start)
    requires start + state.targetLatencyFrames <= view.writeFrame
    requires from + |stores| <= Resynchronized(state, view).readFrame.Floor + CAPACITY
    ensures start as real <= Resynchronized(state, view).readFrame
    ensures PlaysLog(Resynchronized(state, view), start, log[..view.writeFrame - start], n, ReadOutcome(state, view, n))
  {
    var ready := Resynchronized(state, view);
    ObservedLoadsSucceed(view.load, slots, stores, start, log, from, view.writeFrame, ready.readFrame.Floor);
    PlayFromLog(ready, view, start, log[..view.writeFrame - start], n);
  }

  // ---- The call of one period ----

  /** The view of a call made while the driver captures a block as the next frames of the ring. */
  ghost predicate Overlaps(view: View, ring: Ring, block: seq<Stereo>)
    requires |ring.slots| == CAPACITY
  {
    && view.valid && view.writerActive && view.activeAfter
    && view.streamEpoch == view.epochAfter == ring.streamEpoch
    && view.writeFrame == ring.writeFrame && view.streamStart == ring.streamStart
    && Observed(view.load, ring.slots, Published(ring.writeFrame, block), 0)
  }

  /** The block does not lap the call: latency and block together stay within a lap. */
  ghost predicate Spares(state: ReaderState, ring: Ring, block: seq<Stereo>)
    requires |ring.slots| == CAPACITY
  {
    ring.streamStart + state.targetLatencyFrames <= ring.writeFrame ==>
      ring.writeFrame + |block| <= Resynchronized(state, AtomicView(ring)).readFrame.Floor + CAPACITY
  }

  /** A reader of a gap-free stream calls while the next block is being captured. */
  ghost predicate ReadsDuring(state: ReaderState, view: View, ring: Ring, log: seq<Stereo>, block: seq<Stereo>) {
    && Backs(ring, log) && Follows(state, ring.streamEpoch, ring.streamStart)
    && Overlaps(view, ring, block) && Spares(state, ring, block)
  }

  /** A ring at rest is the case of an empty block. */
  lemma {:induction false} RestOverlaps(ring: Ring, log: seq<Stereo>)
    requires Backs(ring, log)
    ensures Overlaps(AtomicView(ring), ring, [])
  {
    forall k: nat, f: nat
      ensures ObservedLoad(AtomicView(ring).load(k, f), ring.slots, Published(ring.writeFrame, []), f, 0)
    {
      assert AtomicView(ring).load(k, f) == ConcurrentLoad(ring.slots, Published(ring.writeFrame, []), f, 0, 0, 0);
    }
  }

  /** Main result: a call that overlaps the capture of the next block has the outcome of the same call before it. */
  lemma {:induction false} OverlappedReadIsRead(state: ReaderState, view: View, ring: Ring, log: seq<Stereo>,
                                                block: seq<Stereo>, n: nat)
    requires ReadsDuring(state, view, ring, log, block)
    ensures ReadOutcome(state, view, n) == ReadOutcome(state, AtomicView(ring), n)
    ensures ring.streamStart + state.targetLatencyFrames <= ring.writeFrame ==>
              Resynchronized(state, view) == Resynchronized(state, AtomicView(ring))
  {
    if n > 0 && |log| >= state.targetLatencyFrames {
      var start, ready := ring.streamStart, Resynchronized(state, AtomicView(ring));
      assert ready == Resynchronized(state, view);
      assert (log + block)[..|log|] == log;
      ConcurrentReadPlaysLog(state, view, n, ring.slots, Published(ring.writeFrame, block), start, log + block,
                             ring.writeFrame);
      ReadRefinesLog(state, ring, log, n);
      PlaysLogDetermines(ready, start, log, n, ReadOutcome(state, view, n), ReadOutcome(state, AtomicView(ring), n));
    }
  }
}
