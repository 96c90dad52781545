/**
 When a reader keeps its place in a stream and when it gives it up, for whatever the shared loads return.
 */
module Synchronization {
  import opened Types
  import opened SharedAudio
  import opened Reader
  import opened LogRefinement

  /** The view of the same call when nothing changes at its end. */
  function Undisturbed(view: View): View {
    view.(epochAfter := view.streamEpoch, activeAfter := true)
  }

  /**
   Main result: a call that renders has seen a valid ring, the writer active and one and the same epoch, before its
   first frame and after its last. It leaves the reader synchronised to that epoch and counts no underrun.
   */
  lemma {:induction false} RenderedMeansUsable(state: ReaderState, view: View, n: nat)
    requires state.readFrame >= 0.0 && state.targetLatencyFrames > 0
    requires ReadOutcome(state, view, n).rendered > 0
    ensures n > 0 && view.valid && view.writerActive && view.activeAfter && view.epochAfter == view.streamEpoch
    ensures var after := ReadOutcome(state, view, n).state;
            && after.synchronized && after.streamEpoch == view.streamEpoch
            && after.underrunCount == state.underrunCount
            && after.resyncCount == state.resyncCount
                                    + if state.synchronized && state.streamEpoch == view.streamEpoch then 0 else 1
  {
  }

  /** A call either renders everything it was asked for or puts out zeros. */
  lemma {:induction false} AllOrZeros(state: ReaderState, view: View, n: nat, j: nat)
    requires state.readFrame >= 0.0 && (view.valid ==> state.targetLatencyFrames > 0) && j < n
    ensures var outcome := ReadOutcome(state, view, n);
            && |outcome.frames| == n
            && (outcome.rendered == n || (outcome.rendered == 0 && outcome.frames[j] == Stereo(0.0, 0.0)))
  {
  }

  /** A call without frames, or on a ring that is not valid, changes nothing. */
  lemma {:induction false} IdleCallsChangeNothing(state: ReaderState, view: View, n: nat)
    requires state.readFrame >= 0.0 && (view.valid ==> state.targetLatencyFrames > 0)
    requires n == 0 || !view.valid
    ensures ReadOutcome(state, view, n) == Outcome(state, 0, Silence(n))
  {
  }

  /** A call that finds the writer stopped gives up the place, and only that, so that the next one joins anew. */
  lemma {:induction false} StoppedWriterEndsPlace(state: ReaderState, view: View, n: nat)
    requires state.readFrame >= 0.0 && state.targetLatencyFrames > 0
    requires n > 0 && view.valid && !view.writerActive
    ensures ReadOutcome(state, view, n) == Outcome(state.(synchronized := false), 0, Silence(n))
  {
  }

  /**
   Main result: a call during which the writer stops or begins a new stream puts out silence instead of what it
   would have rendered, and gives up the place it would have reached.
   */
  lemma {:induction false} ChangeSilences(state: ReaderState, view: View, n: nat)
    requires state.readFrame >= 0.0 && state.targetLatencyFrames > 0
    requires view.epochAfter != view.streamEpoch || !view.activeAfter
    requires ReadOutcome(state, Undisturbed(view), n).rendered > 0
    ensures ReadOutcome(state, view, n) ==
            Outcome(ReadOutcome(state, Undisturbed(view), n).state.(synchronized := false), 0, Silence(n))
  {
    assert Resynchronized(state, view) == Resynchronized(state, Undisturbed(view));
  }

  /**
   Main result: a call that sees a new epoch follows it at once. Either it joins the new stream, or it is silent
   and has no place any more; the place in the old stream is never used again.
   */
  lemma {:induction false} NewEpochIsFollowed(state: ReaderState, view: View, n: nat)
    requires state.readFrame >= 0.0 && state.targetLatencyFrames > 0
    requires n > 0 && view.valid && view.writerActive && view.streamEpoch != state.streamEpoch
    ensures var outcome := ReadOutcome(state, view, n);
            && outcome.state.streamEpoch == view.streamEpoch
            && (if view.streamStart + state.targetLatencyFrames <= view.writeFrame
                then && outcome.state.resyncCount == state.resyncCount + 1
                     && outcome == PlayFrom(ReaderState((view.writeFrame - state.targetLatencyFrames) as real,
                                                        view.streamEpoch, state.underrunCount, state.resyncCount + 1,
                                                        state.targetLatencyFrames, true), view, n)
                else outcome == Outcome(state.(streamEpoch := view.streamEpoch, synchronized := false), 0, Silence(n)))
  {
  }

  /** What a call needs: the frames it steps over, one to interpolate with, and one to spare. */
  lemma {:induction false} NeedsTwoMore(n: nat, ratio: real, available: nat, steps: real)
    requires steps == n as real * ratio
    ensures Required(n, ratio) <= available <==> steps <= (available - 2) as real
  {
  }

  /** A synchronised reader that has not been lapped. */
  predicate InPlace(state: ReaderState, view: View) {
    && view.valid && view.writerActive && state.synchronized && view.streamEpoch == state.streamEpoch
    && state.readFrame >= 0.0 && state.targetLatencyFrames > 0
    && view.streamStart + state.targetLatencyFrames <= view.writeFrame
    && 0 <= view.writeFrame - state.readFrame.Floor < CAPACITY - 2
  }

  /** Asking for more than is there counts an underrun, keeps the place and moves nothing. */
  lemma {:induction false} UnderrunKeepsPlace(state: ReaderState, view: View, n: nat, ratio: real, steps: real)
    requires InPlace(state, view) && n > 0 && steps == n as real * ratio
    requires ratio == Ratio(view.writeFrame - state.readFrame.Floor, state.targetLatencyFrames)
    requires steps > (view.writeFrame - state.readFrame.Floor - 2) as real
    ensures ReadOutcome(state, view, n) == Outcome(state.(underrunCount := state.underrunCount + 1), 0, Silence(n))
  {
    NeedsTwoMore(n, ratio, view.writeFrame - state.readFrame.Floor, steps);
    assert Resynchronized(state, view) == state;
  }

  /** Asking for no more than is there renders, when the loads succeed and nothing changes meanwhile. */
  lemma {:induction false} EnoughRenders(state: ReaderState, view: View, n: nat, ratio: real, steps: real)
    requires InPlace(state, view) && n > 0 && steps == n as real * ratio
    requires ratio == Ratio(view.writeFrame - state.readFrame.Floor, state.targetLatencyFrames)
    requires steps <= (view.writeFrame - state.readFrame.Floor - 2) as real
    requires Loadable(view.load, state.readFrame, ratio, n) == n && view == Undisturbed(view)
    ensures ReadOutcome(state, view, n).rendered == n
  {
    NeedsTwoMore(n, ratio, view.writeFrame - state.readFrame.Floor, steps);
    assert Resynchronized(state, view) == state;
    CompletePlay(state, view, n, ratio);
  }
}
