/**
 Which error a failed open reports. What can go wrong arrives as an event of the connection or as a reply, in any
 order and at any moment; the first of these decides.
 */
module ReaderErrors {
  import opened Types
  import opened SharedAudio
  import opened ReaderConnection

  // ---- What can go wrong, in the words of the protocol ----

  /** The broker said that another reader is connected. */
  predicate SaysBusy(step: Step) {
    step.ReplyArrives? && step.reply.Refused? && step.reply.error == 16
  }

  /** The broker refused for any other reason, or one side's signature was not accepted. */
  predicate SaysDenied(step: Step) {
    || (step.ReplyArrives? && step.reply.Refused? && step.reply.error != 16)
    || (step.ReplyArrives? && step.reply.ErrorReply? && step.reply.signing)
    || (step.EventArrives? && step.signing)
  }

  /** The connection broke. */
  predicate Breaks(step: Step) {
    || (step.ReplyArrives? && step.reply.ErrorReply? && !step.reply.signing)
    || (step.EventArrives? && !step.signing)
  }

  /** The reply makes no sense, or brings no memory that maps to a valid ring. */
  predicate Garbles(step: Step) {
    && step.ReplyArrives?
    && (step.reply.NotADictionary? || step.reply.OtherOp?
        || (step.reply.Grant? && (step.reply.memory == None || !IsValid(step.reply.memory.value))))
  }

  predicate Fails(step: Step) {
    SaysBusy(step) || SaysDenied(step) || Breaks(step) || Garbles(step)
  }

  /** The error that names what went wrong. */
  predicate Names(e: Errno, step: Step) {
    && (e == 16 <==> SaysBusy(step))
    && (e == 13 <==> SaysDenied(step))
    && (e == 54 <==> Breaks(step))
    && (e == 100 <==> Garbles(step))
    && (e == 16 || e == 13 || e == 54 || e == 100)
  }

  // ---- The handlers tell them apart ----

  /** What is on its way to be stored for this failure. */
  predicate Pending(queue: Queue, e: Errno) {
    match queue
    case Event(error) => error == e
    case ReadingClosed(reply) => ReplyError(reply) == e
    case ReadingAlive(reply) => ReplyError(reply) == e
    case StoringAudio(reply) => ReplyError(reply) == e
    case StoringError(error, _) => error == e
    case _ => false
  }

  /** A handler that has yet to look whether the connection is closed, or has nothing to store. */
  predicate AboutToLook(queue: Queue) {
    queue.Quiet? || queue.Event? || queue.ReadingClosed? || queue.Releasing?
  }

  /** Nothing is on its way to be stored. */
  predicate Harmless(queue: Queue) {
    match queue
    case ReadingClosed(reply) => ReplyError(reply) == 0
    case ReadingAlive(reply) => ReplyError(reply) == 0
    case StoringAudio(reply) => ReplyError(reply) == 0
    case Succeeding => true
    case Releasing => true
    case Quiet => true
    case _ => false
  }

  /** No failure so far. */
  predicate Unharmed(s: State) {
    s.shared.error == 0 && Harmless(s.queue)
  }

  /** The failure named e came first: it is stored, or on its way, or the connection was closed before it. */
  predicate DecidedFor(s: State, e: Errno) {
    && e != 0
    && (|| s.shared.error == e
        || (s.shared.error == 0 && (Pending(s.queue, e) || (s.shared.closed && AboutToLook(s.queue)))))
  }

  /** The error an arriving failure brings. */
  function Brings(step: Step): (e: Errno)
    ensures e != 0 <==> Fails(step)
    ensures e != 0 ==> Names(e, step)
  {
    match step
    case EventArrives(signing) => ConnectionError(signing)
    case ReplyArrives(reply) => ReplyError(reply)
    case _ => 0
  }

  lemma {:induction false} UnharmedStays(s: State, step: Step)
    requires Inv(s) && Possible(s, step) && Unharmed(s)
    ensures if Fails(step) then DecidedFor(Next(s, step), Brings(step)) else Unharmed(Next(s, step))
  {
  }

  lemma {:induction false} DecisionStays(s: State, step: Step, e: Errno)
    requires Inv(s) && Possible(s, step) && DecidedFor(s, e)
    ensures DecidedFor(Next(s, step), e)
  {
  }

  /** The first failure among the first i steps. */
  predicate FirstFailure(steps: seq<Step>, i: nat, k: nat) {
    k < i <= |steps| && Fails(steps[k]) && forall m | 0 <= m < k :: !Fails(steps[m])
  }

  predicate NoFailure(steps: seq<Step>, i: nat) {
    i <= |steps| && forall m | 0 <= m < i :: !Fails(steps[m])
  }

  lemma {:induction false} RunUnharmed(trace: seq<State>, steps: seq<Step>, i: nat)
    requires Run(trace, steps) && NoFailure(steps, i)
    ensures Unharmed(trace[i])
  {
    if i > 0 {
      RunUnharmed(trace, steps, i - 1);
      RunKeepsInv(trace, steps, i - 1);
      UnharmedStays(trace[i - 1], steps[i - 1]);
    }
  }

  lemma {:induction false} RunDecidedFor(trace: seq<State>, steps: seq<Step>, k: nat, i: nat)
    requires Run(trace, steps) && FirstFailure(steps, i, k)
    ensures DecidedFor(trace[i], Brings(steps[k]))
  {
    RunKeepsInv(trace, steps, i - 1);
    if k == i - 1 {
      RunUnharmed(trace, steps, k);
      UnharmedStays(trace[k], steps[k]);
    } else {
      RunDecidedFor(trace, steps, k, i - 1);
      DecisionStays(trace[i - 1], steps[i - 1], Brings(steps[k]));
    }
  }

  lemma {:induction false} FirstOf(steps: seq<Step>, i: nat) returns (k: nat)
    requires i <= |steps| && !NoFailure(steps, i)
    ensures FirstFailure(steps, i, k)
  {
    if NoFailure(steps, i - 1) {
      k := i - 1;
    } else {
      k := FirstOf(steps, i - 1);
    }
  }

  /**
   Main result: an open that fails without having timed out was failed by something that arrived, and the error
   it reports names the first of these: EBUSY for a refusal because of another reader, EACCES for any other
   refusal or a signature, ECONNRESET for a broken connection, and EPROTO for a reply that is of no use.
   */
  lemma {:induction false} FirstFailureNamesError(trace: seq<State>, steps: seq<Step>, i: nat, e: Errno)
    returns (k: nat)
    requires Run(trace, steps) && i <= |steps| && Failing(trace[i], e) && !TimedOut(steps, i)
    ensures FirstFailure(steps, i, k) && Names(e, steps[k])
  {
    FailureHasItsError(trace, steps, i, e);
    if NoFailure(steps, i) {
      RunUnharmed(trace, steps, i);
      assert false;
    }
    k := FirstOf(steps, i);
    RunDecidedFor(trace, steps, k, i);
  }

  /** An open that fails after its time has run out reports ETIMEDOUT, whatever else has arrived. */
  lemma {:induction false} TimeoutIsReported(trace: seq<State>, steps: seq<Step>, i: nat, e: Errno)
    requires Run(trace, steps) && i <= |steps| && Failing(trace[i], e) && TimedOut(steps, i)
    ensures e == 60
  {
    FailureHasItsError(trace, steps, i, e);
  }

  // ---- Failures before the connection is used, and success ----

  /** How an open that is given up early stands to the steps taken. */
  predicate AbortsFor(s: State, made: bool, accepted: bool) {
    match s.opener
    case Aborted(e) => (e == 61 && !made) || (e == 13 && made && !accepted)
    case ReleasingSelf => !made
    case _ => made && accepted
  }

  /** No connection could not be created, and no requirement was not accepted, among the first i steps. */
  predicate Made(steps: seq<Step>, i: nat)
    requires i <= |steps|
  {
    forall k | 0 <= k < i :: steps[k] != CreateConnection(false)
  }

  predicate Accepted(steps: seq<Step>, i: nat)
    requires i <= |steps|
  {
    forall k | 0 <= k < i :: steps[k] != SetRequirement(false)
  }

  lemma {:induction false} AbortStep(s: State, step: Step, made: bool, accepted: bool)
    requires Possible(s, step) && AbortsFor(s, made, accepted)
    ensures AbortsFor(Next(s, step), made && step != CreateConnection(false), accepted && step != SetRequirement(false))
  {
  }

  /** An open given up early reports ECONNREFUSED for want of a connection and EACCES for want of its requirement. */
  lemma {:induction false} AbortNamesError(trace: seq<State>, steps: seq<Step>, i: nat)
    requires Run(trace, steps) && i <= |steps|
    ensures AbortsFor(trace[i], Made(steps, i), Accepted(steps, i))
  {
    if i > 0 {
      AbortNamesError(trace, steps, i - 1);
      AbortStep(trace[i - 1], steps[i - 1], Made(steps, i - 1), Accepted(steps, i - 1));
      assert Made(steps, i) <==> Made(steps, i - 1) && steps[i - 1] != CreateConnection(false);
      assert Accepted(steps, i) <==> Accepted(steps, i - 1) && steps[i - 1] != SetRequirement(false);
    }
  }

  /**
   A connection still alive that gets a grant of a valid ring is open after the handler, one signal later, and has
   that ring.
   */
  lemma {:induction false} GrantOpens(s: State, ring: Ring) returns (open: State)
    requires Inv(s) && s.opener.Waiting? && s.shared.alive && !s.shared.closed && !s.destroying
    requires s.queue == ReadingClosed(Grant(Some(ring))) && IsValid(ring)
    ensures var handled := Uninterrupted(s);
            && Enabled(handled, Wake) && Possible(handled, Wake) && Possible(Next(handled, Wake), CheckAlive)
            && open == Next(Next(handled, Wake), CheckAlive)
    ensures open.opener == Returned(None) && open.shared.audio == Some(ring) && open.shared.error == s.shared.error
  {
    var s1 := HandleNext(s);
    var s2 := HandleNext(s1);
    var s3 := HandleNext(s2);
    var s4 := HandleNext(s3);
    var s5 := HandleNext(s4);
    assert Uninterrupted(s) == Uninterrupted(s1) == Uninterrupted(s2) == Uninterrupted(s3) == Uninterrupted(s4);
    assert s5.queue.Quiet? && !s5.destroying;
    assert Uninterrupted(s4) == Uninterrupted(s5) == s5;
    open := Next(Next(s5, Wake), CheckAlive);
  }

  // ---- After closing ----

  /** The thread has closed the connection, after a failed open or on request. */
  predicate GivenUp(s: State) {
    s.opener.Cancelling? || s.opener.Finished? || (s.opener.Returned? && s.opener.result.Some?)
  }

  /**
   A connection that has been closed is dead for good, so that no handler that starts later touches anything but
   its reference.
   */
  lemma {:induction false} ClosedIsDead(trace: seq<State>, steps: seq<Step>, i: nat)
    requires Run(trace, steps) && i <= |steps|
    ensures GivenUp(trace[i]) ==> trace[i].shared.closed && !trace[i].shared.alive
  {
    if i > 0 {
      ClosedIsDead(trace, steps, i - 1);
      RunKeepsInv(trace, steps, i - 1);
      StepKeepsDead(trace[i - 1], steps[i - 1]);
    }
  }

  lemma {:induction false} StepKeepsDead(s: State, step: Step)
    requires Inv(s) && Possible(s, step) && (GivenUp(s) ==> s.shared.closed && !s.shared.alive)
    ensures GivenUp(Next(s, step)) ==> Next(s, step).shared.closed && !Next(s, step).shared.alive
  {
  }
}
