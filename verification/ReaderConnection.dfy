/**
 The life of a reader connection in common/SecureAudioReader.c.

 The thread that opens, and later closes, the connection runs beside the connection's serial queue with its
 event and reply handlers, and beside the finalizer that XPC calls. Each step below is one access to the
 shared object; any interleaving of the three is a run.
 */
module ReaderConnection {
  import opened Types
  import opened SharedAudio

  type Errno = int

  const EACCES: Errno := 13
  const EBUSY: Errno := 16
  const ECONNRESET: Errno := 54
  const ETIMEDOUT: Errno := 60
  const ECONNREFUSED: Errno := 61
  const EPROTO: Errno := 100

  /** The shared object; `signals` is the semaphore's count, `freed` and `unmapped` count releases. */
  datatype Object = Object(
    references: nat,
    alive: bool,
    closed: bool,
    error: Errno,
    audio: Option<Ring>,
    signals: nat,
    freed: nat,
    unmapped: nat)

  /** What a reply can be; a grant brings the memory it could map, if any. */
  datatype Reply =
    | ErrorReply(signing: bool)
    | NotADictionary
    | Refused(error: int)
    | OtherOp
    | Grant(memory: Option<Ring>)

  /** Mapping succeeds only for a valid ring. */
  function Mapped(memory: Option<Ring>): (audio: Option<Ring>)
    ensures audio.Some? ==> IsValid(audio.value)
  {
    if memory.Some? && IsValid(memory.value) then memory else None
  }

  function ConnectionError(signing: bool): Errno {
    if signing then EACCES else ECONNRESET
  }

  /** The error a reply fails the connection with; a grant fails it only when nothing was mapped. */
  function ReplyError(reply: Reply): (e: Errno)
    ensures e == 0 <==> reply.Grant? && Mapped(reply.memory).Some?
  {
    match reply
    case ErrorReply(signing) => ConnectionError(signing)
    case NotADictionary => EPROTO
    case Refused(error) => if error == EBUSY then EBUSY else EACCES
    case OtherOp => EPROTO
    case Grant(memory) => if Mapped(memory) == None then EPROTO else 0
  }

  /** Where the opening thread stands. */
  datatype Opener =
    | Created
    | ReleasingSelf                       // no connection
    | Configured
    | Active                              // about to add the reply's reference
    | Sending
    | Waiting
    | Checking                            // woken up, about to read `alive`
    | ReadingError
    | StoringClosed(result: Option<Errno>)  // closing after a failed open, or on request
    | StoringDead(result: Option<Errno>)
    | Cancelling(result: Option<Errno>)
    | Returned(result: Option<Errno>)     // None: the connection is open
    | Aborted(error: Errno)               // failed before the connection was activated
    | Finished

  /** Where the connection's queue stands. */
  datatype Queue =
    | Quiet
    | Event(error: Errno)                 // about to read `closed`
    | ReadingClosed(reply: Reply)
    | ReadingAlive(reply: Reply)
    | StoringAudio(reply: Reply)
    | Succeeding                          // about to signal
    | StoringError(error: Errno, replied: bool)
    | StoringAlive(replied: bool)
    | Signalling(replied: bool)
    | Releasing

  datatype ReplyState = NotSent | Expected | Handling | Handled

  datatype State = State(
    shared: Object,
    opener: Opener,
    queue: Queue,
    reply: ReplyState,
    released: bool,     // the thread has given up the connection
    finalized: bool,    // the finalizer's reference is gone
    destroying: bool)   // some release has seen the last reference

  datatype Step =
    | CreateConnection(made: bool)
    | ReleaseSelf
    | SetRequirement(accepted: bool)
    | AddReference
    | SendRequest
    | Wake
    | Timeout
    | CheckAlive
    | ReadError
    | UserCloses
    | StoreClosed
    | StoreDead
    | CancelAndRelease
    | EventArrives(signing: bool)
    | ReplyArrives(reply: Reply)
    | Handle                              // the queue's next step
    | Finalize
    | Destroy

  function Initial(): State {
    State(Object(1, true, false, 0, None, 0, 0, 0), Created, Quiet, NotSent, false, false, false)
  }

  predicate InEvent(queue: Queue) {
    match queue
    case Event(_) => true
    case StoringError(_, replied) => !replied
    case StoringAlive(replied) => !replied
    case Signalling(replied) => !replied
    case _ => false
  }

  predicate HasHandlers(opener: Opener) {
    !(opener.Created? || opener.ReleasingSelf? || opener.Configured? || opener.Aborted?)
  }

  predicate Enabled(s: State, step: Step) {
    match step
    case CreateConnection(_) => s.opener.Created?
    case ReleaseSelf => s.opener.ReleasingSelf?
    case SetRequirement(_) => s.opener.Configured?
    case AddReference => s.opener.Active?
    case SendRequest => s.opener.Sending?
    case Wake => s.opener.Waiting? && s.shared.signals > 0
    case Timeout => s.opener.Waiting?
    case CheckAlive => s.opener.Checking?
    case ReadError => s.opener.ReadingError?
    case UserCloses => s.opener == Returned(None)
    case StoreClosed => s.opener.StoringClosed?
    case StoreDead => s.opener.StoringDead?
    case CancelAndRelease => s.opener.Cancelling?
    case EventArrives(_) => HasHandlers(s.opener) && s.queue.Quiet? && !s.finalized
    case ReplyArrives(_) => s.reply.Expected? && s.queue.Quiet?
    case Handle => !s.queue.Quiet?
    case Finalize => s.released && !s.finalized && !InEvent(s.queue)
    case Destroy => s.destroying
  }

  /** ReleaseReader up to the decision. */
  function Release(s: State): State
    requires s.shared.references > 0
  {
    s.(shared := s.shared.(references := s.shared.references - 1),
       destroying := s.destroying || s.shared.references == 1)
  }

  /** After FailReader an event is done, a reply still has its reference to give up. */
  function AfterFailing(replied: bool): Queue {
    if replied then Releasing else Quiet
  }

  function HandleNext(s: State): State
    requires !s.queue.Quiet? && s.shared.references > 0
  {
    match s.queue
    case Event(error) => s.(queue := if s.shared.closed then Quiet else StoringError(error, false))
    case ReadingClosed(reply) => s.(queue := if s.shared.closed then Releasing else ReadingAlive(reply))
    case ReadingAlive(reply) =>
      s.(queue := if !s.shared.alive then Releasing
                  else if reply.Grant? then StoringAudio(reply)
                  else StoringError(ReplyError(reply), true))
    case StoringAudio(reply) =>
      s.(shared := s.shared.(audio := if reply.Grant? then Mapped(reply.memory) else None),
         queue := if ReplyError(reply) == 0 then Succeeding else StoringError(ReplyError(reply), true))
    case Succeeding => s.(shared := s.shared.(signals := s.shared.signals + 1), queue := Releasing)
    case StoringError(error, replied) =>
      s.(shared := s.shared.(error := if s.shared.error == 0 then error else s.shared.error),
         queue := StoringAlive(replied))
    case StoringAlive(replied) => s.(shared := s.shared.(alive := false), queue := Signalling(replied))
    case Signalling(replied) =>
      s.(shared := s.shared.(signals := s.shared.signals + 1), queue := AfterFailing(replied))
    case Releasing => Release(s).(queue := Quiet, reply := Handled)
  }

  /** The steps read or write the object, its connection field included, except for calls that only begin. */
  predicate Touches(s: State, step: Step) {
    match step
    case UserCloses => false
    case EventArrives(_) => false
    case ReplyArrives(_) => false
    case _ => true
  }

  function Next(s: State, step: Step): State
    requires Enabled(s, step)
    requires Touches(s, step) && !step.Destroy? ==> s.shared.references > 0
  {
    var shared := s.shared;
    match step
    case CreateConnection(made) => s.(opener := if made then Configured else ReleasingSelf)
    case ReleaseSelf => Release(s).(opener := Aborted(ECONNREFUSED), finalized := true)
    case SetRequirement(accepted) =>
      if accepted then s.(opener := Active) else s.(opener := Aborted(EACCES), released := true)
    case AddReference => s.(shared := shared.(references := shared.references + 1), opener := Sending)
    case SendRequest => s.(opener := Waiting, reply := Expected)
    case Wake => s.(shared := shared.(signals := shared.signals - 1), opener := Checking)
    case Timeout => s.(opener := StoringClosed(Some(ETIMEDOUT)))
    case CheckAlive => s.(opener := if shared.alive then Returned(None) else ReadingError)
    case ReadError => s.(opener := StoringClosed(Some(shared.error)))
    case UserCloses => s.(opener := StoringClosed(None))
    case StoreClosed => s.(shared := shared.(closed := true), opener := StoringDead(s.opener.result))
    case StoreDead => s.(shared := shared.(alive := false), opener := Cancelling(s.opener.result))
    case CancelAndRelease =>
      s.(released := true, opener := if s.opener.result == None then Finished else Returned(s.opener.result))
    case EventArrives(signing) => s.(queue := Event(ConnectionError(signing)))
    case ReplyArrives(reply) => s.(queue := ReadingClosed(reply), reply := Handling)
    case Handle => HandleNext(s)
    case Finalize => Release(s).(finalized := true)
    case Destroy =>
      s.(shared := shared.(freed := shared.freed + 1,
                           unmapped := shared.unmapped + if shared.audio.Some? then 1 else 0),
         destroying := false)
  }

  // ---- The invariant ----

  function Count(b: bool): nat {
    if b then 1 else 0
  }

  /** Two references: the finalizer's and, once added, the reply's. */
  predicate References(s: State) {
    && s.shared.references == Count(!s.finalized) + Count(s.opener.Sending? || s.reply.Expected? || s.reply.Handling?)
    && s.shared.freed + Count(s.destroying) == Count(s.shared.references == 0)
    && s.shared.unmapped == (if s.shared.audio.Some? then s.shared.freed else 0)
  }

  /** Where the three can be, given who has given up the object. */
  predicate Positions(s: State) {
    && (s.queue.Quiet? <==> !InEvent(s.queue) && !s.reply.Handling?)
    && (InEvent(s.queue) ==> !s.reply.Handling? && !s.finalized && HasHandlers(s.opener))
    && (s.reply.NotSent? <==> !HasHandlers(s.opener) || s.opener.Active? || s.opener.Sending?)
    && (s.released ==>
          s.opener.Finished? || s.opener == Aborted(EACCES) || (s.opener.Returned? && s.opener.result.Some?))
    && (s.opener.Finished? || (s.opener.Returned? && s.opener.result.Some?) ==> s.released)
    && (s.finalized ==> s.released || s.opener == Aborted(ECONNREFUSED))
    && (s.opener == Aborted(ECONNREFUSED) ==> s.finalized)
    && (s.opener.StoringDead? || s.opener.Cancelling? ==> s.shared.closed)
    && (s.shared.closed ==> s.opener.StoringDead? || s.opener.Cancelling? || s.released)
  }

  /** What the threads have told one another. */
  predicate Outcomes(s: State) {
    && (s.shared.audio.Some? ==> IsValid(s.shared.audio.value))
    // A dead connection has been closed or has an error, and only then, or with a mapping, is a signal sent.
    && (!s.shared.alive ==> s.shared.error != 0 || s.shared.closed)
    && (s.shared.signals > 0 || s.opener.Checking? ==> !s.shared.alive || s.shared.audio.Some?)
    && (s.opener == Returned(None) ==> s.shared.audio.Some?)
    && (s.opener.ReadingError? ==> !s.shared.alive)
    && (s.opener.StoringClosed? || s.opener.StoringDead? || s.opener.Cancelling? || s.opener.Returned? ==>
          s.opener.result != Some(0))
    && (s.opener.Aborted? ==> s.opener.error != 0)
    && (s.queue.StoringAudio? ==> s.queue.reply.Grant? && s.shared.audio == None)
    && (s.shared.audio.Some? ==> s.queue.Succeeding? || s.queue.Releasing? || s.reply.Handled?)
    && (s.queue.Succeeding? ==> s.shared.audio.Some?)
    && (s.queue.Event? || s.queue.StoringError? ==> s.queue.error != 0)
    && (s.queue.StoringAlive? ==> s.shared.error != 0)
    && (s.queue.Signalling? ==> !s.shared.alive)
  }

  predicate Inv(s: State) {
    References(s) && Positions(s) && Outcomes(s)
  }

  /** Whoever can take a step that touches the object holds a reference to it. */
  lemma {:induction false} StepsAreSafe(s: State, step: Step)
    requires Inv(s) && Enabled(s, step)
    ensures Touches(s, step) && !step.Destroy? ==> s.shared.references > 0 && s.shared.freed == 0
    ensures step.Destroy? ==> s.shared.freed == 0
  {
  }

  lemma {:induction false} OthersKeepReferences(s: State, step: Step)
    requires Inv(s) && Possible(s, step) && !step.Handle?
    ensures References(Next(s, step))
  {
  }

  lemma {:induction false} OthersKeepPositions(s: State, step: Step)
    requires Inv(s) && Possible(s, step) && !step.Handle?
    ensures Positions(Next(s, step))
  {
  }

  lemma {:induction false} ReleaseKeepsReferences(s: State)
    requires Inv(s) && s.queue.Releasing? && s.shared.references > 0
    ensures References(HandleNext(s))
  {
  }

  lemma {:induction false} HandlerKeepsReferences(s: State)
    requires Inv(s) && !s.queue.Quiet? && s.shared.references > 0
    ensures References(HandleNext(s))
  {
    if s.queue.Releasing? {
      ReleaseKeepsReferences(s);
    } else {
      var next := HandleNext(s);
      assert next.finalized == s.finalized && next.destroying == s.destroying && next.reply == s.reply;
      assert next.opener == s.opener && next.shared.references == s.shared.references;
      assert next.shared.freed == s.shared.freed == 0 && next.shared.unmapped == s.shared.unmapped;
    }
  }

  lemma {:induction false} HandlerKeepsPositions(s: State)
    requires Inv(s) && !s.queue.Quiet? && s.shared.references > 0
    ensures Positions(HandleNext(s))
  {
  }

  /** The steps by which the opening thread waits, decides and closes. */
  predicate Decides(step: Step) {
    step.Wake? || step.Timeout? || step.CheckAlive? || step.ReadError? || step.UserCloses? || step.StoreClosed?
    || step.StoreDead? || step.CancelAndRelease?
  }

  lemma {:induction false} OpenerKeepsOutcomes(s: State, step: Step)
    requires Inv(s) && Possible(s, step) && Decides(step)
    ensures Outcomes(Next(s, step))
  {
  }

  lemma {:induction false} OthersKeepOutcomes(s: State, step: Step)
    requires Inv(s) && Possible(s, step) && !step.Handle? && !Decides(step)
    ensures Outcomes(Next(s, step))
  {
  }

  lemma {:induction false} FailingKeepsOutcomes(s: State)
    requires Inv(s) && s.shared.references > 0
    requires s.queue.Event? || s.queue.StoringError? || s.queue.StoringAlive? || s.queue.Signalling?
    ensures Outcomes(HandleNext(s))
  {
  }

  lemma {:induction false} ReplyKeepsOutcomes(s: State)
    requires Inv(s) && s.shared.references > 0
    requires s.queue.ReadingClosed? || s.queue.ReadingAlive? || s.queue.StoringAudio? || s.queue.Succeeding?
             || s.queue.Releasing?
    ensures Outcomes(HandleNext(s))
  {
  }

  lemma {:induction false} StepKeepsInv(s: State, step: Step)
    requires Inv(s) && Enabled(s, step)
    ensures Touches(s, step) && !step.Destroy? ==> s.shared.references > 0
    ensures Inv(Next(s, step))
  {
    StepsAreSafe(s, step);
    if step.Handle? {
      HandlerKeepsReferences(s);
      HandlerKeepsPositions(s);
      if s.queue.Event? || s.queue.StoringError? || s.queue.StoringAlive? || s.queue.Signalling? {
        FailingKeepsOutcomes(s);
      } else {
        ReplyKeepsOutcomes(s);
      }
    } else {
      OthersKeepReferences(s, step);
      OthersKeepPositions(s, step);
      if Decides(step) {
        OpenerKeepsOutcomes(s, step);
      } else {
        OthersKeepOutcomes(s, step);
      }
    }
  }

  // ---- Runs ----

  /** A step is possible when it is enabled and the object it touches still has an owner. */
  predicate Possible(s: State, step: Step) {
    Enabled(s, step) && (Touches(s, step) && !step.Destroy? ==> s.shared.references > 0)
  }

  ghost predicate Run(trace: seq<State>, steps: seq<Step>) {
    && |trace| == |steps| + 1
    && trace[0] == Initial()
    && forall i | 0 <= i < |steps| :: Possible(trace[i], steps[i]) && trace[i + 1] == Next(trace[i], steps[i])
  }

  lemma {:induction false} RunKeepsInv(trace: seq<State>, steps: seq<Step>, i: nat)
    requires Run(trace, steps) && i <= |steps|
    ensures Inv(trace[i])
  {
    if i > 0 {
      RunKeepsInv(trace, steps, i - 1);
      StepKeepsInv(trace[i - 1], steps[i - 1]);
    }
  }

  /**
   Main result: no step of a run touches the object after it has been released, so every enabled step is
   possible.
   */
  lemma {:induction false} NoUseAfterRelease(trace: seq<State>, steps: seq<Step>, i: nat, step: Step)
    requires Run(trace, steps) && i <= |steps| && Enabled(trace[i], step)
    ensures Possible(trace[i], step)
    ensures Touches(trace[i], step) ==> trace[i].shared.freed == 0
  {
    RunKeepsInv(trace, steps, i);
    StepsAreSafe(trace[i], step);
  }

  /**
   Main result: the object, and the mapping if there is one, are released at most once, and, when nothing
   more is under way, exactly once, after both the finalizer and the reply handler.
   */
  lemma {:induction false} ReleasedOnce(trace: seq<State>, steps: seq<Step>, i: nat)
    requires Run(trace, steps) && i <= |steps|
    ensures var s := trace[i];
            && s.shared.freed <= 1
            && s.shared.unmapped == (if s.shared.audio.Some? then s.shared.freed else 0)
            && (s.shared.freed == 1 ==> s.finalized && (s.reply.NotSent? || s.reply.Handled?))
            && (s.finalized && (s.reply.NotSent? || s.reply.Handled?) && !s.destroying ==> s.shared.freed == 1)
  {
    RunKeepsInv(trace, steps, i);
  }

  /** Main result: an open connection has a mapped valid ring, and keeps it at least until it is closed. */
  lemma {:induction false} OpenMeansMapped(trace: seq<State>, steps: seq<Step>, i: nat)
    requires Run(trace, steps) && i <= |steps| && trace[i].opener == Returned(None)
    ensures var s := trace[i];
            s.shared.audio.Some? && IsValid(s.shared.audio.value) && s.shared.freed == 0 && s.shared.unmapped == 0
  {
    RunKeepsInv(trace, steps, i);
  }

  lemma {:induction false} StepKeepsError(s: State, step: Step)
    requires Possible(s, step) && s.shared.error != 0
    ensures Next(s, step).shared.error == s.shared.error
  {
  }

  lemma {:induction false} RunStepKeepsError(trace: seq<State>, steps: seq<Step>, i: nat)
    requires Run(trace, steps) && i < |steps| && trace[i].shared.error != 0
    ensures trace[i + 1].shared.error == trace[i].shared.error
  {
    StepKeepsError(trace[i], steps[i]);
  }

  /** The first failure decides: an error that has been stored is never replaced. */
  lemma {:induction false} FirstErrorStays(trace: seq<State>, steps: seq<Step>, i: nat, j: nat)
    requires Run(trace, steps) && i <= j <= |steps| && trace[i].shared.error != 0
    ensures trace[j].shared.error == trace[i].shared.error
    decreases j - i
  {
    if i < j {
      RunStepKeepsError(trace, steps, i);
      FirstErrorStays(trace, steps, i + 1, j);
    }
  }

  /** The wait of the opening thread ran out. */
  predicate TimedOut(steps: seq<Step>, i: nat)
    requires i <= |steps|
  {
    i > 0 && (TimedOut(steps, i - 1) || steps[i - 1].Timeout?)
  }

  /** The thread is on its way out with an error. */
  predicate Failing(s: State, e: Errno) {
    match s.opener
    case StoringClosed(result) => result == Some(e)
    case StoringDead(result) => result == Some(e)
    case Cancelling(result) => result == Some(e)
    case Returned(result) => result == Some(e)
    case _ => false
  }

  /** Before it decides, the thread has not timed out; once it fails, it does so with the error that decided. */
  predicate Decided(s: State, timedOut: bool) {
    match s.opener
    case StoringClosed(result) => DecidedBy(result, timedOut, s.shared.error)
    case StoringDead(result) => DecidedBy(result, timedOut, s.shared.error)
    case Cancelling(result) => DecidedBy(result, timedOut, s.shared.error)
    case Returned(result) => DecidedBy(result, timedOut, s.shared.error)
    case Finished => true
    case _ => !timedOut
  }

  predicate DecidedBy(result: Option<Errno>, timedOut: bool, error: Errno) {
    if result == None then !timedOut
    else result.value != 0 && result.value == if timedOut then ETIMEDOUT else error
  }

  lemma {:induction false} StepKeepsDecision(s: State, step: Step, timedOut: bool)
    requires Possible(s, step) && Inv(s) && Decided(s, timedOut)
    ensures Decided(Next(s, step), timedOut || step.Timeout?)
  {
    if s.shared.error != 0 {
      StepKeepsError(s, step);
    }
  }

  lemma {:induction false} RunDecides(trace: seq<State>, steps: seq<Step>, i: nat)
    requires Run(trace, steps) && i <= |steps|
    ensures Decided(trace[i], TimedOut(steps, i))
  {
    if i > 0 {
      RunDecides(trace, steps, i - 1);
      RunKeepsInv(trace, steps, i - 1);
      StepKeepsDecision(trace[i - 1], steps[i - 1], TimedOut(steps, i - 1));
    }
  }

  /**
   Main result: an activated open that fails reports an error, which is the timeout's or else the first
   failure's.
   */
  lemma {:induction false} FailureHasItsError(trace: seq<State>, steps: seq<Step>, i: nat, e: Errno)
    requires Run(trace, steps) && i <= |steps| && Failing(trace[i], e)
    ensures e != 0
    ensures if TimedOut(steps, i) then e == ETIMEDOUT else trace[i].shared.error == e
  {
    RunDecides(trace, steps, i);
  }

  // ---- The functions of the source ----

  /** The object after FailReader(e). */
  function Failed(o: Object, e: Errno): Object {
    o.(error := if o.error == 0 then e else o.error, alive := false, signals := o.signals + 1)
  }

  /** The object after ReleaseReader. */
  function Released(o: Object): Object
    requires o.references > 0
  {
    if o.references != 1 then o.(references := o.references - 1)
    else o.(references := 0, freed := o.freed + 1, unmapped := o.unmapped + if o.audio.Some? then 1 else 0)
  }

  /** The object after the event handler has run by itself. */
  function AfterEvent(o: Object, signing: bool): Object {
    if o.closed then o else Failed(o, ConnectionError(signing))
  }

  /** The object after the reply handler has run by itself. */
  function AfterReply(o: Object, reply: Reply): Object
    requires o.references > 0
  {
    if o.closed || !o.alive then Released(o)
    else
      var mapped := if reply.Grant? then o.(audio := Mapped(reply.memory)) else o;
      if ReplyError(reply) == 0 then Released(mapped.(signals := mapped.signals + 1))
      else Released(Failed(mapped, ReplyError(reply)))
  }

  class SVCReaderConnection {
    var references: nat
    var alive: bool
    var closed: bool
    var error: Errno
    var audio: Option<Ring>
    var ready: nat
    ghost var freed: nat
    ghost var unmapped: nat

    ghost function Value(): Object
      reads this
    {
      Object(references, alive, closed, error, audio, ready, freed, unmapped)
    }

    constructor ()
      ensures Value() == Initial().shared
    {
      references, alive, closed, error, audio, ready := 1, true, false, 0, None, 0;
      freed, unmapped := 0, 0;
    }

    method ReleaseReader()
      requires references > 0
      modifies this
      ensures Value() == Released(old(Value()))
    {
      references := references - 1;
      if references != 0 {
        return;
      }
      unmapped := unmapped + if audio.Some? then 1 else 0;
      freed := freed + 1;
    }

    method FailReader(e: Errno)
      modifies this
      ensures Value() == Failed(old(Value()), e)
    {
      if error == 0 {
        error := e;
      }
      alive := false;
      ready := ready + 1;
    }

    method HandleEvent(signing: bool)
      modifies this
      ensures Value() == AfterEvent(old(Value()), signing)
    {
      if !closed {
        FailReader(ConnectionError(signing));
      }
    }

    method HandleReply(reply: Reply)
      requires references > 0
      modifies this
      ensures Value() == AfterReply(old(Value()), reply)
    {
      if !closed && alive {
        match reply
        case ErrorReply(signing) => FailReader(ConnectionError(signing));
        case NotADictionary => FailReader(EPROTO);
        case Refused(code) => FailReader(if code == EBUSY then EBUSY else EACCES);
        case OtherOp => FailReader(EPROTO);
        case Grant(memory) =>
          audio := Mapped(memory);
          if audio == None {
            FailReader(EPROTO);
          } else {
            ready := ready + 1;
          }
      }
      ReleaseReader();
    }

    method Close()
      modifies this
      ensures Value() == old(Value()).(closed := true, alive := false)
    {
      closed := true;
      alive := false;
    }
  }

  /** How many steps of a handler are left. */
  function Rank(queue: Queue): nat {
    match queue
    case ReadingClosed(_) => 7
    case ReadingAlive(_) => 6
    case StoringAudio(_) => 5
    case Event(_) => 5
    case StoringError(_, _) => 4
    case StoringAlive(_) => 3
    case Signalling(_) => 2
    case Succeeding => 2
    case Releasing => 1
    case Quiet => 0
  }

  /** The state when the queue has finished its handler and any release that follows. */
  function Uninterrupted(s: State): State
    decreases Rank(s.queue)
  {
    if !s.queue.Quiet? && s.shared.references > 0 then Uninterrupted(HandleNext(s))
    else if s.destroying then Next(s, Destroy)
    else s
  }

  lemma {:induction false} ReleasingRuns(s: State)
    requires s.queue.Releasing? && s.shared.references > 0 && !s.destroying
    ensures var s' := Uninterrupted(s);
            s'.shared == Released(s.shared) && s'.queue.Quiet? && s'.reply.Handled?
  {
    assert Uninterrupted(s) == Uninterrupted(HandleNext(s));
  }

  lemma {:induction false} FailingRuns(s: State)
    requires s.queue.StoringError? && s.shared.references > 0 && !s.destroying
    ensures var s' := Uninterrupted(s);
            && s'.shared == (if s.queue.replied then Released(Failed(s.shared, s.queue.error))
                             else Failed(s.shared, s.queue.error))
            && s'.queue.Quiet? && (s.queue.replied ==> s'.reply.Handled?)
  {
    var s3 := HandleNext(HandleNext(HandleNext(s)));
    assert Uninterrupted(s) == Uninterrupted(HandleNext(s));
    assert Uninterrupted(s) == Uninterrupted(HandleNext(HandleNext(s)));
    assert Uninterrupted(s) == Uninterrupted(s3);
    if s.queue.replied {
      ReleasingRuns(s3);
    }
  }

  /** Run without interruption, the steps of each handler are that handler. */
  lemma {:induction false} EventStepsAreTheHandler(s: State, signing: bool)
    requires s.queue == Event(ConnectionError(signing)) && s.shared.references > 0 && !s.destroying
    ensures Uninterrupted(s).shared == AfterEvent(s.shared, signing) && Uninterrupted(s).queue.Quiet?
  {
    assert Uninterrupted(s) == Uninterrupted(HandleNext(s));
    if !s.shared.closed {
      FailingRuns(HandleNext(s));
    }
  }

  lemma {:induction false} ReplyStepsAreTheHandler(s: State, reply: Reply)
    requires s.queue == ReadingClosed(reply) && s.shared.references > 0 && !s.destroying
    ensures var s' := Uninterrupted(s);
            s'.shared == AfterReply(s.shared, reply) && s'.queue.Quiet? && s'.reply.Handled?
  {
    var s1 := HandleNext(s);
    assert Uninterrupted(s) == Uninterrupted(s1);
    if s.shared.closed {
      ReleasingRuns(s1);
    } else {
      AliveRuns(s1, reply);
    }
  }

  lemma {:induction false} AliveRuns(s: State, reply: Reply)
    requires s.queue == ReadingAlive(reply) && s.shared.references > 0 && !s.destroying && !s.shared.closed
    ensures var s' := Uninterrupted(s);
            s'.shared == AfterReply(s.shared, reply) && s'.queue.Quiet? && s'.reply.Handled?
  {
    var s1 := HandleNext(s);
    assert Uninterrupted(s) == Uninterrupted(s1);
    if !s.shared.alive {
      ReleasingRuns(s1);
    } else if reply.Grant? {
      var s2 := HandleNext(s1);
      assert Uninterrupted(s1) == Uninterrupted(s2);
      if ReplyError(reply) == 0 {
        assert Uninterrupted(s2) == Uninterrupted(HandleNext(s2));
        ReleasingRuns(HandleNext(s2));
      } else {
        FailingRuns(s2);
      }
    } else {
      FailingRuns(s1);
    }
  }
}
