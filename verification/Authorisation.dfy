/**
 What the broker promises over every run with any number of writers and readers: fresh rings, one grant each,
 for the console user only, and no open that is forgotten while a writer is connected.
 */
module Authorisation {
  import opened Types
  import opened Broker
  import opened Session
  import opened SharedAudio
  import History = RingHistory

  ghost predicate Run(trace: seq<World>, steps: seq<Step>) {
    && |trace| == |steps| + 1
    && trace[0] == Start(trace[0].console)
    && forall i | 0 <= i < |steps| :: Enabled(trace[i], steps[i]) && trace[i + 1] == Next(trace[i], steps[i])
  }

  lemma {:induction false} RunKeepsInv(trace: seq<World>, steps: seq<Step>, i: nat)
    requires Run(trace, steps) && i <= |steps|
    ensures WorldInv(trace[i])
  {
    if i > 0 {
      RunKeepsInv(trace, steps, i - 1);
      Session.StepKeepsInv(trace[i - 1], steps[i - 1]);
    }
  }

  // ---- Safety ----

  /** Nothing has been taken back: generations do not decrease and grants stay on record. */
  ghost predicate Precedes(before: World, after: World) {
    before.broker.generation <= after.broker.generation && before.grants <= after.grants
  }

  lemma {:induction false} PrecedesTwice(a: World, b: World, c: World)
    requires Precedes(a, b) && Precedes(b, c)
    ensures Precedes(a, c)
  {
  }

  lemma {:induction false} OnlyForward(trace: seq<World>, steps: seq<Step>, i: nat, j: nat)
    requires Run(trace, steps) && i <= j <= |steps|
    ensures Precedes(trace[i], trace[j])
    decreases j
  {
    if i < j {
      OnlyForward(trace, steps, i, j - 1);
      RunKeepsInv(trace, steps, j - 1);
      GoesForward(trace[j - 1], steps[j - 1]);
      PrecedesTwice(trace[i], trace[j - 1], trace[j]);
    }
  }

  lemma {:induction false} GoesForward(w: World, step: Step)
    requires WorldInv(w) && Enabled(w, step)
    ensures Precedes(w, Next(w, step))
  {
    if step.Deliver? {
      HandledCases(w, w.links[step.conn]);
    } else if step.SessionNotice? {
      SessionChangeProgresses(w.broker);
    }
  }

  /**
   Main result: a ring is granted once, and an accepted open gets at most one grant, whatever the messages in
   flight, the disconnects and the changes of session.
   */
  lemma {:induction false} GrantedOnce(trace: seq<World>, steps: seq<Step>, i: nat, a: nat, b: nat)
    requires Run(trace, steps) && i <= |steps| && a < b < |trace[i].grants|
    ensures trace[i].grants[a].ring != trace[i].grants[b].ring
    ensures trace[i].grants[a].acceptedAt < trace[i].grants[b].acceptedAt
    ensures trace[i].grants[a].generation < trace[i].grants[b].generation
  {
    RunKeepsInv(trace, steps, i);
    assert Proper(trace[i].grants[a], trace[i].rings) && Proper(trace[i].grants[b], trace[i].rings);
  }

  /**
   Main result: every grant went to a reader of the user then at the console, neither root nor nobody, and
   its ring was allocated after that reader's open had been accepted, hence after it had been sent.
   */
  lemma {:induction false} GrantsAreFresh(trace: seq<World>, steps: seq<Step>, i: nat, g: Grant)
    requires Run(trace, steps) && i <= |steps| && g in trace[i].grants
    ensures g.uid == g.console != ROOT && g.uid != NOBODY
    ensures g.request < g.acceptedAt < g.ring < trace[i].now
    ensures g.ring in trace[i].rings && trace[i].rings[g.ring].generation == g.generation
  {
    RunKeepsInv(trace, steps, i);
  }

  // ---- What a granted ring can contain ----

  function Ops(timed: seq<Timed>): (ops: seq<History.Operation>)
    ensures |ops| == |timed|
  {
    seq(|timed|, k requires 0 <= k < |timed| => timed[k].op)
  }

  /** What has been done to a ring. */
  function Done(w: World, ring: RingId): seq<Timed> {
    if ring in w.history then w.history[ring] else []
  }

  /** The contents of a ring after such a history; it starts out as SVCAudioAllocate leaves it. */
  ghost function Contents(done: seq<Timed>): (ring: Ring)
    ensures |ring.slots| == CAPACITY
  {
    if History.AllWellFormed(Ops(done)) then History.Run(Initialized(48000), Ops(done)) else Initialized(48000)
  }

  /**
   Main result, end to end: any frame that can be loaded from a granted ring, at any later moment, was
   captured after the receiving reader's own open had been accepted.
   */
  lemma {:induction false} LoadedFramesAreNew(trace: seq<World>, steps: seq<Step>, i: nat, g: Grant, frame: nat,
                                              stereo: Stereo) returns (k: nat)
    requires Run(trace, steps) && i <= |steps| && g in trace[i].grants
    requires Load(Contents(Done(trace[i], g.ring)).slots, frame) == Some(stereo)
    ensures var done := Done(trace[i], g.ring);
            && k < |done| && g.request < g.acceptedAt < done[k].at < trace[i].now
            && History.CapturesFrame(done[k].op, frame, stereo)
  {
    RunKeepsInv(trace, steps, i);
    var ops := Ops(Done(trace[i], g.ring));
    assert History.AllWellFormed(ops);
    History.RingHoldsLastStores(Initialized(48000), ops);
    var log := History.Log(true, ops);
    assert History.Retained(log, frame, stereo);
    k := History.LoggedWasCaptured(true, ops, History.Entry(frame, stereo));
  }

  /**
   Main result: the way to a grant. When the rotation a pending open waits for reaches its writer, and the writer
   has memory, the publication it sends back is granted: the reader gets the ring just allocated, which is the one
   the writer fills, and the open is answered.
   */
  lemma {:induction false} RotationIsGranted(w: World, c: Conn) returns (published: World, granted: World)
    requires WorldInv(w) && w.broker.writer == Some(c) && w.broker.pendingGrant.Some?
    requires !w.links[c].closed && w.links[c].inbox == []
    requires w.links[c].outbox == [RotateTo(w.broker.generation, true)]
    requires Uids(w.links, w.broker.reader) == w.console
    ensures Enabled(w, WriterRotates(c, true)) && published == Next(w, WriterRotates(c, true))
    ensures Enabled(published, Deliver(c)) && granted == Next(published, Deliver(c))
    ensures granted.grants == w.grants + [Grant(w.broker.reader.value, w.broker.pendingGrant.value, w.now,
                                                w.broker.generation, w.acceptedAt, w.console, w.console)]
    ensures granted.broker == w.broker.(pendingGrant := None)
    ensures c in granted.links && granted.links[c].current == Some(w.now)
    ensures w.now in granted.rings && granted.rings[w.now] == Made(c, w.broker.generation)
  {
    published := Next(w, WriterRotates(c, true));
    var link := published.links[c];
    var reader, request := w.broker.reader.value, w.broker.pendingGrant.value;
    assert link.inbox == [Received(Publish(w.broker.generation, Some(w.now)))] && link.current == Some(w.now);
    assert Uids(published.links, w.broker.reader) == w.console;
    var o := Handled(published, link);
    assert o == Outcome(w.broker.(pendingGrant := None), [Granted(reader, request, w.now)]);
    var links := published.links[c := link.(inbox := link.inbox[1..])];
    assert ApplyEffects(links, o.sent) == ApplyEffect(links, o.sent[0]) == links;
    granted := Next(published, Deliver(c));
  }

  // ---- No lost wake-up ----

  /**
   Main result: while a grant is pending and a writer is connected, the current generation is under way to
   the writer as an enabled rotation, or back as a publication, or the writer's end is about to be noticed.
   */
  lemma {:induction false} NoLostWakeUp(trace: seq<World>, steps: seq<Step>, i: nat)
    requires Run(trace, steps) && i <= |steps|
    requires trace[i].broker.pendingGrant.Some? && trace[i].broker.writer.Some?
    ensures var w, c := trace[i], trace[i].broker.writer.value;
            && c in w.links
            && (|| RotateTo(w.broker.generation, true) in w.links[c].outbox
                || (exists memory :: Received(Publish(w.broker.generation, memory)) in w.links[c].inbox)
                || Failure in w.links[c].inbox)
  {
    RunKeepsInv(trace, steps, i);
    var link := trace[i].links[trace[i].broker.writer.value];
    if link.closed {
      assert link.inbox[|link.inbox| - 1] == Failure;
    }
  }

  /** A reader whose connection has ended is about to be dropped, so that its place becomes free. */
  lemma {:induction false} DeadReaderIsNoticed(trace: seq<World>, steps: seq<Step>, i: nat)
    requires Run(trace, steps) && i <= |steps| && trace[i].broker.reader.Some?
    ensures var w, c := trace[i], trace[i].broker.reader.value;
            c in w.links && !w.links[c].peer.isWriter && (w.links[c].closed ==> Failure in w.links[c].inbox)
  {
    RunKeepsInv(trace, steps, i);
    var link := trace[i].links[trace[i].broker.reader.value];
    if link.closed {
      assert link.inbox[|link.inbox| - 1] == Failure;
    }
  }

  /** With nothing in flight between a connected writer and the broker, no open is waiting. */
  lemma {:induction false} QuietMeansAnswered(w: World)
    requires WorldInv(w) && w.broker.writer.Some?
    requires var link := w.links[w.broker.writer.value]; link.inbox == [] && link.outbox == []
    ensures w.broker.pendingGrant == None
  {
  }

  /** How much work the messages of a connection can still cause. */
  function InputWeight(input: Input): nat {
    match input
    case Failure => 1
    case Received(message) => if message.Hello? then 4 else 2
  }

  function RotationWeight(rotation: RotateTo): nat {
    if rotation.enabled then 3 else 1
  }

  function InboxWeight(inbox: seq<Input>): nat {
    if inbox == [] then 0 else InputWeight(inbox[0]) + InboxWeight(inbox[1..])
  }

  function OutboxWeight(outbox: seq<RotateTo>): nat {
    if outbox == [] then 0 else RotationWeight(outbox[0]) + OutboxWeight(outbox[1..])
  }

  function Weight(link: Link): nat {
    InboxWeight(link.inbox) + OutboxWeight(link.outbox)
  }

  lemma {:induction false} InboxAppend(inbox: seq<Input>, input: Input)
    ensures InboxWeight(inbox + [input]) == InboxWeight(inbox) + InputWeight(input)
    decreases |inbox|
  {
    if inbox != [] {
      assert (inbox + [input])[1..] == inbox[1..] + [input];
      InboxAppend(inbox[1..], input);
    }
  }

  lemma {:induction false} OutboxAppend(outbox: seq<RotateTo>, rotation: RotateTo)
    ensures OutboxWeight(outbox + [rotation]) == OutboxWeight(outbox) + RotationWeight(rotation)
    decreases |outbox|
  {
    if outbox != [] {
      assert (outbox + [rotation])[1..] == outbox[1..] + [rotation];
      OutboxAppend(outbox[1..], rotation);
    }
  }

  /** Handling a rotation replaces it by something lighter. */
  lemma {:induction false} RotationIsWork(link: Link, ring: Option<RingId>)
    requires link.outbox != []
    ensures Weight(RotatedTo(link, ring)) < Weight(link)
  {
    var rotation := link.outbox[0];
    if rotation.enabled && !link.closed {
      InboxAppend(link.inbox, Received(Publish(rotation.generation, ring)));
    } else {
      assert RotatedTo(link, ring).inbox == link.inbox;
    }
  }

  /** What the broker may send on a message of its writer, besides grants and news for readers. */
  ghost predicate Brief(sent: seq<Effect>, conn: Conn, budget: nat) {
    || sent == []
    || sent == [Cancelled(conn)]
    || (|sent| == 1 && sent[0].Granted?)
    || (|sent| == 1 && Told(sent[0], conn, budget))
    || (|sent| == 2 && sent[0].Cancelled? && sent[0].peer != conn && Told(sent[1], conn, budget))
  }

  predicate Told(effect: Effect, conn: Conn, budget: nat) {
    effect.Rotation? && effect.to == conn && RotationWeight(RotateTo(effect.generation, effect.enabled)) < budget
  }

  lemma {:induction false} WriterMessageIsBrief(w: World, link: Link)
    requires Inv(w.broker) && w.broker.writer == Some(link.peer.conn) && link.peer.isWriter
    requires w.broker.reader != Some(link.peer.conn)
    requires link.inbox != [] && link.inbox[0] != Failure
    ensures Brief(Handled(w, link).sent, link.peer.conn, InputWeight(link.inbox[0]))
  {
  }

  lemma {:induction false} ToldIsLight(links: map<Conn, Link>, effect: Effect, conn: Conn, budget: nat)
    requires conn in links && Told(effect, conn, budget)
    ensures conn in ApplyEffect(links, effect)
    ensures Weight(ApplyEffect(links, effect)[conn]) < Weight(links[conn]) + budget
  {
    OutboxAppend(links[conn].outbox, RotateTo(effect.generation, effect.enabled));
  }

  lemma {:induction false} CancelIsLight(link: Link)
    ensures Weight(Cancel(link)) <= Weight(link) + 1
  {
    assert InboxWeight([Failure]) == 1 + InboxWeight([]);
  }

  lemma {:induction false} BriefIsLight(links: map<Conn, Link>, sent: seq<Effect>, conn: Conn, budget: nat)
    requires conn in links && Brief(sent, conn, budget) && budget >= 2
    ensures conn in ApplyEffects(links, sent) && Weight(ApplyEffects(links, sent)[conn]) < Weight(links[conn]) + budget
  {
    CancelIsLight(links[conn]);
    if sent != [] {
      var first := ApplyEffect(links, sent[0]);
      assert ApplyEffects(links, sent) == ApplyEffects(first, sent[1..]);
      if |sent| == 1 {
        assert ApplyEffects(first, sent[1..]) == first;
        if Told(sent[0], conn, budget) {
          ToldIsLight(links, sent[0], conn, budget);
        }
      } else {
        assert sent[1..][0] == sent[1] && sent[1..][1..] == [];
        assert ApplyEffects(first, sent[1..]) == ApplyEffect(first, sent[1]);
        ToldIsLight(first, sent[1], conn, budget);
      }
    }
  }

  /** Handling a message of the writer also lightens its channels, as long as it stays the writer. */
  lemma {:induction false} DeliveryIsWork(w: World, conn: Conn)
    requires WorldInv(w) && Enabled(w, Deliver(conn)) && w.broker.writer == Some(conn)
    ensures var w' := Next(w, Deliver(conn));
            && conn in w'.links
            && (|| w'.broker.writer == None
                || (w'.broker.writer == Some(conn) && Weight(w'.links[conn]) < Weight(w.links[conn])))
  {
    var link := w.links[conn];
    var o := Handled(w, link);
    var links := w.links[conn := Taken(link)];
    SameConns(links, o.sent);
    if link.inbox[0] != Failure {
      WriterMessageIsBrief(w, link);
      BriefIsLight(links, o.sent, conn, InputWeight(link.inbox[0]));
    }
  }

  /** A step that carries a message between the broker and one writer. */
  predicate Carries(step: Step, conn: Conn) {
    (step.Deliver? || step.WriterRotates?) && step.conn == conn
  }

  /** Messages are carried between the broker and its writer, and nothing else happens. */
  ghost predicate Carrying(trace: seq<World>, steps: seq<Step>, conn: Conn) {
    && |trace| == |steps| + 1
    && WorldInv(trace[0])
    && (forall i | 0 <= i < |trace| :: trace[i].broker.writer == Some(conn))
    && (forall i | 0 <= i < |steps| ::
          Carries(steps[i], conn) && Enabled(trace[i], steps[i]) && trace[i + 1] == Next(trace[i], steps[i]))
  }

  lemma {:induction false} CarryingIsWork(trace: seq<World>, steps: seq<Step>, conn: Conn, i: nat)
    requires Carrying(trace, steps, conn) && i <= |steps|
    ensures WorldInv(trace[i]) && conn in trace[i].links
    ensures i + Weight(trace[i].links[conn]) <= Weight(trace[0].links[conn])
  {
    if i > 0 {
      CarryingIsWork(trace, steps, conn, i - 1);
      var w, step := trace[i - 1], steps[i - 1];
      Session.StepKeepsInv(w, step);
      if step.Deliver? {
        DeliveryIsWork(w, conn);
      } else {
        RotationIsWork(w.links[conn], NewRing(w, w.links[conn], step.allocates));
      }
    }
  }

  /**
   Main result: however messages are carried between the broker and a writer that stays connected, and whether
   or not the writer gets memory, after at most `Weight` steps there is none left to carry, and then no open
   is waiting any more.
   */
  lemma {:induction false} EveryOpenIsAnswered(trace: seq<World>, steps: seq<Step>, conn: Conn)
    requires Carrying(trace, steps, conn)
    ensures conn in trace[0].links && |steps| <= Weight(trace[0].links[conn])
    ensures (forall step | Carries(step, conn) :: !Enabled(trace[|steps|], step)) ==>
              trace[|steps|].broker.pendingGrant == None
  {
    CarryingIsWork(trace, steps, conn, 0);
    CarryingIsWork(trace, steps, conn, |steps|);
    var w := trace[|steps|];
    if forall step | Carries(step, conn) :: !Enabled(w, step) {
      assert Carries(Deliver(conn), conn) && Carries(WriterRotates(conn, true), conn);
      QuietMeansAnswered(w);
    }
  }
}
