/**
 Whether a granted ring is still the one its writer fills. It need not be: a writer that says hello again is
 rotated, and what it publishes then answers no open. The last theorem says exactly when it is.
 */
module CurrentRing {
  import opened Types
  import opened Broker
  import opened Session
  import opened Authorisation

  // ---- The channel to a writer ----

  function RotationsTo(sent: seq<Effect>, conn: Conn): seq<RotateTo> {
    if sent == [] then []
    else
      Added(sent[0], conn) + RotationsTo(sent[1..], conn)
  }

  lemma {:induction false} OutboxGrows(links: map<Conn, Link>, sent: seq<Effect>, conn: Conn)
    requires conn in links
    ensures var links' := ApplyEffects(links, sent);
            && conn in links'
            && (!links'[conn].closed ==> links'[conn].outbox == links[conn].outbox + RotationsTo(sent, conn))
    decreases |sent|
  {
    if sent != [] {
      var next := ApplyEffect(links, sent[0]);
      OneEffect(links, sent[0], conn);
      StaysOpen(next, sent[1..], conn);
      OneOutbox(links, sent[0], conn);
      OutboxGrows(next, sent[1..], conn);
      assert ApplyEffects(links, sent) == ApplyEffects(next, sent[1..]);
    }
  }

  /** A connection that is open after some effects was open before them. */
  lemma {:induction false} StaysOpen(links: map<Conn, Link>, sent: seq<Effect>, conn: Conn)
    requires conn in links
    ensures var links' := ApplyEffects(links, sent);
            conn in links' && (!links'[conn].closed ==> !links[conn].closed)
  {
    EffectsEvolve(links, sent, conn);
  }

  /** What one effect adds to a channel. */
  function Added(effect: Effect, conn: Conn): seq<RotateTo> {
    if effect.Rotation? && effect.to == conn then [RotateTo(effect.generation, effect.enabled)] else []
  }

  lemma {:induction false} OneOutbox(links: map<Conn, Link>, effect: Effect, conn: Conn)
    requires conn in links && conn in ApplyEffect(links, effect)
    ensures var link := ApplyEffect(links, effect)[conn];
            !link.closed ==> link.outbox == links[conn].outbox + Added(effect, conn)
  {
  }

  /** The writer after an event is told each new generation once, and a connection that never was it nothing. */
  ghost predicate Tells(s: State, o: Outcome, c: Conn) {
    && (o.state.writer == Some(c) ==>
          RotationsTo(o.sent, c) ==
            if o.state.generation == s.generation then [] else [RotateTo(o.state.generation, o.state.isOpen)])
    && (o.state.writer != Some(c) && s.writer != Some(c) ==> RotationsTo(o.sent, c) == [])
  }

  ghost predicate TellsWriter(s: State, o: Outcome) {
    && (o.state.generation == s.generation ==> o.state.writer == s.writer && o.state.reader == s.reader)
    && forall c :: Tells(s, o, c)
  }

  lemma {:induction false} RotationsAppend(a: seq<Effect>, b: seq<Effect>, c: Conn)
    ensures RotationsTo(a + b, c) == RotationsTo(a, c) + RotationsTo(b, c)
    decreases |a|
  {
    if a == [] {
      assert a + b == b;
    } else {
      assert (a + b)[1..] == a[1..] + b;
      RotationsAppend(a[1..], b, c);
    }
  }

  lemma {:induction false} OneRotation(effect: Effect, c: Conn)
    ensures RotationsTo([effect], c) ==
            if effect.Rotation? && effect.to == c then [RotateTo(effect.generation, effect.enabled)] else []
  {
    assert [effect][1..] == [];
  }

  lemma {:induction false} RotateTells(s: State, enabled: bool, c: Conn)
    ensures RotationsTo(Rotate(s, enabled).sent, c) ==
            if s.writer == Some(c) then [RotateTo(s.generation + 1, enabled)] else []
  {
    if s.writer.Some? {
      OneRotation(Rotation(s.writer.value, s.generation + 1, enabled), c);
    }
  }

  lemma {:induction false} DropTells(s: State, c: Conn)
    ensures RotationsTo(DropReader(s).sent, c) ==
            if s.writer == Some(c) then [RotateTo(s.generation + 1, false)] else []
  {
    var dropped := s.(pendingGrant := None, reader := None, isOpen := false);
    RotateTells(dropped, false, c);
    var first := if s.reader == None then [] else [Cancelled(s.reader.value)];
    if s.reader.Some? {
      OneRotation(Cancelled(s.reader.value), c);
    }
    RotationsAppend(first, Rotate(dropped, false).sent, c);
  }

  lemma {:induction false} DropTellsWriter(s: State)
    ensures TellsWriter(s, DropReader(s))
  {
    forall c ensures Tells(s, DropReader(s), c) {
      DropTells(s, c);
    }
  }

  lemma {:induction false} FailureTellsWriter(s: State, peer: Conn)
    ensures TellsWriter(s, HandleFailure(s, peer))
  {
    forall c ensures Tells(s, HandleFailure(s, peer), c) {
      var first := if s.reader == Some(peer) then DropReader(s) else Outcome(s, []);
      var gone := first.state.(writer := None);
      DropTells(s, c);
      DropTells(gone, c);
      RotationsAppend(first.sent, DropReader(gone).sent, c);
    }
  }

  lemma {:induction false} HelloTells(s: State, peer: Conn, c: Conn)
    requires Inv(s)
    ensures Tells(s, HandleHello(s, peer), c)
  {
    RotateTells(s.(writer := Some(peer)), s.reader.Some? && s.isOpen, c);
    OneRotation(Cancelled(peer), c);
  }

  lemma {:induction false} PublishTells(s: State, generation: nat, memory: Option<RingId>, readerUid: Uid,
                                        console: Uid, c: Conn)
    ensures Tells(s, HandlePublish(s, generation, memory, readerUid, console), c)
  {
    DropTells(s, c);
    var o := HandlePublish(s, generation, memory, readerUid, console);
    if |o.sent| == 1 {
      OneRotation(o.sent[0], c);
    }
  }

  lemma {:induction false} OpenTells(s: State, peer: Peer, reply: Option<Request>, console: Uid, c: Conn)
    ensures Tells(s, HandleOpen(s, peer, reply, console), c)
  {
    RotateTells(s.(pendingGrant := reply, reader := Some(peer.conn), isOpen := true), true, c);
    var o := HandleOpen(s, peer, reply, console);
    if |o.sent| == 1 {
      OneRotation(o.sent[0], c);
    }
  }

  lemma {:induction false} MessageTellsWriter(s: State, peer: Peer, message: Message, readerUid: Uid, console: Uid)
    requires Inv(s)
    ensures TellsWriter(s, HandleMessage(s, peer, message, readerUid, console))
  {
    forall c ensures Tells(s, HandleMessage(s, peer, message, readerUid, console), c) {
      OneRotation(Cancelled(peer.conn), c);
      HelloTells(s, peer.conn, c);
      match message
      case Hello =>
      case Publish(generation, memory) => PublishTells(s, generation, memory, readerUid, console, c);
      case Open(reply) => OpenTells(s, peer, reply, console, c);
      case Unknown =>
    }
  }

  // ---- The invariant ----

  ghost predicate Ascending(outbox: seq<RotateTo>) {
    forall i, j | 0 <= i < j < |outbox| :: outbox[i].generation < outbox[j].generation
  }

  /** The rotations a writer has not handled yet lead from the generation it has seen to the current one. */
  ghost predicate Chain(seen: nat, outbox: seq<RotateTo>, generation: nat) {
    if outbox == [] then seen == generation
    else seen < outbox[0].generation && Ascending(outbox) && outbox[|outbox| - 1].generation == generation
  }

  /** An open connection: a writer's ring is the one made for the generation it has last been rotated to. */
  ghost predicate Tracks(c: Conn, link: Link, rings: map<RingId, Made>, writer: Option<Conn>, generation: nat) {
    && (if writer == Some(c) then Chain(link.seen, link.outbox, generation) else link.outbox == [] && link.seen == 0)
    && (forall r | r in rings && rings[r].writer == c ::
          0 < rings[r].generation <= link.seen && (rings[r].generation == link.seen ==> link.current == Some(r)))
    && (forall r | link.current == Some(r) :: r in rings && rings[r] == Made(c, link.seen))
  }

  ghost predicate AllTrack(links: map<Conn, Link>, rings: map<RingId, Made>, writer: Option<Conn>, generation: nat) {
    forall c | c in links && !links[c].closed ::
      Tracks(c, links[c], rings, writer, generation) && Failure !in links[c].inbox
  }

  /** A grant of the current generation belongs to the present writer and the present session. */
  ghost predicate CurrentInv(w: World) {
    && AllTrack(w.links, w.rings, w.broker.writer, w.broker.generation)
    && (forall r | r in w.rings :: w.rings[r].writer in w.links)
    && (w.broker.writer.Some? ==> w.broker.generation > 0)
    && (forall g | g in w.grants && g.generation == w.broker.generation ::
          && g.ring in w.rings && w.broker.writer == Some(w.rings[g.ring].writer)
          && w.broker.reader == Some(g.to) && w.acceptedAt == g.acceptedAt)
  }

  lemma {:induction false} ChainGrows(seen: nat, outbox: seq<RotateTo>, generation: nat, more: RotateTo)
    requires Chain(seen, outbox, generation) && generation < more.generation
    ensures Chain(seen, outbox + [more], more.generation)
  {
    var longer := outbox + [more];
    if outbox != [] {
      assert forall i | 0 <= i < |outbox| :: outbox[i].generation <= outbox[|outbox| - 1].generation;
    }
  }

  lemma {:induction false} ChainShrinks(seen: nat, outbox: seq<RotateTo>, generation: nat)
    requires Chain(seen, outbox, generation) && outbox != []
    ensures Chain(outbox[0].generation, outbox[1..], generation)
  {
  }

  /** What an event leaves of the channels: only an inbox has lost something, and a writer that goes is closed. */
  ghost predicate Follows(w: World, links: map<Conn, Link>, o: Outcome) {
    && TellsWriter(w.broker, o)
    && w.broker.generation <= o.state.generation
    && links.Keys == w.links.Keys
    && (forall c | c in links :: links[c] == w.links[c].(inbox := links[c].inbox))
    && (forall c, m | c in links && m in links[c].inbox :: m in w.links[c].inbox)
    && (w.broker.writer.Some? && o.state.writer != w.broker.writer ==>
          w.broker.writer.value in links && links[w.broker.writer.value].closed)
    && (o.state.writer.Some? && o.state.writer != w.broker.writer ==> o.state.generation > w.broker.generation)
  }

  /** A grant is of a ring that the present writer made for the present generation. */
  ghost predicate GrantsFollow(w: World, o: Outcome) {
    forall e | e in o.sent && e.Granted? ::
      && o.state.generation == w.broker.generation
      && e.memory in w.rings && w.broker.writer == Some(w.rings[e.memory].writer)
      && w.broker.reader == Some(e.to)
  }

  lemma {:induction false} LinkFollows(w: World, links: map<Conn, Link>, o: Outcome, c: Conn, link: Link)
    requires AllTrack(w.links, w.rings, w.broker.writer, w.broker.generation) && Follows(w, links, o)
    requires w.broker.writer.Some? ==> w.broker.generation > 0
    requires c in links && c in ApplyEffects(links, o.sent)
    requires link == ApplyEffects(links, o.sent)[c] && !link.closed
    ensures Tracks(c, link, w.rings, o.state.writer, o.state.generation) && Failure !in link.inbox
  {
    EffectsEvolve(links, o.sent, c);
    OutboxGrows(links, o.sent, c);
    assert Tells(w.broker, o, c);
    assert Tracks(c, w.links[c], w.rings, w.broker.writer, w.broker.generation);
    if o.state.writer == Some(c) && w.broker.writer == Some(c) && o.state.generation != w.broker.generation {
      ChainGrows(link.seen, links[c].outbox, w.broker.generation, RotateTo(o.state.generation, o.state.isOpen));
    }
  }

  lemma {:induction false} ReactKeepsTracks(w: World, links: map<Conn, Link>, o: Outcome)
    requires AllTrack(w.links, w.rings, w.broker.writer, w.broker.generation) && Follows(w, links, o)
    requires w.broker.writer.Some? ==> w.broker.generation > 0
    ensures AllTrack(ApplyEffects(links, o.sent), w.rings, o.state.writer, o.state.generation)
  {
    var links' := ApplyEffects(links, o.sent);
    SameConns(links, o.sent);
    forall c | c in links' && !links'[c].closed
      ensures Tracks(c, links'[c], w.rings, o.state.writer, o.state.generation) && Failure !in links'[c].inbox
    {
      LinkFollows(w, links, o, c, links'[c]);
    }
  }

  lemma {:induction false} ReactKeepsCurrent(w: World, links: map<Conn, Link>, o: Outcome)
    requires CurrentInv(w) && Follows(w, links, o) && GrantsFollow(w, o)
    requires forall g | g in w.grants :: g.generation <= w.broker.generation
    ensures CurrentInv(React(w, links, o))
  {
    ReactKeepsTracks(w, links, o);
    SameConns(links, o.sent);
    if o.sent != [] && o.sent[0].Granted? {
      assert o.sent[0] in o.sent;
    }
  }

  lemma {:induction false} DeliveryFollows(w: World, conn: Conn)
    requires WorldInv(w) && CurrentInv(w) && Enabled(w, Deliver(conn))
    ensures Follows(w, w.links[conn := Taken(w.links[conn])], Handled(w, w.links[conn]))
  {
    HandledTells(w, w.links[conn]);
    TakenLinks(w, conn);
  }

  lemma {:induction false} HandledTells(w: World, link: Link)
    requires Inv(w.broker) && link.inbox != []
    ensures var o := Handled(w, link);
            && TellsWriter(w.broker, o) && w.broker.generation <= o.state.generation
            && (o.state.writer.Some? && o.state.writer != w.broker.writer ==> o.state.generation > w.broker.generation)
            && (w.broker.writer.Some? && o.state.writer != w.broker.writer ==>
                  w.broker.writer.value == link.peer.conn && link.inbox[0] == Failure)
  {
    match link.inbox[0]
    case Failure => FailureTellsWriter(w.broker, link.peer.conn);
    case Received(message) =>
      MessageTellsWriter(w.broker, link.peer, message, Uids(w.links, w.broker.reader), w.console);
  }

  lemma {:induction false} TakenLinks(w: World, conn: Conn)
    requires conn in w.links && w.links[conn].inbox != []
    ensures var links := w.links[conn := Taken(w.links[conn])];
            && links.Keys == w.links.Keys
            && (forall c | c in links :: links[c] == w.links[c].(inbox := links[c].inbox))
            && (forall c, m | c in links && m in links[c].inbox :: m in w.links[c].inbox)
    ensures w.links[conn].inbox[0] in w.links[conn].inbox
  {
  }

  lemma {:induction false} DeliveredGrantsFollow(w: World, conn: Conn)
    requires WorldInv(w) && Enabled(w, Deliver(conn))
    ensures GrantsFollow(w, Handled(w, w.links[conn]))
  {
    var link := w.links[conn];
    HandledCases(w, link);
    assert link.inbox[0] in link.inbox;
    if link.inbox[0].Received? {
      GrantCondition(w.broker, link.peer, link.inbox[0].message, Uids(w.links, w.broker.reader), w.console);
    }
  }

  lemma {:induction false} ConnectKeepsCurrent(w: World, peer: Peer)
    requires WorldInv(w) && CurrentInv(w) && Enabled(w, Connect(peer))
    ensures CurrentInv(Next(w, Connect(peer)))
  {
  }

  lemma {:induction false} RotatedTracks(c: Conn, link: Link, rings: map<RingId, Made>, writer: Option<Conn>,
                                         generation: nat, ring: Option<RingId>, rings': map<RingId, Made>)
    requires link.outbox != [] && Tracks(c, link, rings, writer, generation)
    requires ring == None ==> rings' == rings
    requires ring.Some? ==> ring.value !in rings && rings' == rings[ring.value := Made(c, link.outbox[0].generation)]
    ensures Tracks(c, RotatedTo(link, ring), rings', writer, generation)
  {
    ChainShrinks(link.seen, link.outbox, generation);
  }

  lemma {:induction false} OthersTrack(c: Conn, link: Link, rings: map<RingId, Made>, writer: Option<Conn>,
                                       generation: nat, ring: RingId, made: Made)
    requires Tracks(c, link, rings, writer, generation) && made.writer != c && ring !in rings
    ensures Tracks(c, link, rings[ring := made], writer, generation)
  {
  }

  lemma {:induction false} RotationTracks(w: World, conn: Conn, allocates: bool, c: Conn)
    requires WorldInv(w) && CurrentInv(w) && Enabled(w, WriterRotates(conn, allocates))
    requires c in w.links && !w.links[c].closed
    ensures var w' := Rotated(w, conn, allocates);
            Tracks(c, w'.links[c], w'.rings, w.broker.writer, w.broker.generation) && Failure !in w'.links[c].inbox
  {
    var link, ring := w.links[conn], NewRing(w, w.links[conn], allocates);
    assert w.now !in w.rings;
    assert Tracks(c, w.links[c], w.rings, w.broker.writer, w.broker.generation);
    if c == conn {
      RotatedTracks(c, link, w.rings, w.broker.writer, w.broker.generation, ring, Rotated(w, conn, allocates).rings);
    } else if ring.Some? {
      OthersTrack(c, w.links[c], w.rings, w.broker.writer, w.broker.generation, w.now,
                  Made(conn, link.outbox[0].generation));
    }
  }

  lemma {:induction false} RotationKeepsTracks(w: World, conn: Conn, allocates: bool)
    requires WorldInv(w) && CurrentInv(w) && Enabled(w, WriterRotates(conn, allocates))
    ensures var w' := Rotated(w, conn, allocates);
            AllTrack(w'.links, w'.rings, w.broker.writer, w.broker.generation)
  {
    var w' := Rotated(w, conn, allocates);
    forall c | c in w'.links && !w'.links[c].closed
      ensures Tracks(c, w'.links[c], w'.rings, w.broker.writer, w.broker.generation) && Failure !in w'.links[c].inbox
    {
      RotationTracks(w, conn, allocates, c);
    }
  }

  lemma {:induction false} RotationKeepsCurrent(w: World, conn: Conn, allocates: bool)
    requires WorldInv(w) && CurrentInv(w) && Enabled(w, WriterRotates(conn, allocates))
    ensures CurrentInv(Next(w, WriterRotates(conn, allocates)))
  {
    assert w.now !in w.rings;
    RotationKeepsTracks(w, conn, allocates);
  }

  /** The steps that neither the broker nor a rotating writer takes. */
  lemma {:induction false} QuietStepKeepsCurrent(w: World, step: Step)
    requires CurrentInv(w) && Enabled(w, step)
    requires step.Send? || step.Close? || step.WriterFails? || step.ConsoleChanges? || step.Touch?
    ensures CurrentInv(Next(w, step))
  {
  }

  lemma {:induction false} StepKeepsCurrent(w: World, step: Step)
    requires WorldInv(w) && CurrentInv(w) && Enabled(w, step)
    ensures CurrentInv(Next(w, step))
  {
    match step
    case Deliver(conn) =>
      DeliveryFollows(w, conn);
      DeliveredGrantsFollow(w, conn);
      ReactKeepsCurrent(w, w.links[conn := Taken(w.links[conn])], Handled(w, w.links[conn]));
    case SessionNotice =>
      DropTellsWriter(w.broker);
      ReactKeepsCurrent(w, w.links, DropReader(w.broker));
    case WriterRotates(conn, allocates) => RotationKeepsCurrent(w, conn, allocates);
    case Connect(peer) => ConnectKeepsCurrent(w, peer);
    case _ => QuietStepKeepsCurrent(w, step);
  }

  lemma {:induction false} RunKeepsCurrent(trace: seq<World>, steps: seq<Step>, i: nat)
    requires Authorisation.Run(trace, steps) && i <= |steps|
    ensures WorldInv(trace[i]) && CurrentInv(trace[i])
  {
    Authorisation.RunKeepsInv(trace, steps, i);
    if i > 0 {
      RunKeepsCurrent(trace, steps, i - 1);
      StepKeepsCurrent(trace[i - 1], steps[i - 1]);
    }
  }

  /** Whether the writer of a granted ring still fills that ring. */
  predicate StillFilled(w: World, g: Grant) {
    g.ring in w.rings && w.rings[g.ring].writer in w.links
    && w.links[w.rings[g.ring].writer].current == Some(g.ring)
  }

  /**
   Main result: a writer whose connection is open still fills a ring it was granted for exactly as long as it has
   not been rotated further; and once it has handled the rotations sent to it, exactly as long as no further
   generation has begun.
   */
  lemma {:induction false} StillFilledIff(trace: seq<World>, steps: seq<Step>, i: nat, g: Grant)
    requires Authorisation.Run(trace, steps) && i <= |steps| && g in trace[i].grants
    ensures g.ring in trace[i].rings && trace[i].rings[g.ring].writer in trace[i].links
    ensures var w := trace[i];
            var c := w.rings[g.ring].writer;
            !w.links[c].closed ==>
              && (StillFilled(w, g) <==> w.links[c].seen == g.generation)
              && (w.broker.generation == g.generation ==> StillFilled(w, g))
              && (w.links[c].outbox == [] ==> (StillFilled(w, g) <==> w.broker.generation == g.generation))
  {
    RunKeepsCurrent(trace, steps, i);
    var w := trace[i];
    assert Proper(g, w.rings);
    var c := w.rings[g.ring].writer;
    if !w.links[c].closed {
      assert Tracks(c, w.links[c], w.rings, w.broker.writer, w.broker.generation);
      ChainBound(w.links[c].seen, w.links[c].outbox, w.broker.generation);
    }
  }

  /**
   Main result: once a reader's session is over, because it failed, the session changed or the writer did, its
   ring is cut off: a writer that has handled its rotations fills it no more.
   */
  lemma {:induction false} EndedSessionIsCutOff(trace: seq<World>, steps: seq<Step>, i: nat, g: Grant)
    requires Authorisation.Run(trace, steps) && i <= |steps| && g in trace[i].grants
    requires trace[i].broker.reader != Some(g.to) || trace[i].acceptedAt != g.acceptedAt
    ensures trace[i].broker.generation > g.generation
    ensures g.ring in trace[i].rings && trace[i].rings[g.ring].writer in trace[i].links
    ensures var link := trace[i].links[trace[i].rings[g.ring].writer];
            !link.closed && link.outbox == [] ==> !StillFilled(trace[i], g)
  {
    RunKeepsCurrent(trace, steps, i);
    StillFilledIff(trace, steps, i, g);
  }

  lemma {:induction false} ChainBound(seen: nat, outbox: seq<RotateTo>, generation: nat)
    ensures Chain(seen, outbox, generation) ==> seen <= generation && (outbox != [] ==> seen < generation)
  {
  }

  // ---- It need not be filled any more ----

  const DRIVER := Peer(0, true, 202)
  const HELPER := Peer(1, false, 501)

  /** A world with one writer and one reader. */
  ghost predicate Pair(w: World, now: nat, broker: State, writer: Link, reader: Link, grants: seq<RingId>) {
    && w.now == now && w.console == 501 && w.broker == broker
    && w.links.Keys == {0, 1} && w.links[0] == writer && w.links[1] == reader
    && |w.grants| == |grants| && forall i | 0 <= i < |grants| :: w.grants[i].ring == grants[i]
  }

  lemma {:induction false} DeliverOne(w: World, conn: Conn, effect: Effect)
    requires Enabled(w, Deliver(conn)) && Handled(w, w.links[conn]).sent == [effect]
    ensures Next(w, Deliver(conn)).links == ApplyEffect(w.links[conn := Taken(w.links[conn])], effect)
  {
    var links := w.links[conn := Taken(w.links[conn])];
    assert [effect][1..] == [];
    assert ApplyEffects(links, [effect]) == ApplyEffects(ApplyEffect(links, effect), []);
  }

  lemma {:induction false} Greeting() returns (steps: seq<Step>, trace: seq<World>)
    ensures Authorisation.Run(trace, steps)
    ensures Pair(trace[|steps|], 5, State(Some(0), None, None, 1, false),
                 Link(DRIVER, false, [], [RotateTo(1, false)], None, 0), Link(HELPER, false, [], [], None, 0), [])
  {
    var w1 := Next(Start(501), Connect(DRIVER));
    var w2 := Next(w1, Connect(HELPER));
    var w3 := Next(w2, Send(0, Hello));
    DeliverOne(w3, 0, Rotation(0, 1, false));
    var w4 := Next(w3, Deliver(0));
    steps := [Connect(DRIVER), Connect(HELPER), Send(0, Hello), Deliver(0)];
    trace := [Start(501), w1, w2, w3, w4];
  }

  lemma {:induction false} OneMore(steps: seq<Step>, trace: seq<World>, step: Step)
    returns (longer: seq<Step>, trace': seq<World>, w: World)
    requires Authorisation.Run(trace, steps) && Enabled(trace[|steps|], step)
    ensures w == Next(trace[|steps|], step)
    ensures Authorisation.Run(trace', longer) && longer == steps + [step] && trace' == trace + [w]
  {
    w := Next(trace[|steps|], step);
    longer, trace' := steps + [step], trace + [w];
  }

  lemma {:induction false} Asked() returns (steps: seq<Step>, trace: seq<World>)
    ensures Authorisation.Run(trace, steps)
    ensures Pair(trace[|steps|], 7, State(Some(0), Some(1), Some(5), 2, true),
                 Link(DRIVER, false, [], [RotateTo(1, false), RotateTo(2, true)], None, 0),
                 Link(HELPER, false, [], [], None, 0), [])
  {
    steps, trace := Greeting();
    var w: World;
    steps, trace, w := OneMore(steps, trace, Send(1, Open(Some(5))));
    assert w.links[1].inbox == [Received(Open(Some(5)))];
    DeliverOne(w, 1, Rotation(0, 2, true));
    steps, trace, w := OneMore(steps, trace, Deliver(1));
  }

  lemma {:induction false} Published() returns (steps: seq<Step>, trace: seq<World>)
    ensures Authorisation.Run(trace, steps)
    ensures Pair(trace[|steps|], 9, State(Some(0), Some(1), Some(5), 2, true),
                 Link(DRIVER, false, [Received(Publish(2, Some(8)))], [], Some(8), 2),
                 Link(HELPER, false, [], [], None, 0), [])
  {
    steps, trace := Asked();
    var w: World;
    steps, trace, w := OneMore(steps, trace, WriterRotates(0, true));
    assert w.links[0] == Link(DRIVER, false, [], [RotateTo(2, true)], None, 1);
    steps, trace, w := OneMore(steps, trace, WriterRotates(0, true));
  }

  lemma {:induction false} GrantedWithHello() returns (steps: seq<Step>, trace: seq<World>)
    ensures Authorisation.Run(trace, steps)
    ensures Pair(trace[|steps|], 11, State(Some(0), Some(1), None, 2, true),
                 Link(DRIVER, false, [Received(Hello)], [], Some(8), 2), Link(HELPER, false, [], [], None, 0), [8])
  {
    steps, trace := Published();
    var w: World;
    steps, trace, w := OneMore(steps, trace, Send(0, Hello));
    assert w.links[0].inbox == [Received(Publish(2, Some(8))), Received(Hello)];
    DeliverOne(w, 0, Granted(1, 5, 8));
    steps, trace, w := OneMore(steps, trace, Deliver(0));
  }

  lemma {:induction false} RotatedAgain() returns (steps: seq<Step>, trace: seq<World>)
    ensures Authorisation.Run(trace, steps)
    ensures Pair(trace[|steps|], 13, State(Some(0), Some(1), None, 3, true),
                 Link(DRIVER, false, [Received(Publish(3, Some(12)))], [], Some(12), 3),
                 Link(HELPER, false, [], [], None, 0), [8])
  {
    steps, trace := GrantedWithHello();
    var w: World;
    DeliverOne(trace[|steps|], 0, Rotation(0, 3, true));
    steps, trace, w := OneMore(steps, trace, Deliver(0));
    assert w.links[0] == Link(DRIVER, false, [], [RotateTo(3, true)], Some(8), 2);
    steps, trace, w := OneMore(steps, trace, WriterRotates(0, true));
  }

  /**
   A granted ring need not be filled any more although nothing has failed: the writer has said hello again,
   has been rotated, and fills a ring that was granted to nobody.
   */
  lemma {:induction false} HelloAgainStrandsReader() returns (steps: seq<Step>, trace: seq<World>)
    ensures Authorisation.Run(trace, steps)
    ensures Pair(trace[|steps|], 14, State(Some(0), Some(1), None, 3, true), Link(DRIVER, false, [], [], Some(12), 3),
                 Link(HELPER, false, [], [], None, 0), [8])
    ensures !StillFilled(trace[|steps|], trace[|steps|].grants[0])
  {
    steps, trace := RotatedAgain();
    var w: World;
    steps, trace, w := OneMore(steps, trace, Deliver(0));
    assert w.links[0] == Link(DRIVER, false, [], [], Some(12), 3);
  }
}
