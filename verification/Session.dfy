/**
 The broker together with any number of writers and readers.

 Messages travel in first-in first-out channels: `inbox` towards the broker, `outbox` from it to a writer.
 Connections come and go, the console user changes, writers say hello again, and every delivery is a step of
 its own. `now` counts steps, so a ring is named by the moment it was allocated and an open by the moment it
 was sent.
 */
module Session {
  import opened Types
  import opened Broker
  import History = RingHistory

  /** What waits for the broker: a message, or the error event that ends every closed connection. */
  datatype Input = Received(message: Message) | Failure

  datatype RotateTo = RotateTo(generation: nat, enabled: bool)

  datatype Link = Link(
    peer: Peer,
    closed: bool,
    inbox: seq<Input>,
    outbox: seq<RotateTo>,
    current: Option<RingId>,  // the ring a writer's callbacks would load
    seen: nat)                // the generation a writer has last been rotated to

  /** For whom and in answer to which generation a ring was allocated. */
  datatype Made = Made(writer: Conn, generation: nat)

  datatype Timed = Timed(at: nat, op: History.Operation)

  datatype Grant = Grant(
    to: Conn,
    request: Request,
    ring: RingId,
    generation: nat,
    acceptedAt: nat,
    uid: Uid,
    console: Uid)

  datatype World = World(
    now: nat,
    console: Uid,
    broker: State,
    links: map<Conn, Link>,
    rings: map<RingId, Made>,
    history: map<RingId, seq<Timed>>,  // what has been done to each ring
    acceptedAt: nat,                   // when the last open was accepted
    issuedAt: nat,                     // when the current generation began
    grants: seq<Grant>)

  datatype Step =
    | Connect(peer: Peer)
    | Send(conn: Conn, message: Message)
    | Close(conn: Conn)
    | Deliver(conn: Conn)
    | WriterRotates(conn: Conn, allocates: bool)
    | WriterFails(conn: Conn)
    | ConsoleChanges(uid: Uid)
    | SessionNotice
    | Touch(ring: RingId, op: History.Operation)

  function Start(console: Uid): World {
    World(1, console, Initial(), map[], map[], map[], 0, 0, [])
  }

  // ---- Steps ----

  function Cancel(link: Link): Link {
    link.(closed := true, inbox := if link.closed && link.inbox == [] then [] else [Failure])
  }

  function Announce(link: Link, rotation: RotateTo): Link {
    if link.closed then link else link.(outbox := link.outbox + [rotation])
  }

  function ApplyEffect(links: map<Conn, Link>, effect: Effect): map<Conn, Link> {
    match effect
    case Rotation(to, generation, enabled) =>
      if to in links then links[to := Announce(links[to], RotateTo(generation, enabled))] else links
    case Cancelled(peer) => if peer in links then links[peer := Cancel(links[peer])] else links
    case Granted(_, _, _) => links
    case Refused(_, _, _) => links
  }

  function ApplyEffects(links: map<Conn, Link>, effects: seq<Effect>): map<Conn, Link> {
    if effects == [] then links else ApplyEffects(ApplyEffect(links, effects[0]), effects[1..])
  }

  function Uids(links: map<Conn, Link>, conn: Option<Conn>): Uid {
    if conn.Some? && conn.value in links then links[conn.value].peer.euid else NOBODY
  }

  /** The grants that go out with these messages. */
  function NewGrants(w: World, sent: seq<Effect>): seq<Grant> {
    if sent == [] then []
    else if sent[0].Granted? then
      [Grant(sent[0].to, sent[0].request, sent[0].memory, w.broker.generation, w.acceptedAt,
             Uids(w.links, Some(sent[0].to)), w.console)]
    else []
  }

  /** The world after the broker has handled an event; `links` is what is left of the channels. */
  function React(w: World, links: map<Conn, Link>, outcome: Outcome): World {
    w.(now := w.now + 1,
       broker := outcome.state,
       links := ApplyEffects(links, outcome.sent),
       acceptedAt := if w.broker.reader == None && outcome.state.reader.Some? then w.now else w.acceptedAt,
       issuedAt := if outcome.state.generation != w.broker.generation then w.now else w.issuedAt,
       grants := w.grants + NewGrants(w, outcome.sent))
  }

  function Handled(w: World, link: Link): Outcome
    requires link.inbox != []
  {
    match link.inbox[0]
    case Failure => HandleFailure(w.broker, link.peer.conn)
    case Received(message) =>
      HandleMessage(w.broker, link.peer, message, Uids(w.links, w.broker.reader), w.console)
  }

  /** The ring the rotate handler allocates, when enabled and if memory can be had. */
  function NewRing(w: World, link: Link, allocates: bool): Option<RingId>
    requires link.outbox != []
  {
    if link.outbox[0].enabled && allocates then Some(w.now) else None
  }

  /** The rotate handler exchanges the ring and, when enabled, publishes whether or not it got memory. */
  function RotatedTo(link: Link, ring: Option<RingId>): Link
    requires link.outbox != []
  {
    var rotation := link.outbox[0];
    var answer := if rotation.enabled && !link.closed then [Received(Publish(rotation.generation, ring))] else [];
    link.(outbox := link.outbox[1..], current := ring, seen := rotation.generation, inbox := link.inbox + answer)
  }

  function Rotated(w: World, conn: Conn, allocates: bool): World
    requires conn in w.links && w.links[conn].outbox != []
  {
    var link := w.links[conn];
    var ring := NewRing(w, link, allocates);
    var w' := w.(now := w.now + 1, links := w.links[conn := RotatedTo(link, ring)]);
    if ring == None then w'
    else w'.(rings := w.rings[w.now := Made(conn, link.outbox[0].generation)], history := w.history[w.now := []])
  }

  predicate Enabled(w: World, step: Step) {
    match step
    case Connect(peer) => peer.conn !in w.links
    case Send(conn, message) =>
      && conn in w.links && !w.links[conn].closed && (message.Publish? ==> !w.links[conn].peer.isWriter)
      && (message.Open? && message.reply.Some? ==> message.reply.value == w.now)
    case Close(conn) => conn in w.links && !w.links[conn].closed
    case Deliver(conn) => conn in w.links && w.links[conn].inbox != []
    case WriterRotates(conn, _) => conn in w.links && w.links[conn].outbox != []
    case WriterFails(conn) => conn in w.links && w.links[conn].closed
    case ConsoleChanges(_) => true
    case SessionNotice => true
    case Touch(ring, op) => ring in w.history && History.WellFormed(op)
  }

  function Next(w: World, step: Step): World
    requires Enabled(w, step)
  {
    match step
    case Connect(peer) =>
      w.(now := w.now + 1, links := w.links[peer.conn := Link(peer, false, [], [], None, 0)])
    case Send(conn, message) =>
      var link := w.links[conn];
      w.(now := w.now + 1, links := w.links[conn := link.(inbox := link.inbox + [Received(message)])])
    case Close(conn) =>
      var link := w.links[conn];
      w.(now := w.now + 1,
         links := w.links[conn := link.(closed := true, inbox := link.inbox + [Failure], outbox := [],
                                        current := None)])
    case Deliver(conn) =>
      var link := w.links[conn];
      React(w, w.links[conn := link.(inbox := link.inbox[1..])], Handled(w, link))
    case WriterRotates(conn, allocates) => Rotated(w, conn, allocates)
    case WriterFails(conn) =>
      w.(now := w.now + 1, links := w.links[conn := w.links[conn].(outbox := [], current := None)])
    case ConsoleChanges(uid) => w.(now := w.now + 1, console := uid)
    case SessionNotice => React(w, w.links, DropReader(w.broker))
    case Touch(ring, op) =>
      w.(now := w.now + 1, history := w.history[ring := w.history[ring] + [Timed(w.now, op)]])
  }

  // ---- The invariant ----

  /** A closed connection's channel ends with the error event. */
  predicate LinkInv(link: Link) {
    link.closed && link.inbox != [] ==> link.inbox[|link.inbox| - 1] == Failure
  }

  /** The broker still learns of a connection's end. */
  predicate Attached(link: Link) {
    link.closed ==> link.inbox != []
  }

  /** Publications carry the ring that was made for their generation. */
  ghost predicate Honest(inbox: seq<Input>, conn: Conn, rings: map<RingId, Made>) {
    forall m | m in inbox && m.Received? && m.message.Publish? && m.message.memory.Some? ::
      m.message.memory.value in rings && rings[m.message.memory.value] == Made(conn, m.message.generation)
  }

  ghost predicate SentBefore(inbox: seq<Input>, now: nat) {
    forall m | m in inbox && m.Received? && m.message.Open? && m.message.reply.Some? :: m.message.reply.value < now
  }

  ghost predicate UpTo(outbox: seq<RotateTo>, generation: nat) {
    forall m | m in outbox :: m.generation <= generation
  }

  /** What holds of each connection. */
  ghost predicate Sound(link: Link, conn: Conn, rings: map<RingId, Made>, now: nat, generation: nat) {
    && link.peer.conn == conn && LinkInv(link)
    && (link.peer.isWriter ==> Honest(link.inbox, conn, rings)) && SentBefore(link.inbox, now)
    && UpTo(link.outbox, generation)
  }

  ghost predicate AllSound(links: map<Conn, Link>, rings: map<RingId, Made>, now: nat, generation: nat) {
    forall c | c in links :: Sound(links[c], c, rings, now, generation)
  }

  ghost predicate LinksInv(w: World) {
    && AllSound(w.links, w.rings, w.now, w.broker.generation)
    && (w.broker.writer.Some? ==>
          var c := w.broker.writer.value; c in w.links && w.links[c].peer.isWriter && Attached(w.links[c]))
    && (w.broker.reader.Some? ==>
          var c := w.broker.reader.value;
          && c in w.links && !w.links[c].peer.isWriter && Attached(w.links[c])
          && w.links[c].peer.euid != ROOT && w.links[c].peer.euid != NOBODY)
  }

  /** Rings of the current generation were allocated after it began. */
  ghost predicate RingsInv(w: World) {
    && w.acceptedAt <= w.issuedAt < w.now
    && (forall r | r in w.rings ::
          && r < w.now && w.rings[r].generation <= w.broker.generation
          && (w.rings[r].generation == w.broker.generation ==> w.issuedAt < r))
  }

  ghost predicate HistoryInv(w: World) {
    && w.history.Keys == w.rings.Keys
    && forall r | r in w.history :: forall k | 0 <= k < |w.history[r]| ::
         r < w.history[r][k].at < w.now && History.WellFormed(w.history[r][k].op)
  }

  /** A grant was for the console user, of a ring made for its generation after the open was accepted. */
  ghost predicate Proper(g: Grant, rings: map<RingId, Made>) {
    && g.ring in rings && rings[g.ring].generation == g.generation
    && g.request < g.acceptedAt < g.ring
    && g.uid == g.console && g.uid != ROOT && g.uid != NOBODY
  }

  /** Generations and sessions of the grants only move forward. */
  ghost predicate Forward(grants: seq<Grant>) {
    forall i, j | 0 <= i < j < |grants| ::
      grants[i].generation < grants[j].generation && grants[i].acceptedAt < grants[j].acceptedAt
  }

  ghost predicate GrantsInv(w: World) {
    && (forall g | g in w.grants :: Proper(g, w.rings) && g.generation <= w.broker.generation && g.acceptedAt < w.now)
    && Forward(w.grants)
    && (w.broker.pendingGrant.Some? ==>
          && w.broker.pendingGrant.value < w.acceptedAt
          && forall g | g in w.grants :: g.generation < w.broker.generation && g.acceptedAt < w.acceptedAt)
  }

  ghost predicate Answering(inbox: seq<Input>, generation: nat) {
    exists memory :: Received(Publish(generation, memory)) in inbox
  }

  /** The answer to a generation is under way, or the news that the writer is gone. */
  ghost predicate InFlight(link: Link, generation: nat) {
    RotateTo(generation, true) in link.outbox || Answering(link.inbox, generation) || link.closed
  }

  ghost predicate WakeUp(w: World) {
    w.broker.pendingGrant.Some? && w.broker.writer.Some? && w.broker.writer.value in w.links ==>
      InFlight(w.links[w.broker.writer.value], w.broker.generation)
  }

  ghost predicate WorldInv(w: World) {
    Inv(w.broker) && LinksInv(w) && RingsInv(w) && HistoryInv(w) && GrantsInv(w) && WakeUp(w)
  }

  // ---- What the broker's messages do to the channels ----

  ghost predicate Evolves(conn: Conn, before: Link, after: Link, effects: seq<Effect>) {
    && after.peer == before.peer && after.current == before.current && after.seen == before.seen
    && (before.closed ==> after.closed)
    && (LinkInv(before) ==> LinkInv(after))
    && (Attached(before) ==> Attached(after))
    && (forall m | m in after.inbox :: m in before.inbox || m == Failure)
    && (!after.closed ==> after.inbox == before.inbox)
    && (forall m | m in before.outbox :: m in after.outbox)
    && (forall m | m in after.outbox :: m in before.outbox || Rotation(conn, m.generation, m.enabled) in effects)
    && (forall g, e | Rotation(conn, g, e) in effects :: RotateTo(g, e) in after.outbox || after.closed)
  }

  lemma {:induction false} OneEffect(links: map<Conn, Link>, effect: Effect, conn: Conn)
    requires conn in links
    ensures ApplyEffect(links, effect).Keys == links.Keys
    ensures Evolves(conn, links[conn], ApplyEffect(links, effect)[conn], [effect])
  {
  }

  lemma {:induction false} EffectsEvolve(links: map<Conn, Link>, effects: seq<Effect>, conn: Conn)
    requires conn in links
    ensures ApplyEffects(links, effects).Keys == links.Keys
    ensures Evolves(conn, links[conn], ApplyEffects(links, effects)[conn], effects)
    decreases |effects|
  {
    if effects != [] {
      OneEffect(links, effects[0], conn);
      EffectsEvolve(ApplyEffect(links, effects[0]), effects[1..], conn);
      EvolvesTwice(conn, links[conn], ApplyEffect(links, effects[0])[conn], ApplyEffects(links, effects)[conn],
                   effects[0], effects[1..]);
      assert [effects[0]] + effects[1..] == effects;
    }
  }

  lemma {:induction false} EvolvesTwice(conn: Conn, a: Link, b: Link, c: Link, effect: Effect, rest: seq<Effect>)
    requires Evolves(conn, a, b, [effect]) && Evolves(conn, b, c, rest)
    ensures Evolves(conn, a, c, [effect] + rest)
  {
  }

  lemma {:induction false} SameConns(links: map<Conn, Link>, effects: seq<Effect>)
    ensures ApplyEffects(links, effects).Keys == links.Keys
    decreases |effects|
  {
    if effects != [] {
      SameConns(ApplyEffect(links, effects[0]), effects[1..]);
    }
  }

  // ---- The broker's steps keep the invariant ----

  /** What the channels left after an event and its outcome must satisfy. */
  ghost predicate Legal(w: World, links: map<Conn, Link>, o: Outcome) {
    && Progress(w.broker, o)
    && links.Keys == w.links.Keys
    && AllSound(links, w.rings, w.now, w.broker.generation)
    && (forall c | c in links :: links[c].peer == w.links[c].peer)
    && (o.state.writer.Some? ==>
          var c := o.state.writer.value; c in links && links[c].peer.isWriter && Attached(links[c]))
    && (o.state.reader.Some? ==>
          var c := o.state.reader.value;
          && c in links && !links[c].peer.isWriter && Attached(links[c])
          && links[c].peer.euid != ROOT && links[c].peer.euid != NOBODY
          && (o.state.reader == w.broker.reader
              || (w.broker.reader == None && o.state.generation != w.broker.generation)))
    && (o.state.pendingGrant.Some? ==>
          || (o.state.pendingGrant == w.broker.pendingGrant && o.state.reader == w.broker.reader)
          || (w.broker.reader == None && o.state.reader.Some? && o.state.pendingGrant.value < w.now))
    && (forall e | e in o.sent && e.Granted? ::
          && e.memory in w.rings && w.rings[e.memory].generation == w.broker.generation
          && Uids(w.links, w.broker.reader) == w.console)
    && (o.state.pendingGrant.Some? && o.state.generation == w.broker.generation && o.state.writer.Some? ==>
          InFlight(links[o.state.writer.value], o.state.generation))
  }

  lemma {:induction false} ReactKeepsLinks(w: World, links: map<Conn, Link>, o: Outcome)
    requires WorldInv(w) && Legal(w, links, o)
    ensures LinksInv(React(w, links, o))
  {
    var w' := React(w, links, o);
    SameConns(links, o.sent);
    forall c | c in w'.links ensures Sound(w'.links[c], c, w'.rings, w'.now, w'.broker.generation)
                                     && w'.links[c].peer == links[c].peer
                                     && (Attached(links[c]) ==> Attached(w'.links[c])) {
      EffectsEvolve(links, o.sent, c);
    }
  }

  lemma {:induction false} ReactKeepsGrants(w: World, links: map<Conn, Link>, o: Outcome)
    requires WorldInv(w) && Legal(w, links, o)
    ensures GrantsInv(React(w, links, o))
  {
    var w' := React(w, links, o);
    if o.sent != [] && o.sent[0].Granted? {
      assert o.sent[0] in o.sent;
    }
  }

  lemma {:induction false} ReactKeepsWakeUp(w: World, links: map<Conn, Link>, o: Outcome)
    requires WorldInv(w) && Legal(w, links, o)
    ensures WakeUp(React(w, links, o))
  {
    var w' := React(w, links, o);
    if o.state.pendingGrant.Some? && o.state.writer.Some? {
      var c, g := o.state.writer.value, o.state.generation;
      EffectsEvolve(links, o.sent, c);
      if g == w.broker.generation && Answering(links[c].inbox, g) && !w'.links[c].closed {
        assert Answering(w'.links[c].inbox, g);
      }
    }
  }

  lemma {:induction false} ReactKeepsInv(w: World, links: map<Conn, Link>, o: Outcome)
    requires WorldInv(w) && Legal(w, links, o)
    ensures WorldInv(React(w, links, o))
  {
    ReactKeepsLinks(w, links, o);
    ReactKeepsGrants(w, links, o);
    ReactKeepsWakeUp(w, links, o);
  }

  /** What is left of a channel when its first input has been taken. */
  function Taken(link: Link): Link
    requires link.inbox != []
  {
    link.(inbox := link.inbox[1..])
  }

  lemma {:induction false} TakenIsSound(link: Link, conn: Conn, rings: map<RingId, Made>, now: nat, generation: nat)
    requires link.inbox != [] && Sound(link, conn, rings, now, generation)
    ensures Sound(Taken(link), conn, rings, now, generation)
    ensures link.inbox[0] != Failure ==> Attached(Taken(link))
  {
  }

  /** The cases of an event that matter for the invariant. */
  lemma {:induction false} HandledCases(w: World, link: Link)
    requires Inv(w.broker) && link.inbox != []
    requires w.broker.writer == Some(link.peer.conn) ==> link.peer.isWriter
    ensures var s, o, head, conn := w.broker, Handled(w, link), link.inbox[0], link.peer.conn;
            && Progress(s, o)
            && (o.state.writer.Some? ==>
                  (o.state.writer == s.writer || (o.state.writer == Some(conn) && link.peer.isWriter))
                  && (head == Failure ==> o.state.writer != Some(conn)))
            && (head == Failure ==> o.state.reader != Some(conn))
            && (o.state.reader.Some? ==>
                  || o.state.reader == s.reader
                  || (&& s.reader == None && o.state.reader == Some(conn) && o.state.generation != s.generation
                      && !link.peer.isWriter && link.peer.euid != ROOT && link.peer.euid != NOBODY))
            && (o.state.pendingGrant.Some? ==>
                  || (o.state.pendingGrant == s.pendingGrant && o.state.reader == s.reader)
                  || (s.reader == None && o.state.reader.Some? && head == Received(Open(o.state.pendingGrant))))
            && (forall e | e in o.sent && e.Granted? ::
                  head == Received(Publish(s.generation, Some(e.memory))) && Uids(w.links, s.reader) == w.console)
            && (o.state.pendingGrant.Some? && o.state.generation == s.generation && s.writer == Some(conn) ==>
                  head.Received? && (head.message.Publish? ==> head.message.generation != s.generation))
  {
    match link.inbox[0]
    case Failure => FailureProgresses(w.broker, link.peer.conn);
    case Received(message) =>
      MessageProgresses(w.broker, link.peer, message, Uids(w.links, w.broker.reader), w.console);
  }

  lemma {:induction false} StillInFlight(link: Link, generation: nat)
    requires link.inbox != [] && InFlight(link, generation)
    requires link.inbox[0].Received?
    requires link.inbox[0].message.Publish? ==> link.inbox[0].message.generation != generation
    ensures InFlight(Taken(link), generation)
  {
    if Answering(link.inbox, generation) {
      var memory :| Received(Publish(generation, memory)) in link.inbox;
      assert Received(Publish(generation, memory)) in link.inbox[1..];
    }
  }

  lemma {:induction false} DeliveryIsLegal(w: World, conn: Conn)
    requires WorldInv(w) && Enabled(w, Deliver(conn))
    ensures Legal(w, w.links[conn := Taken(w.links[conn])], Handled(w, w.links[conn]))
  {
    var link := w.links[conn];
    var links, o := w.links[conn := Taken(link)], Handled(w, link);
    HandledCases(w, link);
    TakenIsSound(link, conn, w.rings, w.now, w.broker.generation);
    if o.state.pendingGrant.Some? && o.state.generation == w.broker.generation && o.state.writer == Some(conn) {
      StillInFlight(link, w.broker.generation);
    }
  }

  lemma {:induction false} DropIsLegal(w: World)
    requires WorldInv(w)
    ensures Legal(w, w.links, DropReader(w.broker))
  {
    SessionChangeProgresses(w.broker);
  }

  // ---- The other steps ----

  /** A change of one connection that the broker's state does not notice. */
  lemma {:induction false} LinkChangeKeepsInv(w: World, conn: Conn, link: Link, w': World)
    requires WorldInv(w) && conn in w.links
    requires w.now <= w'.now && w' == w.(now := w'.now, links := w.links[conn := link])
    requires Sound(link, conn, w.rings, w'.now, w.broker.generation) && link.peer == w.links[conn].peer
    requires Attached(w.links[conn]) ==> Attached(link)
    requires w.broker.writer == Some(conn) && w.broker.pendingGrant.Some?
             && InFlight(w.links[conn], w.broker.generation) ==>
               InFlight(link, w.broker.generation)
    ensures WorldInv(w')
  {
  }

  lemma {:induction false} ConnectKeepsInv(w: World, peer: Peer)
    requires WorldInv(w) && Enabled(w, Connect(peer))
    ensures WorldInv(Next(w, Connect(peer)))
  {
  }

  lemma {:induction false} LongerInbox(link: Link, more: Input, generation: nat)
    ensures var link' := link.(inbox := link.inbox + [more]);
            InFlight(link, generation) ==> InFlight(link', generation)
  {
    if Answering(link.inbox, generation) {
      var memory :| Received(Publish(generation, memory)) in link.inbox;
      assert Received(Publish(generation, memory)) in link.inbox + [more];
    }
  }

  lemma {:induction false} SendKeepsInv(w: World, conn: Conn, message: Message)
    requires WorldInv(w) && Enabled(w, Send(conn, message))
    ensures WorldInv(Next(w, Send(conn, message)))
  {
    var link := w.links[conn];
    LongerInbox(link, Received(message), w.broker.generation);
    LinkChangeKeepsInv(w, conn, link.(inbox := link.inbox + [Received(message)]), Next(w, Send(conn, message)));
  }

  lemma {:induction false} CloseKeepsInv(w: World, conn: Conn)
    requires WorldInv(w) && Enabled(w, Close(conn))
    ensures WorldInv(Next(w, Close(conn)))
  {
    var link := w.links[conn];
    var link' := link.(closed := true, inbox := link.inbox + [Failure], outbox := [], current := None);
    LinkChangeKeepsInv(w, conn, link', Next(w, Close(conn)));
  }

  lemma {:induction false} WriterFailsKeepsInv(w: World, conn: Conn)
    requires WorldInv(w) && Enabled(w, WriterFails(conn))
    ensures WorldInv(Next(w, WriterFails(conn)))
  {
    LinkChangeKeepsInv(w, conn, w.links[conn].(outbox := [], current := None), Next(w, WriterFails(conn)));
  }

  lemma {:induction false} TouchKeepsInv(w: World, ring: RingId, op: History.Operation)
    requires WorldInv(w) && Enabled(w, Touch(ring, op))
    ensures WorldInv(Next(w, Touch(ring, op)))
  {
    assert ring in w.rings;
  }

  /** A new ring has a name nobody has seen. */
  lemma {:induction false} NewRingKeepsInv(w: World, conn: Conn, generation: nat, w': World)
    requires WorldInv(w) && generation <= w.broker.generation
    requires w' == w.(now := w.now + 1, rings := w.rings[w.now := Made(conn, generation)],
                      history := w.history[w.now := []])
    ensures WorldInv(w')
  {
    assert w.now !in w.rings;
  }

  lemma {:induction false} RotatedLink(link: Link, conn: Conn, ring: Option<RingId>, rings: map<RingId, Made>,
                                       now: nat, generation: nat)
    requires link.outbox != [] && Sound(link, conn, rings, now, generation)
    requires ring.Some? ==> ring.value in rings && rings[ring.value] == Made(conn, link.outbox[0].generation)
    requires !link.outbox[0].enabled ==> ring == None
    ensures var link' := RotatedTo(link, ring);
            && Sound(link', conn, rings, now, generation) && link'.peer == link.peer
            && (Attached(link) ==> Attached(link'))
            && (InFlight(link, generation) ==> InFlight(link', generation))
  {
    var answer := Received(Publish(link.outbox[0].generation, ring));
    var link' := RotatedTo(link, ring);
    assert link.outbox == [link.outbox[0]] + link.outbox[1..];
    if link.outbox[0].enabled && !link.closed {
      LongerInbox(link.(outbox := link'.outbox, current := ring, seen := link'.seen), answer, generation);
      assert answer in link'.inbox;
    }
  }

  lemma {:induction false} RotationKeepsInv(w: World, conn: Conn, allocates: bool)
    requires WorldInv(w) && Enabled(w, WriterRotates(conn, allocates))
    ensures WorldInv(Next(w, WriterRotates(conn, allocates)))
  {
    var link, w' := w.links[conn], Next(w, WriterRotates(conn, allocates));
    var ring := NewRing(w, link, allocates);
    var generation := link.outbox[0].generation;
    assert link.outbox[0] in link.outbox;
    if ring == None {
      RotatedLink(link, conn, ring, w.rings, w'.now, w.broker.generation);
      LinkChangeKeepsInv(w, conn, RotatedTo(link, ring), w');
    } else {
      var w1 := w.(now := w.now + 1, rings := w.rings[w.now := Made(conn, generation)],
                   history := w.history[w.now := []]);
      NewRingKeepsInv(w, conn, generation, w1);
      RotatedLink(link, conn, ring, w1.rings, w1.now, w.broker.generation);
      LinkChangeKeepsInv(w1, conn, RotatedTo(link, ring), w');
    }
  }

  lemma {:induction false} StepKeepsInv(w: World, step: Step)
    requires WorldInv(w) && Enabled(w, step)
    ensures WorldInv(Next(w, step))
  {
    match step
    case Connect(peer) => ConnectKeepsInv(w, peer);
    case Send(conn, message) => SendKeepsInv(w, conn, message);
    case Close(conn) => CloseKeepsInv(w, conn);
    case Deliver(conn) =>
      DeliveryIsLegal(w, conn);
      ReactKeepsInv(w, w.links[conn := Taken(w.links[conn])], Handled(w, w.links[conn]));
    case WriterRotates(conn, allocates) => RotationKeepsInv(w, conn, allocates);
    case WriterFails(conn) => WriterFailsKeepsInv(w, conn);
    case ConsoleChanges(_) =>
    case SessionNotice =>
      DropIsLegal(w);
      ReactKeepsInv(w, w.links, DropReader(w.broker));
    case Touch(ring, op) => TouchKeepsInv(w, ring, op);
  }
}
