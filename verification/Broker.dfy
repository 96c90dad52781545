/**
 The authorisation broker of broker/main.c: which reader gets which ring.

 Connections, rings and open requests are known by numbers. The functions give the state after an event and
 the messages sent meanwhile; the class `Broker` is the static state, changed in place by each handler.
 */
module Broker {
  import opened Types

  type Conn = nat
  type RingId = nat
  type Request = nat
  type Uid = UInt32

  const ROOT: Uid := 0
  const NOBODY: Uid := 0xFFFF_FFFF  // (uid_t)-1

  datatype Error = Busy | Denied

  /** The `op` of a message and what comes with it; anything else is `Unknown`. */
  datatype Message =
    | Hello
    | Publish(generation: nat, memory: Option<RingId>)
    | Open(reply: Option<Request>)  // no reply object when the message did not ask for one
    | Unknown

  /** What the handlers send. */
  datatype Effect =
    | Rotation(to: Conn, generation: nat, enabled: bool)
    | Granted(to: Conn, request: Request, memory: RingId)
    | Refused(to: Conn, request: Request, error: Error)
    | Cancelled(peer: Conn)

  datatype State = State(
    writer: Option<Conn>,
    reader: Option<Conn>,
    pendingGrant: Option<Request>,
    generation: nat,
    isOpen: bool)

  datatype Outcome = Outcome(state: State, sent: seq<Effect>)

  /** A connection to one of the two listeners, with the user it runs as. */
  datatype Peer = Peer(conn: Conn, isWriter: bool, euid: Uid)

  /** A rotation starts the next generation and is announced to the writer, if there is one. */
  function Rotate(s: State, enabled: bool): Outcome {
    Outcome(s.(generation := s.generation + 1),
            if s.writer == None then [] else [Rotation(s.writer.value, s.generation + 1, enabled)])
  }

  function DropReader(s: State): Outcome {
    var outcome := Rotate(s.(pendingGrant := None, reader := None, isOpen := false), false);
    outcome.(sent := (if s.reader == None then [] else [Cancelled(s.reader.value)]) + outcome.sent)
  }

  function HandleFailure(s: State, peer: Conn): Outcome {
    var first := if s.reader == Some(peer) then DropReader(s) else Outcome(s, []);
    if first.state.writer == Some(peer) then
      var second := DropReader(first.state.(writer := None));
      Outcome(second.state, first.sent + second.sent)
    else first
  }

  function HandleHello(s: State, peer: Conn): Outcome {
    if s.writer.Some? && s.writer != Some(peer) then Outcome(s, [Cancelled(peer)])
    else Rotate(s.(writer := Some(peer)), s.reader.Some? && s.isOpen)
  }

  /** A publication that answers the current generation of a pending open. */
  predicate Answers(s: State, generation: nat) {
    s.reader.Some? && s.isOpen && s.pendingGrant.Some? && generation == s.generation
  }

  function HandlePublish(s: State, generation: nat, memory: Option<RingId>, readerUid: Uid, console: Uid): Outcome {
    if !Answers(s, generation) then Outcome(s, [])
    else if readerUid != console || memory == None then DropReader(s)
    else Outcome(s.(pendingGrant := None), [Granted(s.reader.value, s.pendingGrant.value, memory.value)])
  }

  function HandleOpen(s: State, peer: Peer, reply: Option<Request>, console: Uid): Outcome {
    if reply == None then Outcome(s, [Cancelled(peer.conn)])
    else if peer.euid == ROOT || peer.euid == NOBODY || peer.euid != console || s.reader.Some? then
      var error := if peer.euid != ROOT && peer.euid == console && s.reader.Some? then Busy else Denied;
      Outcome(s, [Refused(peer.conn, reply.value, error)])
    else Rotate(s.(pendingGrant := reply, reader := Some(peer.conn), isOpen := true), true)
  }

  function HandleMessage(s: State, peer: Peer, message: Message, readerUid: Uid, console: Uid): Outcome {
    match message
    case Hello => if peer.isWriter then HandleHello(s, peer.conn) else Outcome(s, [Cancelled(peer.conn)])
    case Publish(generation, memory) =>
      if peer.isWriter && s.writer == Some(peer.conn) then HandlePublish(s, generation, memory, readerUid, console)
      else Outcome(s, [Cancelled(peer.conn)])
    case Open(reply) =>
      if !peer.isWriter then HandleOpen(s, peer, reply, console) else Outcome(s, [Cancelled(peer.conn)])
    case Unknown => Outcome(s, [Cancelled(peer.conn)])
  }

  // ---- What every event keeps ----

  function Initial(): State {
    State(None, None, None, 0, false)
  }

  /** The reader is set exactly while a session is open, and only then can a grant be pending. */
  predicate Inv(s: State) {
    && (s.reader.Some? <==> s.isOpen)
    && (s.pendingGrant.Some? ==> s.isOpen)
  }

  /** What an event may do to the broker. */
  predicate Progress(s: State, o: Outcome) {
    && Inv(o.state) && s.generation <= o.state.generation
    // A grant pending afterwards is either the same one, with the rotation it waits for announced again if
    // the generation has moved, or a new one that waits for a new generation.
    && (o.state.pendingGrant.Some? && o.state.generation == s.generation ==>
          o.state.pendingGrant == s.pendingGrant && o.state.reader == s.reader && o.state.writer == s.writer)
    && (o.state.pendingGrant.Some? && o.state.generation != s.generation && o.state.writer.Some? ==>
          Rotation(o.state.writer.value, o.state.generation, true) in o.sent)
    // Every rotation announces a new generation.
    && (forall e | e in o.sent && e.Rotation? ::
          s.generation < e.generation <= o.state.generation && (s.writer == Some(e.to) || o.state.writer == Some(e.to)))
    // A grant answers the pending open and is the only thing sent.
    && (forall e | e in o.sent && e.Granted? ::
          o.sent == [e] && s.reader == Some(e.to) && s.pendingGrant == Some(e.request)
          && o.state == s.(pendingGrant := None))
  }

  lemma {:induction false} FailureProgresses(s: State, peer: Conn)
    requires Inv(s)
    ensures Progress(s, HandleFailure(s, peer))
    ensures HandleFailure(s, peer).state.reader != Some(peer) && HandleFailure(s, peer).state.writer != Some(peer)
  {
  }

  lemma {:induction false} MessageProgresses(s: State, peer: Peer, message: Message, readerUid: Uid, console: Uid)
    requires Inv(s)
    ensures Progress(s, HandleMessage(s, peer, message, readerUid, console))
  {
  }

  lemma {:induction false} SessionChangeProgresses(s: State)
    requires Inv(s)
    ensures Progress(s, DropReader(s)) && DropReader(s).state.pendingGrant == None
  {
  }

  /**
   A grant goes out exactly when the writer answers the current generation with memory while the reader's
   user is at the console, and it uses up the pending open.
   */
  lemma {:induction false} GrantCondition(s: State, peer: Peer, message: Message, readerUid: Uid, console: Uid)
    requires Inv(s)
    ensures var o := HandleMessage(s, peer, message, readerUid, console);
            (exists e :: e in o.sent && e.Granted?)
            <==> (&& peer.isWriter && s.writer == Some(peer.conn) && s.pendingGrant.Some?
                  && message.Publish? && message.generation == s.generation && message.memory.Some?
                  && readerUid == console)
  {
    var o := HandleMessage(s, peer, message, readerUid, console);
    if && peer.isWriter && s.writer == Some(peer.conn) && s.pendingGrant.Some?
       && message.Publish? && message.generation == s.generation && message.memory.Some? && readerUid == console {
      assert o.sent[0].Granted?;
    }
  }

  /**
   An open is accepted exactly for the console user, neither root nor nobody, while no reader is set. Only the
   console user is told that another reader is in the way.
   */
  lemma {:induction false} OpenCondition(s: State, peer: Peer, reply: Request, console: Uid)
    requires Inv(s)
    ensures var o := HandleOpen(s, peer, Some(reply), console);
            var accepted := peer.euid == console && console != 0 && console != 0xFFFF_FFFF && s.reader == None;
            && ((o.state.pendingGrant == Some(reply) && o.state.reader == Some(peer.conn)
                 && o.state.generation == s.generation + 1) <==> accepted)
            && (!accepted ==>
                  && o.state == s
                  && o.sent == [Refused(peer.conn, reply, if s.reader.Some? && peer.euid == console && console != ROOT
                                                          then Busy else Denied)])
  {
  }

  /** The same writer saying hello again moves a pending grant on to a new generation instead of losing it. */
  lemma {:induction false} RepeatedHello(s: State, peer: Conn)
    requires Inv(s) && s.writer == Some(peer)
    ensures var o := HandleHello(s, peer);
            && o.state == s.(generation := s.generation + 1)
            && o.sent == [Rotation(peer, s.generation + 1, s.isOpen)]
            && forall g: nat | g <= s.generation :: !Answers(o.state, g)
  {
  }

  // ---- Whom the broker cuts off ----

  /** A message its sender has no business to send. */
  predicate Misplaced(s: State, peer: Peer, message: Message) {
    match message
    case Hello => !peer.isWriter || (s.writer.Some? && s.writer.value != peer.conn)
    case Publish(_, _) => !peer.isWriter || s.writer != Some(peer.conn)
    case Open(reply) => peer.isWriter || reply == None
    case Unknown => true
  }

  /** The reader c loses its place. */
  predicate LetsGo(s: State, o: Outcome, c: Conn) {
    s.reader == Some(c) && o.state.reader != Some(c)
  }

  /** The writer is told to capture exactly while there is a reader to capture for. */
  ghost predicate CapturesForReader(o: Outcome) {
    forall e | e in o.sent && e.Rotation? :: e.enabled <==> o.state.reader.Some?
  }

  /**
   Main result: a message cancels a connection exactly when that connection was the reader and loses its place,
   or sent the message and had no business to. The reader loses its place to a message exactly when the writer
   answers its pending open for a user who has left the console, or without memory.
   */
  lemma {:induction false} MessageCancels(s: State, peer: Peer, message: Message, readerUid: Uid, console: Uid,
                                          c: Conn)
    requires Inv(s)
    ensures var o := HandleMessage(s, peer, message, readerUid, console);
            && (Cancelled(c) in o.sent <==> LetsGo(s, o, c) || (c == peer.conn && Misplaced(s, peer, message)))
            && (LetsGo(s, o, c) <==>
                  && s.reader == Some(c) && s.pendingGrant.Some? && peer.isWriter && s.writer == Some(peer.conn)
                  && message.Publish? && message.generation == s.generation
                  && (readerUid != console || message.memory == None))
            && CapturesForReader(o)
  {
    var o := HandleMessage(s, peer, message, readerUid, console);
    if |o.sent| > 0 {
      assert o.sent[0] in o.sent;
    }
  }

  /** A failure, of the reader or of the writer, and a change of session let every reader go, and tell it. */
  lemma {:induction false} EndsCancel(s: State, peer: Conn, c: Conn)
    requires Inv(s)
    ensures var o := HandleFailure(s, peer);
            && (Cancelled(c) in o.sent <==> LetsGo(s, o, c))
            && (LetsGo(s, o, c) <==> s.reader == Some(c) && (s.reader == Some(peer) || s.writer == Some(peer)))
            && CapturesForReader(o)
    ensures var o := DropReader(s);
            && (Cancelled(c) in o.sent <==> LetsGo(s, o, c))
            && (LetsGo(s, o, c) <==> s.reader == Some(c))
            && CapturesForReader(o)
  {
    var f, d := HandleFailure(s, peer), DropReader(s);
    if s.reader.Some? {
      assert d.sent[0] == Cancelled(s.reader.value);
      assert f.sent != [] ==> f.sent[0] == Cancelled(s.reader.value);
    }
  }

  // ---- The broker itself ----

  /** All state is confined to one queue, so each handler runs to its end; `sent` is what it has sent. */
  class Broker {
    var writer: Option<Conn>
    var reader: Option<Conn>
    var pendingGrant: Option<Request>
    var generation: nat
    var isOpen: bool
    var sent: seq<Effect>

    ghost function Value(): State
      reads this
    {
      State(writer, reader, pendingGrant, generation, isOpen)
    }

    ghost predicate Valid()
      reads this
    {
      Inv(Value())
    }

    constructor ()
      ensures Valid() && Value() == Initial() && sent == []
    {
      writer, reader, pendingGrant := None, None, None;
      generation, isOpen, sent := 0, false, [];
    }

    method Send(effect: Effect)
      modifies this`sent
      ensures sent == old(sent) + [effect]
    {
      sent := sent + [effect];
    }

    method RotateWriter(enabled: bool)
      modifies this`generation, this`sent
      ensures var o := Rotate(old(Value()), enabled); Value() == o.state && sent == old(sent) + o.sent
    {
      generation := generation + 1;
      if writer == None {
        return;
      }
      Send(Rotation(writer.value, generation, enabled));
    }

    method Drop()
      modifies this
      ensures var o := DropReader(old(Value())); Value() == o.state && sent == old(sent) + o.sent
    {
      if pendingGrant.Some? {
        pendingGrant := None;
      }
      if reader.Some? {
        Send(Cancelled(reader.value));
        reader := None;
      }
      isOpen := false;
      RotateWriter(false);
    }

    method SessionChanged()
      requires Valid()
      modifies this
      ensures Valid() && pendingGrant == None && reader == None && writer == old(writer)
      ensures var o := DropReader(old(Value())); Value() == o.state && sent == old(sent) + o.sent
    {
      Drop();
    }

    method Failed(peer: Conn)
      requires Valid()
      modifies this
      ensures Valid()
      ensures var o := HandleFailure(old(Value()), peer); Value() == o.state && sent == old(sent) + o.sent
    {
      FailureProgresses(Value(), peer);
      if reader == Some(peer) {
        Drop();
      }
      if writer == Some(peer) {
        writer := None;
        Drop();
      }
    }

    method Received(peer: Peer, message: Message, readerUid: Uid, console: Uid)
      requires Valid()
      modifies this
      ensures Valid()
      ensures var o := HandleMessage(old(Value()), peer, message, readerUid, console);
              Value() == o.state && sent == old(sent) + o.sent
      ensures peer.isWriter && message.Hello? && old(writer) == Some(peer.conn) ==>
                pendingGrant == old(pendingGrant) && forall g: nat | g <= old(generation) :: !Answers(Value(), g)
    {
      MessageProgresses(Value(), peer, message, readerUid, console);
      if writer == Some(peer.conn) {
        RepeatedHello(Value(), peer.conn);
      }
      if peer.isWriter && message.Hello? {
        if writer.Some? && writer != Some(peer.conn) {
          Send(Cancelled(peer.conn));
          return;
        }
        if writer == None {
          writer := Some(peer.conn);
        }
        RotateWriter(reader.Some? && isOpen);
      } else if peer.isWriter && writer == Some(peer.conn) && message.Publish? {
        if reader == None || !isOpen || pendingGrant == None || message.generation != generation {
          return;
        }
        if readerUid != console {
          Drop();
          return;
        }
        if message.memory == None {
          Drop();
          return;
        }
        var grant := pendingGrant.value;
        pendingGrant := None;
        Send(Granted(reader.value, grant, message.memory.value));
      } else if !peer.isWriter && message.Open? {
        OpenSession(peer, message.reply, console);
      } else {
        Send(Cancelled(peer.conn));
      }
    }

    method OpenSession(peer: Peer, reply: Option<Request>, console: Uid)
      requires Valid()
      modifies this
      ensures var o := HandleOpen(old(Value()), peer, reply, console); Value() == o.state && sent == old(sent) + o.sent
      ensures reply.Some? ==>
                ((pendingGrant == reply && reader == Some(peer.conn) && generation == old(generation) + 1) <==>
                 (peer.euid == console && console != ROOT && console != NOBODY && old(reader) == None))
    {
      if reply.Some? {
        OpenCondition(Value(), peer, reply.value, console);
      }
      if reply == None {
        Send(Cancelled(peer.conn));
        return;
      }
      var uid := peer.euid;
      if uid == ROOT || uid == NOBODY || uid != console || reader.Some? {
        Send(Refused(peer.conn, reply.value, if uid != ROOT && uid == console && reader.Some? then Busy else Denied));
        return;
      }
      pendingGrant := reply;
      reader := Some(peer.conn);
      isOpen := true;
      RotateWriter(true);
    }
  }
}
