/** What becomes of the connections the broker lets go of, over every run of the whole system. */
module Dismissal {
  import opened Types
  import opened Broker
  import opened Session
  import opened Authorisation

  /** The connection exists and has ended. */
  predicate Ended(w: World, c: Conn) {
    c in w.links && w.links[c].closed
  }

  lemma {:induction false} CancelledIsClosed(links: map<Conn, Link>, effects: seq<Effect>, c: Conn)
    requires c in links && Cancelled(c) in effects
    ensures c in ApplyEffects(links, effects) && ApplyEffects(links, effects)[c].closed
    decreases |effects|
  {
    var links' := ApplyEffect(links, effects[0]);
    if effects[0] == Cancelled(c) {
      EffectsEvolve(links', effects[1..], c);
    } else {
      CancelledIsClosed(links', effects[1..], c);
    }
  }

  lemma {:induction false} OnlyCancelledIsClosed(links: map<Conn, Link>, effects: seq<Effect>, c: Conn)
    requires c in links && Cancelled(c) !in effects
    ensures c in ApplyEffects(links, effects) && ApplyEffects(links, effects)[c].closed == links[c].closed
    decreases |effects|
  {
    if effects != [] {
      OnlyCancelledIsClosed(ApplyEffect(links, effects[0]), effects[1..], c);
    }
  }

  /** The links the broker's answer is applied to have ended as before. */
  lemma {:induction false} Reacts(w: World, links: map<Conn, Link>, o: Outcome, c: Conn)
    requires c in links && links.Keys == w.links.Keys && links[c].closed == w.links[c].closed
    ensures Ended(React(w, links, o), c) <==> Ended(w, c) || Cancelled(c) in o.sent
  {
    if Cancelled(c) in o.sent {
      CancelledIsClosed(links, o.sent, c);
    } else {
      OnlyCancelledIsClosed(links, o.sent, c);
    }
  }

  /** The message of the step is misplaced. */
  predicate Misbehaves(w: World, step: Step, c: Conn) {
    && step == Deliver(c) && c in w.links && w.links[c].inbox != [] && w.links[c].inbox[0].Received?
    && Misplaced(w.broker, w.links[c].peer, w.links[c].inbox[0].message)
  }

  /**
   Main result: in every step exactly three things end a connection: its own end, the loss of its place as the
   reader, or a message it had no business to send.
   */
  lemma {:induction false} EndsExactlyWhen(w: World, step: Step, c: Conn)
    requires WorldInv(w) && Enabled(w, step) && c in w.links && !w.links[c].closed
    ensures Ended(Next(w, step), c) <==>
            || step == Close(c)
            || (w.broker.reader == Some(c) && Next(w, step).broker.reader != Some(c))
            || Misbehaves(w, step, c)
  {
    match step
    case Deliver(conn) =>
      var link := w.links[conn];
      var o := Handled(w, link);
      Reacts(w, w.links[conn := link.(inbox := link.inbox[1..])], o, c);
      match link.inbox[0] {
        case Failure => EndsCancel(w.broker, conn, c);
        case Received(message) =>
          MessageCancels(w.broker, link.peer, message, Uids(w.links, w.broker.reader), w.console, c);
      }
    case SessionNotice =>
      Reacts(w, w.links, DropReader(w.broker), c);
      EndsCancel(w.broker, 0, c);
    case _ =>
  }

  /** A connection that has ended stays so. */
  lemma {:induction false} EndedStays(w: World, step: Step, c: Conn)
    requires Enabled(w, step) && Ended(w, c)
    ensures Ended(Next(w, step), c)
  {
    match step
    case Deliver(conn) =>
      var link := w.links[conn];
      Reacts(w, w.links[conn := link.(inbox := link.inbox[1..])], Handled(w, link), c);
    case SessionNotice => Reacts(w, w.links, DropReader(w.broker), c);
    case _ =>
  }

  /** In one step the reader keeps its place or its connection has ended. */
  lemma {:induction false} ReaderStaysOrEnds(w: World, step: Step, c: Conn)
    requires WorldInv(w) && Enabled(w, step) && w.broker.reader == Some(c)
    ensures Next(w, step).broker.reader == Some(c) || Ended(Next(w, step), c)
  {
    if w.links[c].closed {
      EndedStays(w, step, c);
    } else {
      EndsExactlyWhen(w, step, c);
    }
  }

  /**
   Main result: a connection that has been the broker's reader and no longer is has ended, so nobody keeps the
   connection of a session that is over, and whoever waits for an answer on it is told.
   */
  lemma {:induction false} FormerReaderHasEnded(trace: seq<World>, steps: seq<Step>, i: nat, j: nat, c: Conn)
    requires Run(trace, steps) && i <= j <= |steps|
    requires trace[i].broker.reader == Some(c)
    ensures trace[j].broker.reader == Some(c) || Ended(trace[j], c)
    decreases j
  {
    if i < j {
      FormerReaderHasEnded(trace, steps, i, j - 1, c);
      RunKeepsInv(trace, steps, j - 1);
      if trace[j - 1].broker.reader == Some(c) {
        ReaderStaysOrEnds(trace[j - 1], steps[j - 1], c);
      } else {
        EndedStays(trace[j - 1], steps[j - 1], c);
      }
    }
  }
}
