/** Handing one announcement to a node's subscribers. */
module Fanout {
  import opened FlowControl
  import FlowLaws
  import opened Connections

  /** One visited connection. */
  method DeliverTo(conn: Connection, f: Frame) returns (rejected: bool)
    modifies conn`queue, conn`queueBytes, conn`messagesDropped, conn`accepted
    ensures conn.View() == OfferStep(conn.limits, old(conn.View()), f)
    ensures rejected <==> Refuses(conn.limits, old(conn.View()), f)
    ensures FlowLaws.Offered(conn.limits, old(conn.View()), f, conn.View(), rejected)
  {
    rejected := false;
    if conn.status.Active? {
      var outcome := conn.Enqueue(f);
      rejected := outcome.SlowConsumer?;
    }
  }

  /** The loop of `deliver_local`, over the subscribers in an arbitrary order: each one
      ends exactly as if the frame had been offered to it alone. */
  method DeliverToEach(targets: set<Connection>, f: Frame) returns (rejected: set<Connection>)
    modifies targets`queue, targets`queueBytes, targets`messagesDropped, targets`accepted
    ensures rejected <= targets
    ensures forall conn :: conn in targets ==>
      FlowLaws.Offered(conn.limits, old(conn.View()), f, conn.View(), conn in rejected)
  {
    rejected := {};
    var left := targets;
    while left != {}
      invariant left <= targets && rejected <= targets - left
      invariant forall conn :: conn in left ==> conn.View() == old(conn.View())
      invariant forall conn :: conn in targets - left ==>
        FlowLaws.Offered(conn.limits, old(conn.View()), f, conn.View(), conn in rejected)
    {
      var conn :| conn in left;
      var slow := DeliverTo(conn, f);
      if slow {
        rejected := rejected + {conn};
      }
      left := left - {conn};
    }
  }

  /** `deliver_local`: a subscriber that is not ACTIVE is skipped, an ACTIVE one gets the
      frame if it fits and is condemned if not, every other connection is untouched, and
      the ids of the condemned are returned. */
  method DeliverLocal(registry: ConnectionRegistry, channel: string, f: Frame)
    returns (disconnected: set<string>)
    requires registry.Valid()
    modifies registry.byId.Values`queue, registry.byId.Values`queueBytes,
             registry.byId.Values`messagesDropped, registry.byId.Values`accepted
    ensures registry.Valid()
    ensures disconnected <= registry.byId.Keys
    ensures forall id :: id in registry.byId ==>
      var conn := registry.byId[id];
      if channel in conn.subscriptions
      then FlowLaws.Offered(conn.limits, old(conn.View()), f, conn.View(), id in disconnected)
      else conn.View() == old(conn.View()) && id !in disconnected
  {
    var targets := registry.LocalSubscribers(channel);
    var rejected := DeliverToEach(targets, f);
    disconnected := set conn | conn in rejected :: conn.connectionId;
  }

  // ---------------------------------------------------------------- no silent loss over a run

  /** One subscriber: its connection, whether its termination has been scheduled, and
      the messages due on it: those the listener handed to it while it was ACTIVE and those
      a replay has queued, as they came. */
  datatype Subscriber = Subscriber(conn: Conn, condemned: bool, due: seq<Frame>)

  datatype Turn = Handing(frame: Frame) | Own(event: Event)

  predicate IsMessage(f: Frame) {
    f.content.Message? && f.priority.Normal?
  }

  /** A delivery of a message, or any step of the connection's own life; replays, ACKs,
      control frames, the sender and its end come in any order. */
  function Take(l: Limits, s: Subscriber, t: Turn): Subscriber {
    match t
    case Handing(f) =>
      if !s.conn.status.Active? || !IsMessage(f) then s
      else Subscriber(OfferStep(l, s.conn, f), s.condemned || Refuses(l, s.conn, f), s.due + [f])
    case Own(e) =>
      s.(conn := Step(l, s.conn, e),
         due := if e.Enqueue? && IsMessage(e.frame) && Admit(l, s.conn, e.frame).Accepted? then s.due + [e.frame]
                else s.due)
  }

  function TakeAll(l: Limits, c: Conn, turns: seq<Turn>): Subscriber {
    if turns == [] then Subscriber(c, false, [])
    else Take(l, TakeAll(l, c, turns[..|turns| - 1]), turns[|turns| - 1])
  }

  /** The subscriber's turns as steps of its connection. */
  function TurnEvents(l: Limits, c: Conn, turns: seq<Turn>): seq<Event> {
    if turns == [] then []
    else
      var front, t := turns[..|turns| - 1], turns[|turns| - 1];
      TurnEvents(l, c, front) + match t
        case Own(e) => [e]
        case Handing(f) => if TakeAll(l, c, front).conn.status.Active? && IsMessage(f) then [Enqueue(f)] else []
  }

  /** Deliveries and the connection's own life together are a run of it, so all that holds of
      runs holds of it. */
  lemma {:induction false} TurnsAreARun(l: Limits, c: Conn, turns: seq<Turn>)
    ensures TakeAll(l, c, turns).conn == Run(l, c, TurnEvents(l, c, turns))
  {
    if turns != [] {
      var front, t := turns[..|turns| - 1], turns[|turns| - 1];
      TurnsAreARun(l, c, front);
      var events := TurnEvents(l, c, front);
      if t.Own? {
        assert (events + [t.event])[..|events|] == events;
      } else if TakeAll(l, c, front).conn.status.Active? && IsMessage(t.frame) {
        assert (events + [Enqueue(t.frame)])[..|events|] == events;
      } else {
        assert events + [] == events;
      }
    }
  }

  function Messages(fs: seq<Frame>): seq<Frame> {
    if fs == [] then []
    else
      var rest := Messages(fs[..|fs| - 1]);
      if IsMessage(fs[|fs| - 1]) then rest + [fs[|fs| - 1]] else rest
  }

  lemma MessagesSnoc(fs: seq<Frame>, f: Frame)
    ensures Messages(fs + [f]) == if IsMessage(f) then Messages(fs) + [f] else Messages(fs)
  {
    assert (fs + [f])[..|fs|] == fs;
  }

  /** In every run, either every message handed to an ACTIVE subscriber has been
      accepted, in order and with only replayed ones in between, or its termination has
      been scheduled; and never both. */
  lemma {:induction false} AcceptedOrCondemned(l: Limits, c: Conn, turns: seq<Turn>)
    ensures var s := TakeAll(l, c, turns);
      && (!s.condemned ==> Messages(s.conn.accepted) == Messages(c.accepted) + s.due)
      && (s.condemned ==> |Messages(s.conn.accepted)| < |Messages(c.accepted)| + |s.due|)
  {
    if turns != [] {
      AcceptedOrCondemned(l, c, turns[..|turns| - 1]);
      TakeKeeps(l, Messages(c.accepted), TakeAll(l, c, turns[..|turns| - 1]), turns[|turns| - 1]);
    }
  }

  ghost predicate Balanced(base: seq<Frame>, s: Subscriber) {
    && (!s.condemned ==> Messages(s.conn.accepted) == base + s.due)
    && (s.condemned ==> |Messages(s.conn.accepted)| < |base| + |s.due|)
  }

  lemma TakeKeeps(l: Limits, base: seq<Frame>, s: Subscriber, t: Turn)
    requires Balanced(base, s)
    ensures Balanced(base, Take(l, s, t))
  {
    match t {
      case Handing(f) => MessagesSnoc(s.conn.accepted, f);
      case Own(e) =>
        AcceptedStep(l, s.conn, e);
        if e.Enqueue? {
          MessagesSnoc(s.conn.accepted, e.frame);
        }
    }
  }
}
