/** Tenant namespaces, and what a node's connections can ever hold. */
module Tenancy {
  import opened Prelude
  import FC = FlowControl
  import FlowLaws
  import Resume

  // ---------------------------------------------------------------- the namespace check

  function Prefix(tenant: string): string {
    "t-" + tenant + ":"
  }

  /** `channel_belongs_to_tenant` */
  predicate Belongs(channel: string, tenant: string) {
    Prefix(tenant) <= channel
  }

  /** `namespaced_channel` */
  function NamespacedChannel(tenant: string, name: string): string {
    Prefix(tenant) + name
  }

  /** The channels of a tenant are exactly the names put in its namespace. */
  lemma BelongsExactly(channel: string, tenant: string)
    ensures Belongs(channel, tenant) <==> exists name :: channel == NamespacedChannel(tenant, name)
  {
    if Belongs(channel, tenant) {
      assert channel == NamespacedChannel(tenant, channel[|Prefix(tenant)|..]);
    }
  }

  /** Two tenants share a channel exactly when one id with its closing colon is a
      prefix of the other. */
  lemma SharedNamespaceExactly(a: string, b: string)
    ensures (exists channel :: Belongs(channel, a) && Belongs(channel, b)) <==>
      a + ":" <= b + ":" || b + ":" <= a + ":"
  {
    if a + ":" <= b + ":" {
      PrefixOfPrefix(a, b);
      assert Belongs(Prefix(b), a) && Belongs(Prefix(b), b);
    }
    if b + ":" <= a + ":" {
      PrefixOfPrefix(b, a);
      assert Belongs(Prefix(a), a) && Belongs(Prefix(a), b);
    }
    forall channel | Belongs(channel, a) && Belongs(channel, b)
      ensures a + ":" <= b + ":" || b + ":" <= a + ":"
    {
      IdInChannel(channel, a);
      IdInChannel(channel, b);
    }
  }

  /** The id and its colon follow the two characters every channel starts with. */
  lemma IdInChannel(channel: string, tenant: string)
    requires Belongs(channel, tenant)
    ensures |channel| >= 2 && tenant + ":" <= channel[2..]
  {
  }

  lemma PrefixOfPrefix(a: string, b: string)
    requires a + ":" <= b + ":"
    ensures Prefix(a) <= Prefix(b)
  {
    assert Prefix(a) == "t-" + (a + ":") && Prefix(b) == "t-" + (b + ":");
  }

  /** Different colon-free ids never share a channel. */
  lemma ColonFreeTenantsAreDisjoint(a: string, b: string, channel: string)
    requires ':' !in a && ':' !in b && Belongs(channel, a) && Belongs(channel, b)
    ensures a == b
  {
    SharedNamespaceExactly(a, b);
    if a + ":" <= b + ":" {
      ColonEnds(a, b);
    } else {
      ColonEnds(b, a);
    }
  }

  lemma ColonEnds(a: string, b: string)
    requires ':' !in b && a + ":" <= b + ":"
    ensures a == b
  {
    assert (a + ":")[|a|] == (b + ":")[|a|];
    assert forall i :: 0 <= i < |b| ==> b[i] != ':';
    assert (a + ":")[..|a|] == (b + ":")[..|a|];
  }

  // ---------------------------------------------------------------- a node's runs

  datatype Member = Member(tenant: string, channels: set<string>, conn: FC.Conn)

  datatype Action =
    | Connect(id: string, tenant: string)
    | Subscribe(id: string, channel: string)
    | Unsubscribe(id: string, channel: string)
    | ResumeChannel(id: string, channel: string, messages: seq<Entry>, sizes: seq<nat>)
    | DeliverLocal(channel: string, entry: Entry, size: nat)
    | ControlFrame(id: string, text: string, size: nat)
    | OwnStep(id: string, event: FC.Event)
    | Disconnect(id: string)

  function Received(l: FC.Limits, m: Member, channel: string, entry: Entry, size: nat): Member {
    if channel in m.channels
    then m.(conn := FC.OfferStep(l, m.conn, Resume.MessageFrame(channel, entry, size, true))) else m
  }

  /** A RESUME of one channel that reported no gap: the replay is queued and the
      channel subscribed, unless a frame raised. */
  function Replayed(l: FC.Limits, m: Member, channel: string, messages: seq<Entry>, sizes: seq<nat>): Member
    requires |sizes| == |messages|
  {
    var filled := Resume.EnqueueAll(l, m.conn, Resume.ReplayFrames(channel, messages, sizes));
    Member(m.tenant, if filled.ok then m.channels + {channel} else m.channels, filled.conn)
  }

  function Act(l: FC.Limits, node: map<string, Member>, a: Action): map<string, Member> {
    match a
    case Connect(id, tenant) =>
      if id in node then node else node[id := Member(tenant, {}, FC.FRESH)]
    case Subscribe(id, channel) =>
      if id in node && Belongs(channel, node[id].tenant)
      then node[id := node[id].(channels := node[id].channels + {channel})] else node
    case Unsubscribe(id, channel) =>
      if id in node then node[id := node[id].(channels := node[id].channels - {channel})] else node
    case ResumeChannel(id, channel, messages, sizes) =>
      if id in node && Belongs(channel, node[id].tenant) && |sizes| == |messages|
      then node[id := Replayed(l, node[id], channel, messages, sizes)] else node
    case DeliverLocal(channel, entry, size) =>
      map id | id in node :: Received(l, node[id], channel, entry, size)
    case ControlFrame(id, text, size) =>
      if id in node
      then node[id := node[id].(conn := FC.EnqueueStep(l, node[id].conn, FC.Frame(FC.Control(text), size, FC.High, None, None)))]
      else node
    case OwnStep(id, e) =>
      if id in node && !e.Enqueue?
      then node[id := node[id].(conn := FC.Step(l, node[id].conn, e))] else node
    case Disconnect(id) => node - {id}
  }

  function ActAll(l: FC.Limits, actions: seq<Action>): map<string, Member> {
    if actions == [] then map[]
    else Act(l, ActAll(l, actions[..|actions| - 1]), actions[|actions| - 1])
  }

  /** Which channels a connection has: SUBSCRIBE adds one of its own tenant's and no other,
      a RESUME adds one whose replay fits, UNSUBSCRIBE takes one away, and nothing done for
      another connection or delivered to this one changes them. */
  lemma ChannelsExactly(l: FC.Limits, node: map<string, Member>, a: Action, id: string)
    requires id in node && id in Act(l, node, a)
    ensures var m := node[id];
      Act(l, node, a)[id].channels == match a
        case Subscribe(i, channel) =>
          if i == id && Belongs(channel, m.tenant) then m.channels + {channel} else m.channels
        case Unsubscribe(i, channel) => if i == id then m.channels - {channel} else m.channels
        case ResumeChannel(i, channel, messages, sizes) =>
          if i == id && Belongs(channel, m.tenant) && |sizes| == |messages|
             && Resume.AllFit(l, m.conn, Resume.ReplayFrames(channel, messages, sizes))
          then m.channels + {channel} else m.channels
        case _ => m.channels
  {
    if a.ResumeChannel? && a.id == id && |a.sizes| == |a.messages| {
      var n := Resume.EnqueueAllExactly(l, node[id].conn, Resume.ReplayFrames(a.channel, a.messages, a.sizes));
    }
  }

  /** What reaches a connection: a delivery exactly if it has the channel, as an offer; a
      control frame always, at the end of its queue; and nothing that is done for another. */
  lemma FramesExactly(l: FC.Limits, node: map<string, Member>, id: string, other: string, channel: string, entry: Entry,
                      size: nat, text: string)
    requires id in node && other != id
    ensures var m, f := node[id], Resume.MessageFrame(channel, entry, size, true);
      var m' := Act(l, node, DeliverLocal(channel, entry, size))[id];
      if channel in m.channels
      then FlowLaws.Offered(l, m.conn, f, m'.conn, FC.Refuses(l, m.conn, f)) else m' == m
    ensures var m, f := node[id], FC.Frame(FC.Control(text), size, FC.High, None, None);
      && Act(l, node, ControlFrame(id, text, size))[id].conn.queue == m.conn.queue + [f]
      && Act(l, node, ControlFrame(other, text, size))[id] == m
  {
    FlowLaws.OfferExactly(l, node[id].conn, Resume.MessageFrame(channel, entry, size, true));
  }

  /** Connections come with nothing and go without trace, and leave the others alone. */
  lemma MembersExactly(l: FC.Limits, node: map<string, Member>, id: string, tenant: string)
    ensures Act(l, node, Disconnect(id)).Keys == node.Keys - {id}
    ensures Act(l, node, Connect(id, tenant)).Keys == node.Keys + {id}
    ensures id !in node ==> Act(l, node, Connect(id, tenant))[id] == Member(tenant, {}, FC.FRESH)
    ensures forall i :: i in node && i != id ==>
      Act(l, node, Disconnect(id))[i] == node[i] == Act(l, node, Connect(id, tenant))[i]
  {
  }

  // ---------------------------------------------------------------- separation

  ghost predicate FrameOf(tenant: string, f: FC.Frame) {
    && (f.content.Message? ==> Belongs(f.content.channel, tenant))
    && (f.channel.Some? ==> Belongs(f.channel.value, tenant))
  }

  /** Every frame ever accepted and every slot in the window is the tenant's own. */
  ghost predicate ConnOf(tenant: string, c: FC.Conn) {
    && FC.Conserved(c)
    && (forall f :: f in c.accepted ==> FrameOf(tenant, f))
    && (forall s :: s in c.inflight ==> Belongs(s.channel, tenant))
  }

  ghost predicate Separate(m: Member) {
    && (forall channel :: channel in m.channels ==> Belongs(channel, m.tenant))
    && ConnOf(m.tenant, m.conn)
  }

  lemma EnqueueKeeps(l: FC.Limits, tenant: string, c: FC.Conn, f: FC.Frame)
    requires ConnOf(tenant, c) && FrameOf(tenant, f)
    ensures ConnOf(tenant, FC.EnqueueStep(l, c, f))
  {
    FC.ConservedEnqueue(l, c, f);
  }

  lemma {:induction false} EnqueueAllKeeps(l: FC.Limits, tenant: string, c: FC.Conn, fs: seq<FC.Frame>)
    requires ConnOf(tenant, c) && forall f :: f in fs ==> FrameOf(tenant, f)
    ensures ConnOf(tenant, Resume.EnqueueAll(l, c, fs).conn)
  {
    if fs != [] {
      EnqueueAllKeeps(l, tenant, c, fs[..|fs| - 1]);
      EnqueueKeeps(l, tenant, Resume.EnqueueAll(l, c, fs[..|fs| - 1]).conn, fs[|fs| - 1]);
    }
  }

  lemma {:induction false} UnackedMembers(slots: seq<FC.Slot>, a: FC.Slot)
    ensures forall s :: s in FC.Unacked(slots, a) ==> s in slots
  {
    if slots != [] {
      UnackedMembers(slots[..|slots| - 1], a);
    }
  }

  /** The connection's own steps only drop window slots, or take the held frame's. */
  lemma OwnStepKeeps(l: FC.Limits, tenant: string, c: FC.Conn, e: FC.Event)
    requires ConnOf(tenant, c) && !e.Enqueue?
    ensures ConnOf(tenant, FC.Step(l, c, e))
  {
    FC.ConservedStep(l, c, e);
    FC.AcceptedStep(l, c, e);
    if e.Ack? {
      UnackedMembers(c.inflight, e.slot);
    }
    if e.CheckWindow? && c.sender.CheckingWindow? {
      var f := c.sender.frame;
      assert c.accepted[|c.sent|] == f;
      assert FrameOf(tenant, f);
      assert f.Tracked() ==> Belongs(f.Key().channel, tenant);
    }
  }

  lemma ReplayedKeeps(l: FC.Limits, m: Member, channel: string, messages: seq<Entry>, sizes: seq<nat>)
    requires Separate(m) && Belongs(channel, m.tenant) && |sizes| == |messages|
    ensures Separate(Replayed(l, m, channel, messages, sizes))
  {
    EnqueueAllKeeps(l, m.tenant, m.conn, Resume.ReplayFrames(channel, messages, sizes));
  }

  lemma ReceivedKeeps(l: FC.Limits, m: Member, channel: string, entry: Entry, size: nat)
    requires Separate(m)
    ensures Separate(Received(l, m, channel, entry, size))
  {
    if channel in m.channels {
      EnqueueKeeps(l, m.tenant, m.conn, Resume.MessageFrame(channel, entry, size, true));
    }
  }

  lemma ActKeeps(l: FC.Limits, node: map<string, Member>, a: Action)
    requires forall id :: id in node ==> Separate(node[id])
    ensures forall id :: id in Act(l, node, a) ==> Separate(Act(l, node, a)[id])
  {
    match a {
      case ResumeChannel(id, channel, messages, sizes) =>
        if id in node && Belongs(channel, node[id].tenant) && |sizes| == |messages| {
          ReplayedKeeps(l, node[id], channel, messages, sizes);
        }
      case DeliverLocal(channel, entry, size) =>
        forall id | id in node ensures Separate(Received(l, node[id], channel, entry, size)) {
          ReceivedKeeps(l, node[id], channel, entry, size);
        }
      case ControlFrame(id, text, size) =>
        if id in node {
          EnqueueKeeps(l, node[id].tenant, node[id].conn, FC.Frame(FC.Control(text), size, FC.High, None, None));
        }
      case OwnStep(id, e) =>
        if id in node && !e.Enqueue? {
          OwnStepKeeps(l, node[id].tenant, node[id].conn, e);
        }
      case _ =>
    }
  }

  lemma {:induction false} AllSeparate(l: FC.Limits, actions: seq<Action>)
    ensures forall id :: id in ActAll(l, actions) ==> Separate(ActAll(l, actions)[id])
  {
    if actions != [] {
      AllSeparate(l, actions[..|actions| - 1]);
      ActKeeps(l, ActAll(l, actions[..|actions| - 1]), actions[|actions| - 1]);
    }
  }

  /** Tenant separation: in every reachable state of a node, every subscription, every
      message sent, held or queued and every in-flight slot of a connection lies in
      its own tenant's namespace, and in no other colon-free tenant's. */
  lemma TenantSeparation(l: FC.Limits, actions: seq<Action>, id: string, other: string, channel: string)
    requires id in ActAll(l, actions)
    requires var m := ActAll(l, actions)[id];
      || channel in m.channels
      || (exists f :: f in m.conn.sent + FC.HeldBy(m.conn.sender) + m.conn.queue && f.content.Message? && f.content.channel == channel)
      || (exists s :: s in m.conn.inflight && s.channel == channel)
    ensures Belongs(channel, ActAll(l, actions)[id].tenant)
    ensures ':' !in other && ':' !in ActAll(l, actions)[id].tenant && Belongs(channel, other) ==>
      other == ActAll(l, actions)[id].tenant
  {
    AllSeparate(l, actions);
    var m := ActAll(l, actions)[id];
    if ':' !in other && ':' !in m.tenant && Belongs(channel, other) {
      ColonFreeTenantsAreDisjoint(other, m.tenant, channel);
    }
  }
}
