/** The mutable connection object and the node's registry of connections. */
module Connections {
  import opened Prelude
  import opened FlowControl
  import FlowLaws

  /** The list comprehension of `on_ack`. */
  method KeepUnacked(inflight: seq<Slot>, ack: Slot) returns (kept: seq<Slot>)
    ensures kept == Unacked(inflight, ack)
  {
    kept := [];
    for i := 0 to |inflight|
      invariant kept == Unacked(inflight[..i], ack)
    {
      assert inflight[..i + 1][..i] == inflight[..i];
      if !(inflight[i].channel == ack.channel && inflight[i].sequence <= ack.sequence) {
        kept := kept + [inflight[i]];
      }
    }
    assert inflight[..|inflight|] == inflight;
  }

  /** What a plain scan of the live connections lists for one of them. */
  datatype Listing = Listing(session: string, tenant: string, channels: set<string>)

  class Connection {
    const connectionId: string
    const sessionId: string
    const tenantId: string
    const limits: Limits

    var status: Status
    var subscriptions: set<string>
    var queue: seq<Frame>
    var queueBytes: int
    var inflight: seq<Slot>
    var windowOpen: bool
    var messagesDropped: nat
    var sender: Sender

    ghost var accepted: seq<Frame>
    ghost var sent: seq<Frame>
    ghost var history: seq<WindowEvent>
    ghost var released: nat

    ghost function View(): Conn
      reads this
    {
      Conn(status, queue, queueBytes, inflight, windowOpen, messagesDropped, sender,
           accepted, sent, history, released)
    }

    ghost predicate Listed(entry: Listing)
      reads this
    {
      entry == Listing(sessionId, tenantId, subscriptions)
    }

    constructor (connectionId: string, sessionId: string, tenantId: string, limits: Limits)
      ensures View() == FRESH && subscriptions == {}
      ensures this.connectionId == connectionId && this.sessionId == sessionId
      ensures this.tenantId == tenantId && this.limits == limits
    {
      this.connectionId, this.sessionId, this.tenantId, this.limits := connectionId, sessionId, tenantId, limits;
      status, subscriptions, sender := Active, {}, AtLoopHead;
      queue, queueBytes, messagesDropped := [], 0, 0;
      inflight, windowOpen := [], true;
      accepted, sent, history, released := [], [], [], 0;
    }

    method Enqueue(f: Frame) returns (outcome: Outcome)
      modifies this`queue, this`queueBytes, this`messagesDropped, this`accepted
      ensures outcome == Admit(limits, old(View()), f)
      ensures View() == Step(limits, old(View()), Event.Enqueue(f))
    {
      var overLimit := |queue| >= limits.queueMessages || queueBytes + f.size > limits.queueBytes;
      if overLimit {
        if f.priority.Low? {
          messagesDropped := messagesDropped + 1;
          return Dropped;
        }
        if !f.priority.High? {
          return SlowConsumer;
        }
      }
      queueBytes := queueBytes + f.size;
      queue := queue + [f];
      accepted := accepted + [f];
      return Accepted;
    }

    method OnAck(channel: string, sequence: int) returns (count: nat)
      modifies this`inflight, this`windowOpen, this`history, this`released
      ensures View() == Step(limits, old(View()), Ack(Slot(channel, sequence)))
      ensures count == |old(inflight)| - |inflight| == released - old(released)
    {
      var before := |inflight|;
      UnackedLength(inflight, Slot(channel, sequence));
      inflight := KeepUnacked(inflight, Slot(channel, sequence));
      count := before - |inflight|;
      if |inflight| < limits.inflight {
        windowOpen := true;
      }
      history := history + [Acked(Slot(channel, sequence))];
      released := released + count;
    }

    method TestLoopHead()
      requires sender.AtLoopHead?
      modifies this`sender
      ensures View() == Step(limits, old(View()), LoopHead)
    {
      if status.Active? || status.Draining? {
        sender := AwaitingFrame;
      } else {
        sender := Stopped(None, false);
      }
    }

    method TakeFrame()
      requires sender.AwaitingFrame? && queue != []
      modifies this`queue, this`queueBytes, this`sender
      ensures View() == Step(limits, old(View()), Get)
    {
      var item := queue[0];
      queue := queue[1..];
      queueBytes := queueBytes - item.size;
      if item.priority.Normal? {
        sender := CheckingWindow(item);
      } else {
        sender := Sending(item);
      }
    }

    /** From the test of `_wait_for_window` to its suspension or to the write. */
    method PassWindow()
      requires sender.CheckingWindow?
      modifies this`inflight, this`windowOpen, this`sender, this`history
      ensures View() == Step(limits, old(View()), CheckWindow)
    {
      var item := sender.frame;
      if |inflight| >= limits.inflight {
        windowOpen := false;
        sender := Parked(item);
        return;
      }
      if !(status.Active? || status.Draining?) {
        sender := Stopped(Some(item), false);
        return;
      }
      if item.channel.Some? && item.sequence.Some? && item.priority.Normal? {
        inflight := inflight + [Slot(item.channel.value, item.sequence.value)];
        history := history + [Took(Slot(item.channel.value, item.sequence.value))];
      }
      sender := Sending(item);
    }

    method FinishSend(ok: bool)
      requires sender.Sending?
      modifies this`sender, this`status, this`sent
      ensures View() == Step(limits, old(View()), SendDone(ok))
    {
      if ok {
        sent := sent + [sender.frame];
        sender := AtLoopHead;
      } else {
        status := Dead;
        sender := Stopped(Some(sender.frame), true);
      }
    }

    /** One segment of `run_sender`; the socket accepts the write. */
    method RunSegment()
      requires FlowLaws.SenderEvent(View()).Some?
      modifies this`queue, this`queueBytes, this`inflight, this`windowOpen, this`sender, this`status,
               this`sent, this`history
      ensures View() == Step(limits, old(View()), FlowLaws.SenderEvent(old(View())).value)
    {
      match sender {
        case AtLoopHead => TestLoopHead();
        case AwaitingFrame => TakeFrame();
        case CheckingWindow(_) => PassWindow();
        case Parked(item) => sender := CheckingWindow(item);
        case Sending(_) => FinishSend(true);
      }
    }

    /** `run_sender` from wherever it is until it suspends with nothing to wake it,
        when no other task runs in between. */
    method RunSender()
      modifies this`queue, this`queueBytes, this`inflight, this`windowOpen, this`sender, this`status,
               this`sent, this`history
      ensures View() == FlowLaws.Drain(limits, old(View()))
      ensures FlowLaws.SenderEvent(View()).None?
    {
      while !(sender.Stopped? || (sender.AwaitingFrame? && queue == []) || (sender.Parked? && !windowOpen))
        invariant FlowLaws.Drain(limits, View()) == FlowLaws.Drain(limits, old(View()))
        decreases FlowLaws.Rank(View())
      {
        FlowLaws.RankStep(limits, View(), FlowLaws.SenderEvent(View()).value);
        RunSegment();
      }
    }
  }

  /** `d.get(key, set())` */
  function At(index: map<string, set<string>>, key: string): set<string> {
    if key in index then index[key] else {}
  }

  /** `d.setdefault(key, set()).add(id)` */
  function Including(index: map<string, set<string>>, key: string, id: string): map<string, set<string>> {
    index[key := At(index, key) + {id}]
  }

  /** `d.get(key, set()).discard(id)` */
  function Discarding(index: map<string, set<string>>, key: string, id: string): map<string, set<string>> {
    if key in index then index[key := index[key] - {id}] else index
  }

  /** The loop of `remove` over the connection's subscriptions. */
  method DiscardFromEach(index: map<string, set<string>>, channels: set<string>, id: string)
    returns (index': map<string, set<string>>)
    ensures forall c :: At(index', c) == if c in channels then At(index, c) - {id} else At(index, c)
  {
    index' := index;
    var left := channels;
    while left != {}
      invariant left <= channels
      invariant forall c :: At(index', c) == if c in channels - left then At(index, c) - {id} else At(index, c)
    {
      var channel :| channel in left;
      index' := Discarding(index', channel, id);
      left := left - {channel};
    }
  }

  ghost function InSession(scan: map<string, Listing>, session: string): set<string> {
    set id | id in scan && scan[id].session == session
  }

  ghost function InTenant(scan: map<string, Listing>, tenant: string): set<string> {
    set id | id in scan && scan[id].tenant == tenant
  }

  ghost function OnChannel(scan: map<string, Listing>, channel: string): set<string> {
    set id | id in scan && channel in scan[id].channels
  }

  /** The three secondary indexes. */
  datatype Indexes = Indexes(bySession: map<string, set<string>>,
                             byTenant: map<string, set<string>>,
                             byChannel: map<string, set<string>>)

  ghost predicate SessionAgrees(ix: Indexes, scan: map<string, Listing>, session: string) {
    At(ix.bySession, session) == InSession(scan, session)
  }

  ghost predicate TenantAgrees(ix: Indexes, scan: map<string, Listing>, tenant: string) {
    At(ix.byTenant, tenant) == InTenant(scan, tenant)
  }

  ghost predicate ChannelAgrees(ix: Indexes, scan: map<string, Listing>, channel: string) {
    At(ix.byChannel, channel) == OnChannel(scan, channel)
  }

  /** Every secondary index equals what the scan gives. */
  ghost predicate Coherent(ix: Indexes, scan: map<string, Listing>) {
    && (forall s :: SessionAgrees(ix, scan, s))
    && (forall t :: TenantAgrees(ix, scan, t))
    && (forall c :: ChannelAgrees(ix, scan, c))
  }

  ghost function WithChannels(scan: map<string, Listing>, id: string, channels: set<string>): map<string, Listing>
    requires id in scan
  {
    scan[id := scan[id].(channels := channels)]
  }

  lemma CoherentAdd(ix: Indexes, scan: map<string, Listing>, id: string, session: string, tenant: string)
    requires Coherent(ix, scan) && id !in scan
    ensures Coherent(Indexes(Including(ix.bySession, session, id), Including(ix.byTenant, tenant, id), ix.byChannel),
                     scan[id := Listing(session, tenant, {})])
  {
    var scan' := scan[id := Listing(session, tenant, {})];
    var ix' := Indexes(Including(ix.bySession, session, id), Including(ix.byTenant, tenant, id), ix.byChannel);
    forall s ensures SessionAgrees(ix', scan', s) && TenantAgrees(ix', scan', s) && ChannelAgrees(ix', scan', s) {
      assert SessionAgrees(ix, scan, s) && TenantAgrees(ix, scan, s) && ChannelAgrees(ix, scan, s);
      ListedOnce(scan, id, session, tenant, s);
    }
  }

  /** What one more listing adds to each answer. */
  lemma ListedOnce(scan: map<string, Listing>, id: string, session: string, tenant: string, key: string)
    requires id !in scan
    ensures var scan' := scan[id := Listing(session, tenant, {})];
      && InSession(scan', key) == InSession(scan, key) + (if key == session then {id} else {})
      && InTenant(scan', key) == InTenant(scan, key) + (if key == tenant then {id} else {})
      && OnChannel(scan', key) == OnChannel(scan, key)
  {
  }

  lemma CoherentRemove(ix: Indexes, scan: map<string, Listing>, id: string, byChannel: map<string, set<string>>)
    requires Coherent(ix, scan) && id in scan
    requires forall c :: At(byChannel, c) == if c in scan[id].channels then At(ix.byChannel, c) - {id} else At(ix.byChannel, c)
    ensures Coherent(Indexes(Discarding(ix.bySession, scan[id].session, id),
                             Discarding(ix.byTenant, scan[id].tenant, id), byChannel), scan - {id})
  {
    var scan' := scan - {id};
    var ix' := Indexes(Discarding(ix.bySession, scan[id].session, id), Discarding(ix.byTenant, scan[id].tenant, id), byChannel);
    forall s ensures SessionAgrees(ix', scan', s) {
      assert SessionAgrees(ix, scan, s);
      assert InSession(scan', s) == InSession(scan, s) - {id};
      assert id in InSession(scan, s) <==> s == scan[id].session;
    }
    forall t ensures TenantAgrees(ix', scan', t) {
      assert TenantAgrees(ix, scan, t);
      assert InTenant(scan', t) == InTenant(scan, t) - {id};
      assert id in InTenant(scan, t) <==> t == scan[id].tenant;
    }
    forall c ensures ChannelAgrees(ix', scan', c) {
      assert ChannelAgrees(ix, scan, c);
      assert OnChannel(scan', c) == OnChannel(scan, c) - {id};
    }
  }

  /** A new channel index and new channels for one listing leave the other indexes alone. */
  lemma OtherIndexesAgree(ix: Indexes, scan: map<string, Listing>, id: string, channels: set<string>, ix': Indexes)
    requires Coherent(ix, scan) && id in scan && ix' == ix.(byChannel := ix'.byChannel)
    ensures forall s :: SessionAgrees(ix', WithChannels(scan, id, channels), s)
    ensures forall t :: TenantAgrees(ix', WithChannels(scan, id, channels), t)
  {
    ChannelsDoNotMatter(scan, id, channels);
    forall s ensures SessionAgrees(ix', WithChannels(scan, id, channels), s) {
      assert SessionAgrees(ix, scan, s);
    }
    forall t ensures TenantAgrees(ix', WithChannels(scan, id, channels), t) {
      assert TenantAgrees(ix, scan, t);
    }
  }

  lemma CoherentSubscribe(ix: Indexes, scan: map<string, Listing>, id: string, channel: string)
    requires Coherent(ix, scan) && id in scan
    ensures Coherent(ix.(byChannel := Including(ix.byChannel, channel, id)),
                     WithChannels(scan, id, scan[id].channels + {channel}))
  {
    var scan' := WithChannels(scan, id, scan[id].channels + {channel});
    var ix' := ix.(byChannel := Including(ix.byChannel, channel, id));
    OtherIndexesAgree(ix, scan, id, scan[id].channels + {channel}, ix');
    forall c ensures ChannelAgrees(ix', scan', c) {
      assert ChannelAgrees(ix, scan, c);
      assert OnChannel(scan', c) == OnChannel(scan, c) + if c == channel then {id} else {};
    }
  }

  lemma CoherentUnsubscribe(ix: Indexes, scan: map<string, Listing>, id: string, channel: string)
    requires Coherent(ix, scan)
    ensures Coherent(ix.(byChannel := Discarding(ix.byChannel, channel, id)),
                     if id in scan then WithChannels(scan, id, scan[id].channels - {channel}) else scan)
  {
    var ix' := ix.(byChannel := Discarding(ix.byChannel, channel, id));
    if id in scan {
      var scan' := WithChannels(scan, id, scan[id].channels - {channel});
      OtherIndexesAgree(ix, scan, id, scan[id].channels - {channel}, ix');
      forall c ensures ChannelAgrees(ix', scan', c) {
        assert ChannelAgrees(ix, scan, c);
        assert OnChannel(scan', c) == OnChannel(scan, c) - if c == channel then {id} else {};
      }
    } else {
      forall s ensures SessionAgrees(ix', scan, s) && TenantAgrees(ix', scan, s) && ChannelAgrees(ix', scan, s) {
        assert SessionAgrees(ix, scan, s) && TenantAgrees(ix, scan, s) && ChannelAgrees(ix, scan, s);
        assert id !in OnChannel(scan, s);
      }
    }
  }

  lemma ChannelsDoNotMatter(scan: map<string, Listing>, id: string, channels: set<string>)
    requires id in scan
    ensures forall s :: InSession(WithChannels(scan, id, channels), s) == InSession(scan, s)
    ensures forall t :: InTenant(WithChannels(scan, id, channels), t) == InTenant(scan, t)
  {
  }

  class ConnectionRegistry {
    var byId: map<string, Connection>
    var bySession: map<string, set<string>>
    var byTenant: map<string, set<string>>
    var byChannel: map<string, set<string>>

    /** What a plain scan of the live connections lists. */
    ghost var scan: map<string, Listing>

    ghost function Index(): Indexes
      reads this
    {
      Indexes(bySession, byTenant, byChannel)
    }

    ghost predicate Valid()
      reads this, byId.Values
    {
      && scan.Keys == byId.Keys
      && (forall id :: id in byId ==> byId[id].connectionId == id && byId[id].Listed(scan[id]))
      && Coherent(Index(), scan)
    }

    constructor ()
      ensures Valid() && scan == map[]
    {
      scan := map[];
      byId, bySession, byTenant, byChannel := map[], map[], map[], map[];
    }

    method Add(conn: Connection)
      requires Valid() && conn.connectionId !in byId && conn.subscriptions == {}
      modifies this`byId, this`bySession, this`byTenant, this`scan
      ensures Valid()
      ensures scan == old(scan)[conn.connectionId := Listing(conn.sessionId, conn.tenantId, {})]
      ensures byId == old(byId)[conn.connectionId := conn]
    {
      CoherentAdd(Index(), scan, conn.connectionId, conn.sessionId, conn.tenantId);
      ghost var before, ix := byId, Indexes(Including(bySession, conn.sessionId, conn.connectionId),
                                            Including(byTenant, conn.tenantId, conn.connectionId), byChannel);
      bySession := Including(bySession, conn.sessionId, conn.connectionId);
      byTenant := Including(byTenant, conn.tenantId, conn.connectionId);
      byId := byId[conn.connectionId := conn];
      scan := scan[conn.connectionId := Listing(conn.sessionId, conn.tenantId, {})];
      assert Index() == ix;
      forall id | id in byId ensures byId[id].connectionId == id && byId[id].Listed(scan[id]) {
        assert id != conn.connectionId ==> id in before && byId[id] == before[id];
      }
    }

    method Remove(id: string) returns (conn: Option<Connection>)
      requires Valid()
      modifies this
      ensures Valid()
      ensures scan == old(scan) - {id}
      ensures conn == if id in old(byId) then Some(old(byId)[id]) else None
      ensures byId == old(byId) - {id}
    {
      if id !in byId {
        return None;
      }
      var gone := byId[id];
      byId, scan := byId - {id}, scan - {id};
      bySession := Discarding(bySession, gone.sessionId, id);
      byTenant := Discarding(byTenant, gone.tenantId, id);
      byChannel := DiscardFromEach(byChannel, gone.subscriptions, id);
      CoherentRemove(old(Index()), old(scan), id, byChannel);
      return Some(gone);
    }

    method Subscribe(id: string, channel: string)
      requires Valid()
      modifies this`byChannel, this`scan, byId.Values`subscriptions
      ensures Valid()
      ensures scan ==
        if id in old(byId) then WithChannels(old(scan), id, old(scan)[id].channels + {channel}) else old(scan)
    {
      if id !in byId {
        return;
      }
      CoherentSubscribe(Index(), scan, id, channel);
      var conn := byId[id];
      conn.subscriptions := conn.subscriptions + {channel};
      scan := WithChannels(scan, id, scan[id].channels + {channel});
      byChannel := Including(byChannel, channel, id);
    }

    method Unsubscribe(id: string, channel: string)
      requires Valid()
      modifies this`byChannel, this`scan, byId.Values`subscriptions
      ensures Valid()
      ensures scan ==
        if id in old(byId) then WithChannels(old(scan), id, old(scan)[id].channels - {channel}) else old(scan)
    {
      CoherentUnsubscribe(Index(), scan, id, channel);
      if id in byId {
        var conn := byId[id];
        conn.subscriptions := conn.subscriptions - {channel};
        scan := WithChannels(scan, id, scan[id].channels - {channel});
      }
      byChannel := Discarding(byChannel, channel, id);
    }

    method LocalSubscribers(channel: string) returns (conns: set<Connection>)
      requires Valid()
      ensures conns == set id | id in byId && channel in byId[id].subscriptions :: byId[id]
    {
      conns := set id | id in At(byChannel, channel) && id in byId :: byId[id];
      assert ChannelAgrees(Index(), scan, channel);
      assert forall id :: id in At(byChannel, channel) <==> id in byId && channel in byId[id].subscriptions;
    }

    method SessionConnections(session: string) returns (conns: set<Connection>)
      requires Valid()
      ensures conns == set id | id in byId && byId[id].sessionId == session :: byId[id]
    {
      conns := set id | id in At(bySession, session) && id in byId :: byId[id];
      assert SessionAgrees(Index(), scan, session);
      assert forall id :: id in At(bySession, session) <==> id in byId && byId[id].sessionId == session;
    }

    method TenantConnectionCount(tenant: string) returns (count: nat)
      requires Valid()
      ensures count == |InTenant(scan, tenant)|
    {
      count := |At(byTenant, tenant)|;
      assert TenantAgrees(Index(), scan, tenant);
    }
  }
}
