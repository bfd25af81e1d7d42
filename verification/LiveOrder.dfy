/**
 Live delivery of one channel across every node and connection.

 Each node has at most one listener on the channel's Pub/Sub log.  It may lose its
 subscription and come back, missing what was announced meanwhile.  It hands each
 announcement to the node's subscribed ACTIVE connections, whose queues, senders
 and windows run on their own.
 */
module LiveOrder {
  import opened Prelude
  import FC = FlowControl
  import CL = ChannelLog
  import opened Resume

  /** `seen` is how much of the announcement log this node is done with. */
  datatype Node = Node(listening: bool, seen: nat)

  /** `heard` logs which announcements this connection accepted, `refused` those it was
      offered and had no room for. */
  datatype Peer = Peer(node: nat, subscribed: bool, conn: FC.Conn, heard: seq<nat>, refused: seq<nat>)

  datatype Cluster = Cluster(chan: CL.Channel, nodes: map<nat, Node>, peers: map<nat, Peer>)

  datatype Happening =
    | Announcing(cl: CL.Event)
    | Listening(node: nat)
    | Losing(node: nat)
    | Joining(peer: nat, node: nat)
    | Subscribing(peer: nat, on: bool)
    | Delivering(node: nat, size: nat)
    | Flowing(peer: nat, fc: FC.Event)

  predicate LiveMessage(channel: string, f: FC.Frame) {
    On(channel, f) && f.content.live
  }

  function Hear(l: FC.Limits, p: Peer, f: FC.Frame, index: nat): Peer {
    p.(conn := FC.OfferStep(l, p.conn, f),
       heard := if FC.Admit(l, p.conn, f).Accepted? then p.heard + [index] else p.heard,
       refused := if FC.Refuses(l, p.conn, f) then p.refused + [index] else p.refused)
  }

  /** `deliver_local` for one connection. */
  function Offer(l: FC.Limits, p: Peer, node: nat, f: FC.Frame, index: nat): Peer {
    if p.node == node && p.subscribed && p.conn.status.Active? then Hear(l, p, f, index) else p
  }

  function Fanout(l: FC.Limits, peers: map<nat, Peer>, node: nat, f: FC.Frame, index: nat): map<nat, Peer> {
    map p | p in peers :: Offer(l, peers[p], node, f, index)
  }

  function Happen(maxlen: nat, l: FC.Limits, channel: string, c: Cluster, h: Happening): Cluster {
    match h
    case Announcing(e) => c.(chan := CL.Step(maxlen, c.chan, e))
    case Listening(n) =>
      if n in c.nodes && c.nodes[n].listening then c
      else c.(nodes := c.nodes[n := Node(true, |c.chan.announced|)])
    case Losing(n) =>
      if n in c.nodes then c.(nodes := c.nodes[n := Node(false, c.nodes[n].seen)]) else c
    case Joining(p, n) =>
      if p in c.peers then c else c.(peers := c.peers[p := Peer(n, false, FC.FRESH, [], [])])
    case Subscribing(p, on) =>
      if p in c.peers then c.(peers := c.peers[p := c.peers[p].(subscribed := on)]) else c
    case Delivering(n, size) =>
      if n in c.nodes && c.nodes[n].listening && c.nodes[n].seen < |c.chan.announced| then
        var i := c.nodes[n].seen;
        var f := MessageFrame(channel, c.chan.announced[i], size, true);
        c.(nodes := c.nodes[n := Node(true, i + 1)], peers := Fanout(l, c.peers, n, f, i))
      else c
    case Flowing(p, e) =>
      if p in c.peers && !(e.Enqueue? && LiveMessage(channel, e.frame)) then
        c.(peers := c.peers[p := c.peers[p].(conn := FC.Step(l, c.peers[p].conn, e))])
      else c
  }

  const QUIET := Cluster(CL.EMPTY, map[], map[])

  function History(maxlen: nat, l: FC.Limits, channel: string, hs: seq<Happening>): Cluster {
    if hs == [] then QUIET
    else Happen(maxlen, l, channel, History(maxlen, l, channel, hs[..|hs| - 1]), hs[|hs| - 1])
  }

  // ---------------------------------------------------------------- invariant

  /** The live messages of the channel among some frames, in order. */
  function LiveOn(channel: string, fs: seq<FC.Frame>): seq<Entry> {
    if fs == [] then []
    else
      var rest := LiveOn(channel, fs[..|fs| - 1]);
      var f := fs[|fs| - 1];
      if LiveMessage(channel, f) then rest + [f.content.entry] else rest
  }

  ghost predicate Picks(indices: seq<nat>, log: seq<Entry>, picked: seq<Entry>) {
    && |picked| == |indices|
    && (forall i, j :: 0 <= i < j < |indices| ==> indices[i] < indices[j])
    && (forall i :: 0 <= i < |indices| ==> indices[i] < |log| && picked[i] == log[indices[i]])
  }

  function SeenBy(nodes: map<nat, Node>, n: nat): nat {
    if n in nodes then nodes[n].seen else 0
  }

  ghost predicate Consistent(channel: string, announced: seq<Entry>, heard: seq<nat>, accepted: seq<FC.Frame>, seen: nat) {
    && Picks(heard, announced, LiveOn(channel, accepted))
    && (forall i :: 0 <= i < |heard| ==> heard[i] < seen)
  }

  ghost predicate PeerConsistent(channel: string, c: Cluster, p: Peer) {
    Consistent(channel, c.chan.announced, p.heard, p.conn.accepted, SeenBy(c.nodes, p.node))
  }

  ghost predicate AllConsistent(channel: string, c: Cluster) {
    && (forall n :: n in c.nodes ==> c.nodes[n].seen <= |c.chan.announced|)
    && (forall p :: p in c.peers ==> PeerConsistent(channel, c, c.peers[p]))
  }

  lemma LiveOnSnoc(channel: string, fs: seq<FC.Frame>, f: FC.Frame)
    ensures LiveOn(channel, fs + [f]) ==
      LiveOn(channel, fs) + if LiveMessage(channel, f) then [f.content.entry] else []
  {
    assert (fs + [f])[..|fs|] == fs;
  }

  lemma {:induction false} LiveOnConcat(channel: string, a: seq<FC.Frame>, b: seq<FC.Frame>)
    ensures LiveOn(channel, a + b) == LiveOn(channel, a) + LiveOn(channel, b)
  {
    if b == [] {
      assert a + b == a;
    } else {
      LiveOnConcat(channel, a, b[..|b| - 1]);
      assert (a + b)[..|a + b| - 1] == a + b[..|b| - 1];
    }
  }

  lemma PicksSnoc(heard: seq<nat>, log: seq<Entry>, picked: seq<Entry>, i: nat)
    requires Picks(heard, log, picked) && i < |log| && forall k :: 0 <= k < |heard| ==> heard[k] < i
    ensures Picks(heard + [i], log, picked + [log[i]])
  {
  }

  /** Hearing announcement `i` keeps the correspondence, one further along. */
  lemma HearConsistent(l: FC.Limits, channel: string, announced: seq<Entry>, p: Peer, i: nat, size: nat)
    requires i < |announced| && Consistent(channel, announced, p.heard, p.conn.accepted, i) && p.conn.status.Active?
    ensures var p' := Hear(l, p, MessageFrame(channel, announced[i], size, true), i);
      Consistent(channel, announced, p'.heard, p'.conn.accepted, i + 1)
  {
    LiveOnSnoc(channel, p.conn.accepted, MessageFrame(channel, announced[i], size, true));
    PicksSnoc(p.heard, announced, LiveOn(channel, p.conn.accepted), i);
  }

  lemma FlowKeepsLive(l: FC.Limits, channel: string, c: FC.Conn, e: FC.Event)
    requires !(e.Enqueue? && LiveMessage(channel, e.frame))
    ensures LiveOn(channel, FC.Step(l, c, e).accepted) == LiveOn(channel, c.accepted)
  {
    FC.AcceptedStep(l, c, e);
    if e.Enqueue? {
      LiveOnSnoc(channel, c.accepted, e.frame);
    }
  }

  /** A connection that hears the delivery, and one that does not. */
  lemma DeliveredConsistent(l: FC.Limits, channel: string, c: Cluster, n: nat, size: nat, p: Peer, c': Cluster)
    requires n in c.nodes && c.nodes[n].seen < |c.chan.announced| && PeerConsistent(channel, c, p)
    requires c'.chan == c.chan && c'.nodes == c.nodes[n := Node(true, c.nodes[n].seen + 1)] && p.node == n && p.conn.status.Active?
    ensures var i := c.nodes[n].seen;
      PeerConsistent(channel, c', Hear(l, p, MessageFrame(channel, c.chan.announced[i], size, true), i))
  {
    var i := c.nodes[n].seen;
    HearConsistent(l, channel, c.chan.announced, p, i, size);
  }

  lemma PassedOverConsistent(channel: string, c: Cluster, p: Peer, c': Cluster)
    requires PeerConsistent(channel, c, p) && c'.chan == c.chan && SeenBy(c.nodes, p.node) <= SeenBy(c'.nodes, p.node)
    ensures PeerConsistent(channel, c', p)
  {
  }

  lemma OfferConsistent(l: FC.Limits, channel: string, c: Cluster, n: nat, size: nat, p: Peer, c': Cluster)
    requires n in c.nodes && c.nodes[n].seen < |c.chan.announced| && PeerConsistent(channel, c, p)
    requires c'.chan == c.chan && c'.nodes == c.nodes[n := Node(true, c.nodes[n].seen + 1)]
    ensures var i := c.nodes[n].seen;
      PeerConsistent(channel, c', Offer(l, p, n, MessageFrame(channel, c.chan.announced[i], size, true), i))
  {
    if p.node == n && p.subscribed && p.conn.status.Active? {
      DeliveredConsistent(l, channel, c, n, size, p, c');
    } else {
      PassedOverConsistent(channel, c, p, c');
    }
  }

  lemma DeliveringConsistent(maxlen: nat, l: FC.Limits, channel: string, c: Cluster, n: nat, size: nat)
    requires AllConsistent(channel, c)
    ensures AllConsistent(channel, Happen(maxlen, l, channel, c, Delivering(n, size)))
  {
    if n in c.nodes && c.nodes[n].listening && c.nodes[n].seen < |c.chan.announced| {
      var i := c.nodes[n].seen;
      var f := MessageFrame(channel, c.chan.announced[i], size, true);
      var c' := Cluster(c.chan, c.nodes[n := Node(true, i + 1)], Fanout(l, c.peers, n, f, i));
      FanoutConsistent(l, channel, c, n, size, c');
      assert Happen(maxlen, l, channel, c, Delivering(n, size)) == c';
    }
  }

  lemma FanoutConsistent(l: FC.Limits, channel: string, c: Cluster, n: nat, size: nat, c': Cluster)
    requires AllConsistent(channel, c) && n in c.nodes && c.nodes[n].seen < |c.chan.announced|
    requires var i := c.nodes[n].seen;
      var f := MessageFrame(channel, c.chan.announced[i], size, true);
      c' == Cluster(c.chan, c.nodes[n := Node(true, i + 1)], Fanout(l, c.peers, n, f, i))
    ensures AllConsistent(channel, c')
  {
    forall p | p in c'.peers ensures PeerConsistent(channel, c', c'.peers[p]) {
      OfferConsistent(l, channel, c, n, size, c.peers[p], c');
    }
  }

  lemma AnnouncingConsistent(maxlen: nat, l: FC.Limits, channel: string, c: Cluster, e: CL.Event)
    requires AllConsistent(channel, c)
    ensures AllConsistent(channel, Happen(maxlen, l, channel, c, Announcing(e)))
  {
    var c' := Happen(maxlen, l, channel, c, Announcing(e));
    assert c.chan.announced <= c'.chan.announced;
    forall p | p in c'.peers ensures PeerConsistent(channel, c', c'.peers[p]) {
      assert PeerConsistent(channel, c, c.peers[p]);
    }
  }

  lemma PeerUpdated(channel: string, c: Cluster, p: nat, q: Peer)
    requires AllConsistent(channel, c) && PeerConsistent(channel, c, q)
    ensures AllConsistent(channel, c.(peers := c.peers[p := q]))
  {
    var c' := c.(peers := c.peers[p := q]);
    forall r | r in c'.peers ensures PeerConsistent(channel, c', c'.peers[r]) {
      assert r != p ==> PeerConsistent(channel, c, c.peers[r]);
    }
  }

  lemma NodeUpdated(channel: string, c: Cluster, n: nat, node: Node)
    requires AllConsistent(channel, c) && SeenBy(c.nodes, n) <= node.seen <= |c.chan.announced|
    ensures AllConsistent(channel, c.(nodes := c.nodes[n := node]))
  {
    var c' := c.(nodes := c.nodes[n := node]);
    forall p | p in c'.peers ensures PeerConsistent(channel, c', c'.peers[p]) {
      assert PeerConsistent(channel, c, c.peers[p]);
    }
  }

  lemma FlowedConsistent(l: FC.Limits, channel: string, c: Cluster, p: Peer, e: FC.Event)
    requires PeerConsistent(channel, c, p) && !(e.Enqueue? && LiveMessage(channel, e.frame))
    ensures PeerConsistent(channel, c, p.(conn := FC.Step(l, p.conn, e)))
  {
    FlowKeepsLive(l, channel, p.conn, e);
  }

  lemma ConnUpdated(channel: string, c: Cluster, p: nat, conn: FC.Conn)
    requires AllConsistent(channel, c) && p in c.peers && PeerConsistent(channel, c, c.peers[p].(conn := conn))
    ensures AllConsistent(channel, c.(peers := c.peers[p := c.peers[p].(conn := conn)]))
  {
    PeerUpdated(channel, c, p, c.peers[p].(conn := conn));
  }

  lemma FlowingConsistent(maxlen: nat, l: FC.Limits, channel: string, c: Cluster, p: nat, e: FC.Event)
    requires AllConsistent(channel, c)
    ensures AllConsistent(channel, Happen(maxlen, l, channel, c, Flowing(p, e)))
  {
    if p in c.peers && !(e.Enqueue? && LiveMessage(channel, e.frame)) {
      var conn := FC.Step(l, c.peers[p].conn, e);
      FlowedConsistent(l, channel, c, c.peers[p], e);
      ConnUpdated(channel, c, p, conn);
      assert Happen(maxlen, l, channel, c, Flowing(p, e)) == c.(peers := c.peers[p := c.peers[p].(conn := conn)]);
    }
  }

  lemma SubscribingConsistent(maxlen: nat, l: FC.Limits, channel: string, c: Cluster, p: nat, on: bool)
    requires AllConsistent(channel, c)
    ensures AllConsistent(channel, Happen(maxlen, l, channel, c, Subscribing(p, on)))
  {
    if p in c.peers {
      assert PeerConsistent(channel, c, c.peers[p]);
      PeerUpdated(channel, c, p, c.peers[p].(subscribed := on));
    }
  }

  lemma JoiningConsistent(maxlen: nat, l: FC.Limits, channel: string, c: Cluster, p: nat, n: nat)
    requires AllConsistent(channel, c)
    ensures AllConsistent(channel, Happen(maxlen, l, channel, c, Joining(p, n)))
  {
    PeerUpdated(channel, c, p, Peer(n, false, FC.FRESH, [], []));
  }

  lemma ListeningConsistent(maxlen: nat, l: FC.Limits, channel: string, c: Cluster, n: nat)
    requires AllConsistent(channel, c)
    ensures AllConsistent(channel, Happen(maxlen, l, channel, c, Listening(n)))
  {
    NodeUpdated(channel, c, n, Node(true, |c.chan.announced|));
  }

  lemma LosingConsistent(maxlen: nat, l: FC.Limits, channel: string, c: Cluster, n: nat)
    requires AllConsistent(channel, c)
    ensures AllConsistent(channel, Happen(maxlen, l, channel, c, Losing(n)))
  {
    if n in c.nodes {
      NodeUpdated(channel, c, n, Node(false, c.nodes[n].seen));
    }
  }

  lemma HappenConsistent(maxlen: nat, l: FC.Limits, channel: string, c: Cluster, h: Happening)
    requires AllConsistent(channel, c)
    ensures AllConsistent(channel, Happen(maxlen, l, channel, c, h))
  {
    match h {
      case Announcing(e) => AnnouncingConsistent(maxlen, l, channel, c, e);
      case Delivering(n, size) => DeliveringConsistent(maxlen, l, channel, c, n, size);
      case Listening(n) => ListeningConsistent(maxlen, l, channel, c, n);
      case Losing(n) => LosingConsistent(maxlen, l, channel, c, n);
      case Joining(p, n) => JoiningConsistent(maxlen, l, channel, c, p, n);
      case Subscribing(p, on) => SubscribingConsistent(maxlen, l, channel, c, p, on);
      case Flowing(p, e) => FlowingConsistent(maxlen, l, channel, c, p, e);
    }
  }

  lemma {:induction false} HistoryConsistent(maxlen: nat, l: FC.Limits, channel: string, hs: seq<Happening>)
    ensures AllConsistent(channel, History(maxlen, l, channel, hs))
  {
    if hs != [] {
      HistoryConsistent(maxlen, l, channel, hs[..|hs| - 1]);
      HappenConsistent(maxlen, l, channel, History(maxlen, l, channel, hs[..|hs| - 1]), hs[|hs| - 1]);
    }
  }

  /** Every connection's queue is conserved. */
  ghost predicate AllConserved(c: Cluster) {
    forall p :: p in c.peers ==> FC.Conserved(c.peers[p].conn)
  }

  lemma OfferConserved(l: FC.Limits, p: Peer, node: nat, f: FC.Frame, index: nat)
    requires FC.Conserved(p.conn)
    ensures FC.Conserved(Offer(l, p, node, f, index).conn)
  {
    FC.ConservedEnqueue(l, p.conn, f);
  }

  lemma HappenConserved(maxlen: nat, l: FC.Limits, channel: string, c: Cluster, h: Happening)
    requires AllConserved(c)
    ensures AllConserved(Happen(maxlen, l, channel, c, h))
  {
    match h {
      case Delivering(n, size) =>
        if n in c.nodes && c.nodes[n].listening && c.nodes[n].seen < |c.chan.announced| {
          var i := c.nodes[n].seen;
          var f := MessageFrame(channel, c.chan.announced[i], size, true);
          forall p | p in c.peers ensures FC.Conserved(Offer(l, c.peers[p], n, f, i).conn) {
            OfferConserved(l, c.peers[p], n, f, i);
          }
        }
      case Flowing(p, e) =>
        if p in c.peers {
          FC.ConservedStep(l, c.peers[p].conn, e);
        }
      case _ =>
    }
  }

  lemma {:induction false} HistoryConserved(maxlen: nat, l: FC.Limits, channel: string, hs: seq<Happening>)
    ensures AllConserved(History(maxlen, l, channel, hs))
  {
    if hs != [] {
      HistoryConserved(maxlen, l, channel, hs[..|hs| - 1]);
      HappenConserved(maxlen, l, channel, History(maxlen, l, channel, hs[..|hs| - 1]), hs[|hs| - 1]);
    }
  }

  /** The publishers' commands in a history. */
  function Published(hs: seq<Happening>): seq<CL.Event> {
    if hs == [] then []
    else
      var rest := Published(hs[..|hs| - 1]);
      if hs[|hs| - 1].Announcing? then rest + [hs[|hs| - 1].cl] else rest
  }

  lemma HistorySnoc(maxlen: nat, l: FC.Limits, channel: string, hs: seq<Happening>, h: Happening)
    ensures History(maxlen, l, channel, hs + [h]) == Happen(maxlen, l, channel, History(maxlen, l, channel, hs), h)
    ensures Published(hs + [h]) == Published(hs) + if h.Announcing? then [h.cl] else []
  {
    assert (hs + [h])[..|hs|] == hs;
  }

  lemma SnocLast(hs: seq<Happening>, more: seq<Happening>)
    requires more != []
    ensures hs + more == hs + more[..|more| - 1] + [more[|more| - 1]]
  {
  }

  lemma {:induction false} HistoryChannel(maxlen: nat, l: FC.Limits, channel: string, hs: seq<Happening>)
    ensures History(maxlen, l, channel, hs).chan == CL.Run(maxlen, Published(hs))
  {
    if hs != [] {
      HistoryChannel(maxlen, l, channel, hs[..|hs| - 1]);
      if hs[|hs| - 1].Announcing? {
        CL.RunSnoc(maxlen, Published(hs[..|hs| - 1]), hs[|hs| - 1].cl);
      }
    }
  }

  // ---------------------------------------------------------------- theorems

  /** The live frames a connection has sent are a subsequence of the channel's single
      announcement log, whatever the interleaving of publishers, listeners, fanout,
      ACKs and senders on all nodes. */
  lemma SentIsSubsequenceOfLog(maxlen: nat, l: FC.Limits, channel: string, hs: seq<Happening>, p: nat)
    returns (indices: seq<nat>)
    requires p in History(maxlen, l, channel, hs).peers
    ensures var c := History(maxlen, l, channel, hs);
      Picks(indices, c.chan.announced, LiveOn(channel, c.peers[p].conn.sent))
  {
    HistoryConsistent(maxlen, l, channel, hs);
    HistoryConserved(maxlen, l, channel, hs);
    var c := History(maxlen, l, channel, hs);
    indices := SentPicks(channel, c, c.peers[p]);
  }

  /** What has been sent is a prefix of what was accepted, so it picks a prefix. */
  lemma SentPicks(channel: string, c: Cluster, p: Peer) returns (indices: seq<nat>)
    requires PeerConsistent(channel, c, p) && FC.Conserved(p.conn)
    ensures Picks(indices, c.chan.announced, LiveOn(channel, p.conn.sent))
  {
    LivePrefix(channel, p.conn.sent, FC.HeldBy(p.conn.sender), p.conn.queue);
    indices := p.heard[..|LiveOn(channel, p.conn.sent)|];
    PicksPrefix(p.heard, c.chan.announced, LiveOn(channel, p.conn.accepted), LiveOn(channel, p.conn.sent));
  }

  lemma LivePrefix(channel: string, sent: seq<FC.Frame>, held: seq<FC.Frame>, queue: seq<FC.Frame>)
    ensures LiveOn(channel, sent) <= LiveOn(channel, sent + held + queue)
  {
    LiveOnConcat(channel, sent, held);
    LiveOnConcat(channel, sent + held, queue);
  }

  lemma PicksPrefix(x: seq<nat>, log: seq<Entry>, picked: seq<Entry>, prefix: seq<Entry>)
    requires Picks(x, log, picked) && prefix <= picked
    ensures Picks(x[..|prefix|], log, prefix)
  {
  }

  /** No two connections, on any nodes, send two live messages in opposite orders. */
  lemma AgreementOnOrder(maxlen: nat, l: FC.Limits, channel: string, hs: seq<Happening>, p: nat, q: nat,
                         i: nat, j: nat, i': nat, j': nat)
    requires var c := History(maxlen, l, channel, hs);
      p in c.peers && q in c.peers &&
      var a := LiveOn(channel, c.peers[p].conn.sent);
      var b := LiveOn(channel, c.peers[q].conn.sent);
      i < j < |a| && i' < |b| && j' < |b| && a[i] == b[i'] && a[j] == b[j']
    ensures i' < j'
  {
    var c := History(maxlen, l, channel, hs);
    HistoryChannel(maxlen, l, channel, hs);
    CL.AnyInterleaving(maxlen, Published(hs));
    var x := SentIsSubsequenceOfLog(maxlen, l, channel, hs, p);
    var y := SentIsSubsequenceOfLog(maxlen, l, channel, hs, q);
    PicksAgree(c.chan.announced, x, LiveOn(channel, c.peers[p].conn.sent), y, LiveOn(channel, c.peers[q].conn.sent),
               i, j, i', j');
  }

  /** Two subsequences of one log without repeats cannot disagree on order. */
  lemma PicksAgree(log: seq<Entry>, x: seq<nat>, a: seq<Entry>, y: seq<nat>, b: seq<Entry>,
                   i: nat, j: nat, i': nat, j': nat)
    requires CL.Distinct(log) && Picks(x, log, a) && Picks(y, log, b)
    requires i < j < |a| && i' < |b| && j' < |b| && a[i] == b[i'] && a[j] == b[j']
    ensures i' < j'
  {
    assert log[x[i]].sequence == log[y[i']].sequence && log[x[j]].sequence == log[y[j']].sequence;
    assert x[i] == y[i'] && x[j] == y[j'];
  }

  /** A pick of a log in number order is in number order; a pick of the whole log is it. */
  lemma PickOrder(log: seq<Entry>, x: seq<nat>, picked: seq<Entry>)
    requires Picks(x, log, picked)
    ensures CL.Increasing(log) ==> CL.Increasing(picked)
    ensures |picked| == |log| ==> picked == log
  {
    if |picked| == |log| {
      forall i | 0 <= i < |log| ensures x[i] == i {
        PickIndex(x, |log|, i);
      }
    }
  }

  lemma {:induction false} PickIndex(x: seq<nat>, n: nat, i: nat)
    requires i < |x| && forall i, j :: 0 <= i < j < |x| ==> x[i] < x[j]
    requires forall i :: 0 <= i < |x| ==> x[i] < n
    ensures i <= x[i] <= n - (|x| - i)
  {
    PickAtLeast(x, i);
    PickAtMost(x, n, i);
  }

  lemma {:induction false} PickAtLeast(x: seq<nat>, i: nat)
    requires i < |x| && forall i, j :: 0 <= i < j < |x| ==> x[i] < x[j]
    ensures i <= x[i]
  {
    if i > 0 {
      PickAtLeast(x, i - 1);
    }
  }

  lemma {:induction false} PickAtMost(x: seq<nat>, n: nat, i: nat)
    requires i < |x| && forall i, j :: 0 <= i < j < |x| ==> x[i] < x[j]
    requires forall i :: 0 <= i < |x| ==> x[i] < n
    ensures x[i] <= n - (|x| - i)
    decreases |x| - i
  {
    if i + 1 < |x| {
      PickAtMost(x, n, i + 1);
    }
  }

  /** Sequence order: if no publisher announces after a higher number was announced, every
      connection sends live messages in sequence order; and one that has sent the whole log
      does so only then. */
  lemma SequenceOrderExactly(maxlen: nat, l: FC.Limits, channel: string, hs: seq<Happening>, p: nat)
    requires p in History(maxlen, l, channel, hs).peers
    ensures var c := History(maxlen, l, channel, hs);
      var sent := LiveOn(channel, c.peers[p].conn.sent);
      && (CL.NeverLate(maxlen, Published(hs)) ==> CL.Increasing(sent))
      && (|sent| == |c.chan.announced| ==> (CL.Increasing(sent) <==> CL.NeverLate(maxlen, Published(hs))))
  {
    var c := History(maxlen, l, channel, hs);
    HistoryChannel(maxlen, l, channel, hs);
    CL.SequenceOrderExactly(maxlen, Published(hs));
    var x := SentIsSubsequenceOfLog(maxlen, l, channel, hs, p);
    PickOrder(c.chan.announced, x, LiveOn(channel, c.peers[p].conn.sent));
  }

  /** With serialised publishes, failed or not, every connection sends live messages in
      sequence order. */
  lemma SerialOrderIsSequenceOrder(maxlen: nat, l: FC.Limits, channel: string, hs: seq<Happening>, p: nat)
    requires CL.Serialised(maxlen, Published(hs)) && p in History(maxlen, l, channel, hs).peers
    ensures CL.Increasing(LiveOn(channel, History(maxlen, l, channel, hs).peers[p].conn.sent))
  {
    CL.SerialisedNeverLate(maxlen, Published(hs));
    SequenceOrderExactly(maxlen, l, channel, hs, p);
  }
}
