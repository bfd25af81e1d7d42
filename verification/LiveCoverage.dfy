/**
 Which announcements a connection hears: every one while its node listens and it is
 subscribed, ACTIVE and has room, and none of those made while the node was not listening.
 */
module LiveCoverage {
  import opened Prelude
  import FC = FlowControl
  import CL = ChannelLog
  import opened Resume
  import opened LiveOrder

  /** The connection is subscribed and its node is listening. */
  ghost predicate Attentive(c: Cluster, p: nat) {
    && p in c.peers && c.peers[p].subscribed
    && c.peers[p].node in c.nodes && c.nodes[c.peers[p].node].listening
    && c.nodes[c.peers[p].node].seen <= |c.chan.announced|
  }

  ghost function Seen(c: Cluster, p: nat): nat
    requires Attentive(c, p)
  {
    c.nodes[c.peers[p].node].seen
  }

  /** Neither the node's subscription nor the connection's ends. */
  predicate Uninterrupted(h: Happening, p: nat, n: nat) {
    !(h.Losing? && h.node == n) && !(h.Subscribing? && h.peer == p && !h.on)
  }

  /** Between the two states the connection has accepted exactly what its node was done with,
      unless it was terminated or had no room for something. */
  ghost predicate KeptUp(channel: string, c0: Cluster, c: Cluster, p: nat)
    requires Attentive(c0, p)
  {
    && Attentive(c, p) && c.peers[p].node == c0.peers[p].node
    && Seen(c0, p) <= Seen(c, p)
    && |c0.peers[p].refused| <= |c.peers[p].refused|
    && (c.peers[p].conn.status.Active? && |c.peers[p].refused| == |c0.peers[p].refused| ==>
          LiveOn(channel, c.peers[p].conn.accepted) ==
            LiveOn(channel, c0.peers[p].conn.accepted) + c.chan.announced[Seen(c0, p)..Seen(c, p)])
  }

  /** One delivery by the connection's node. */
  lemma OfferKeepsUp(l: FC.Limits, channel: string, p: Peer, announced: seq<Entry>, i: nat, size: nat)
    requires i < |announced| && p.subscribed
    ensures var p' := Offer(l, p, p.node, MessageFrame(channel, announced[i], size, true), i);
      && p'.node == p.node && p'.subscribed && |p.refused| <= |p'.refused|
      && (p'.conn.status.Active? ==> p.conn.status.Active?)
      && (p'.conn.status.Active? && |p'.refused| == |p.refused| ==>
            LiveOn(channel, p'.conn.accepted) == LiveOn(channel, p.conn.accepted) + [announced[i]])
  {
    LiveOnSnoc(channel, p.conn.accepted, MessageFrame(channel, announced[i], size, true));
  }

  lemma SliceGrows(log: seq<Entry>, a: nat, b: nat)
    requires a <= b < |log|
    ensures log[a..b] + [log[b]] == log[a..b + 1]
  {
  }

  lemma DeliveringKeepsUp(maxlen: nat, l: FC.Limits, channel: string, c0: Cluster, c: Cluster, p: nat, n: nat, size: nat)
    requires Attentive(c0, p) && KeptUp(channel, c0, c, p)
    ensures KeptUp(channel, c0, Happen(maxlen, l, channel, c, Delivering(n, size)), p)
  {
    if n == c.peers[p].node && Seen(c, p) < |c.chan.announced| {
      OfferKeepsUp(l, channel, c.peers[p], c.chan.announced, Seen(c, p), size);
      SliceGrows(c.chan.announced, Seen(c0, p), Seen(c, p));
    }
  }

  lemma FlowingKeepsUp(maxlen: nat, l: FC.Limits, channel: string, c0: Cluster, c: Cluster, p: nat, q: nat, e: FC.Event)
    requires Attentive(c0, p) && KeptUp(channel, c0, c, p)
    ensures KeptUp(channel, c0, Happen(maxlen, l, channel, c, Flowing(q, e)), p)
  {
    if q == p && !(e.Enqueue? && LiveMessage(channel, e.frame)) {
      FlowKeepsLive(l, channel, c.peers[p].conn, e);
      FlowStaysInactive(l, c.peers[p].conn, e);
    }
  }

  lemma AnnouncingKeepsUp(maxlen: nat, l: FC.Limits, channel: string, c0: Cluster, c: Cluster, p: nat, e: CL.Event)
    requires Attentive(c0, p) && KeptUp(channel, c0, c, p)
    ensures KeptUp(channel, c0, Happen(maxlen, l, channel, c, Announcing(e)), p)
  {
    var announced := CL.Step(maxlen, c.chan, e).announced;
    assert c.chan.announced <= announced;
    assert announced[Seen(c0, p)..Seen(c, p)] == c.chan.announced[Seen(c0, p)..Seen(c, p)];
  }

  lemma HappenKeepsUp(maxlen: nat, l: FC.Limits, channel: string, c0: Cluster, c: Cluster, p: nat, h: Happening)
    requires Attentive(c0, p) && KeptUp(channel, c0, c, p) && Uninterrupted(h, p, c0.peers[p].node)
    ensures KeptUp(channel, c0, Happen(maxlen, l, channel, c, h), p)
  {
    match h {
      case Announcing(e) => AnnouncingKeepsUp(maxlen, l, channel, c0, c, p, e);
      case Delivering(n, size) => DeliveringKeepsUp(maxlen, l, channel, c0, c, p, n, size);
      case Flowing(q, e) => FlowingKeepsUp(maxlen, l, channel, c0, c, p, q, e);
      case _ =>
    }
  }

  lemma {:induction false} KeepsUp(maxlen: nat, l: FC.Limits, channel: string, hs: seq<Happening>, more: seq<Happening>, p: nat)
    requires Attentive(History(maxlen, l, channel, hs), p)
    requires forall h :: h in more ==> Uninterrupted(h, p, History(maxlen, l, channel, hs).peers[p].node)
    ensures KeptUp(channel, History(maxlen, l, channel, hs), History(maxlen, l, channel, hs + more), p)
  {
    var c0 := History(maxlen, l, channel, hs);
    if more == [] {
      assert hs + more == hs;
      KeptUpAtFirst(channel, c0, p);
    } else {
      var front, h := more[..|more| - 1], more[|more| - 1];
      KeepsUp(maxlen, l, channel, hs, front, p);
      SnocLast(hs, more);
      HistorySnoc(maxlen, l, channel, hs + front, h);
      HappenKeepsUp(maxlen, l, channel, c0, History(maxlen, l, channel, hs + front), p, h);
    }
  }

  lemma KeptUpAtFirst(channel: string, c: Cluster, p: nat)
    requires Attentive(c, p)
    ensures KeptUp(channel, c, c, p)
  {
    assert c.chan.announced[Seen(c, p)..Seen(c, p)] == [];
  }

  /** Nothing is skipped: as long as a node keeps listening and a connection on it stays
      subscribed and ACTIVE and refuses nothing, the connection accepts every announcement
      its node delivers, once each and in order, and no other live message. */
  lemma NothingSkipped(maxlen: nat, l: FC.Limits, channel: string, hs: seq<Happening>, more: seq<Happening>, p: nat)
    requires Attentive(History(maxlen, l, channel, hs), p)
    requires var c0 := History(maxlen, l, channel, hs);
      var c := History(maxlen, l, channel, hs + more);
      && (forall h :: h in more ==> Uninterrupted(h, p, c0.peers[p].node))
      && p in c.peers && c.peers[p].conn.status.Active? && |c.peers[p].refused| == |c0.peers[p].refused|
    ensures var c0 := History(maxlen, l, channel, hs);
      var c := History(maxlen, l, channel, hs + more);
      && Attentive(c, p) && Seen(c0, p) <= Seen(c, p)
      && LiveOn(channel, c.peers[p].conn.accepted) ==
           LiveOn(channel, c0.peers[p].conn.accepted) + c.chan.announced[Seen(c0, p)..Seen(c, p)]
  {
    KeepsUp(maxlen, l, channel, hs, more, p);
  }

  // ---------------------------------------------------------------- while nobody listens

  /** What the connection has heard since is at or beyond `from`, and so is what is next. */
  ghost predicate HeardFrom(c: Cluster, p: nat, n: nat, known: nat, from: nat) {
    && p in c.peers && c.peers[p].node == n && known <= |c.peers[p].heard| && from <= |c.chan.announced|
    && (forall i :: known <= i < |c.peers[p].heard| ==> c.peers[p].heard[i] >= from)
    && (n in c.nodes && c.nodes[n].listening ==> c.nodes[n].seen >= from)
  }

  lemma HeardFromStep(maxlen: nat, l: FC.Limits, channel: string, c: Cluster, h: Happening, p: nat, n: nat, known: nat, from: nat)
    requires HeardFrom(c, p, n, known, from)
    ensures HeardFrom(Happen(maxlen, l, channel, c, h), p, n, known, from)
  {
  }

  predicate ListensOn(c: Cluster, n: nat) {
    n in c.nodes && c.nodes[n].listening
  }

  /** What was announced while a node was not listening is never heard by its connections: at
      any such moment, all they hear later was announced later still. */
  lemma {:induction false} MissedWhileLost(maxlen: nat, l: FC.Limits, channel: string, hs: seq<Happening>, more: seq<Happening>, p: nat)
    requires var c0 := History(maxlen, l, channel, hs);
      p in c0.peers && !ListensOn(c0, c0.peers[p].node)
    ensures var c0 := History(maxlen, l, channel, hs);
      HeardFrom(History(maxlen, l, channel, hs + more), p, c0.peers[p].node, |c0.peers[p].heard|, |c0.chan.announced|)
  {
    var c0 := History(maxlen, l, channel, hs);
    if more == [] {
      assert hs + more == hs;
    } else {
      var front, h := more[..|more| - 1], more[|more| - 1];
      MissedWhileLost(maxlen, l, channel, hs, front, p);
      SnocLast(hs, more);
      HistorySnoc(maxlen, l, channel, hs + front, h);
      HeardFromStep(maxlen, l, channel, History(maxlen, l, channel, hs + front), h, p, c0.peers[p].node,
                    |c0.peers[p].heard|, |c0.chan.announced|);
    }
  }

  /** A node listens from when it subscribes until it loses the subscription, and nothing else
      starts or stops it. */
  lemma ListensExactly(maxlen: nat, l: FC.Limits, channel: string, hs: seq<Happening>, h: Happening, n: nat)
    ensures var c, c' := History(maxlen, l, channel, hs), History(maxlen, l, channel, hs + [h]);
      ListensOn(c', n) <==> h == Listening(n) || (ListensOn(c, n) && h != Losing(n))
  {
    HistorySnoc(maxlen, l, channel, hs, h);
  }

  /** A connection that has unsubscribed hears nothing more until it subscribes again. */
  lemma {:induction false} UnsubscribedHearsNothing(maxlen: nat, l: FC.Limits, channel: string, hs: seq<Happening>, p: nat,
                                                    more: seq<Happening>)
    requires p in History(maxlen, l, channel, hs).peers && Subscribing(p, true) !in more
    ensures var c0 := History(maxlen, l, channel, hs);
      var c := History(maxlen, l, channel, hs + [Subscribing(p, false)] + more);
      p in c.peers && !c.peers[p].subscribed && c.peers[p].heard == c0.peers[p].heard
  {
    var left := hs + [Subscribing(p, false)];
    if more == [] {
      assert left + more == left;
      HistorySnoc(maxlen, l, channel, hs, Subscribing(p, false));
    } else {
      var front, h := more[..|more| - 1], more[|more| - 1];
      UnsubscribedHearsNothing(maxlen, l, channel, hs, p, front);
      SnocLast(left, more);
      HistorySnoc(maxlen, l, channel, left + front, h);
      UnsubscribedStep(maxlen, l, channel, History(maxlen, l, channel, left + front), p, h);
    }
  }

  lemma UnsubscribedStep(maxlen: nat, l: FC.Limits, channel: string, c: Cluster, p: nat, h: Happening)
    requires p in c.peers && !c.peers[p].subscribed && h != Subscribing(p, true)
    ensures var c' := Happen(maxlen, l, channel, c, h);
      p in c'.peers && !c'.peers[p].subscribed && c'.peers[p].heard == c.peers[p].heard
  {
  }
}
