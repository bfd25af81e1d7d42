/**
 Every announcement log can be heard in full: for any run of the publishers there is a
 history of the cluster in which a connection sends exactly the log.  So whenever
 publishers announce out of sequence, some subscriber can see it.
 */
module LiveRuns {
  import opened Prelude
  import FC = FlowControl
  import CL = ChannelLog
  import opened Resume
  import opened LiveOrder

  ghost predicate Idle(c: FC.Conn) {
    && c.status.Active? && c.sender.AtLoopHead?
    && c.queue == [] && c.queueBytes == 0 && c.inflight == []
  }

  /** The sender takes, sends and the client acknowledges one message. */
  function Cycle(f: FC.Frame): seq<FC.Event>
    requires f.Tracked()
  {
    [FC.LoopHead, FC.Get, FC.CheckWindow, FC.SendDone(true), FC.Ack(f.Key())]
  }

  lemma {:induction false} RunOfFive(l: FC.Limits, c: FC.Conn, es: seq<FC.Event>)
    requires |es| == 5
    ensures FC.Run(l, c, es) ==
      FC.Step(l, FC.Step(l, FC.Step(l, FC.Step(l, FC.Step(l, c, es[0]), es[1]), es[2]), es[3]), es[4])
  {
    assert es[..4][..3] == es[..3] && es[..3][..2] == es[..2] && es[..2][..1] == es[..1] && es[..1][..0] == [];
    assert FC.Run(l, c, es[..1]) == FC.Step(l, c, es[0]);
    assert FC.Run(l, c, es[..2]) == FC.Step(l, FC.Run(l, c, es[..1]), es[1]);
    assert FC.Run(l, c, es[..3]) == FC.Step(l, FC.Run(l, c, es[..2]), es[2]);
    assert FC.Run(l, c, es[..4]) == FC.Step(l, FC.Run(l, c, es[..3]), es[3]);
  }

  lemma CycleSends(l: FC.Limits, c: FC.Conn, f: FC.Frame)
    requires Idle(c) && f.Tracked() && f.size == 0 && l.queueMessages >= 1 && l.inflight >= 1
    ensures FC.Admit(l, c, f).Accepted?
    ensures var c' := FC.Run(l, FC.EnqueueStep(l, c, f), Cycle(f));
      Idle(c') && c'.sent == c.sent + [f]
  {
    var c0 := FC.EnqueueStep(l, c, f);
    RunOfFive(l, c0, Cycle(f));
    var c2 := FC.Step(l, FC.Step(l, c0, FC.LoopHead), FC.Get);
    assert c0.queue == [f] && c2.sender == FC.CheckingWindow(f) && c2.queue == [];
    var c4 := FC.Step(l, FC.Step(l, c2, FC.CheckWindow), FC.SendDone(true));
    assert c4.inflight == [f.Key()] && c4.inflight[..0] == [];
    assert FC.Unacked(c4.inflight, f.Key()) == [];
    assert c4.sent == c.sent + [f] && c4.sender.AtLoopHead? && c4.status.Active? && c4.queueBytes == 0;
  }

  function Flowings(p: nat, es: seq<FC.Event>): seq<Happening> {
    seq(|es|, i requires 0 <= i < |es| => Flowing(p, es[i]))
  }

  /** One connection running on its own. */
  lemma {:induction false} OnlyFlowing(maxlen: nat, l: FC.Limits, channel: string, hs: seq<Happening>, p: nat, es: seq<FC.Event>)
    requires p in History(maxlen, l, channel, hs).peers && forall e :: e in es ==> !e.Enqueue?
    ensures var c := History(maxlen, l, channel, hs);
      History(maxlen, l, channel, hs + Flowings(p, es)) == WithConn(c, p, FC.Run(l, c.peers[p].conn, es))
    ensures Published(hs + Flowings(p, es)) == Published(hs)
  {
    var c := History(maxlen, l, channel, hs);
    if es == [] {
      assert hs + Flowings(p, es) == hs;
      assert WithConn(c, p, c.peers[p].conn).peers == c.peers;
    } else {
      var front, e := es[..|es| - 1], es[|es| - 1];
      OnlyFlowing(maxlen, l, channel, hs, p, front);
      assert hs + Flowings(p, es) == hs + Flowings(p, front) + [Flowing(p, e)];
      HistorySnoc(maxlen, l, channel, hs + Flowings(p, front), Flowing(p, e));
      FlowOne(maxlen, l, channel, c, p, FC.Run(l, c.peers[p].conn, front), e);
    }
  }

  function WithConn(c: Cluster, p: nat, conn: FC.Conn): Cluster
    requires p in c.peers
  {
    c.(peers := c.peers[p := c.peers[p].(conn := conn)])
  }

  lemma FlowOne(maxlen: nat, l: FC.Limits, channel: string, c: Cluster, p: nat, conn: FC.Conn, e: FC.Event)
    requires p in c.peers && !e.Enqueue?
    ensures Happen(maxlen, l, channel, WithConn(c, p, conn), Flowing(p, e)) == WithConn(c, p, FC.Step(l, conn, e))
  {
    assert WithConn(WithConn(c, p, conn), p, FC.Step(l, conn, e)).peers == WithConn(c, p, FC.Step(l, conn, e)).peers;
  }

  /** Connection 0 has sent the whole log and is ready for the next announcement. */
  ghost predicate Ready(channel: string, c: Cluster) {
    && 0 in c.nodes && c.nodes[0] == Node(true, |c.chan.announced|)
    && 0 in c.peers && c.peers[0].node == 0 && c.peers[0].subscribed && Idle(c.peers[0].conn)
    && LiveOn(channel, c.peers[0].conn.sent) == c.chan.announced
  }

  /** Connection 0 has sent all of the log but the last announcement. */
  ghost predicate OneBehind(channel: string, c: Cluster) {
    && c.chan.announced != []
    && 0 in c.nodes && c.nodes[0] == Node(true, |c.chan.announced| - 1)
    && 0 in c.peers && c.peers[0].node == 0 && c.peers[0].subscribed && Idle(c.peers[0].conn)
    && LiveOn(channel, c.peers[0].conn.sent) == c.chan.announced[..|c.chan.announced| - 1]
  }

  /** The announcement that is next. */
  function Next(channel: string, c: Cluster): FC.Frame
    requires c.chan.announced != []
  {
    MessageFrame(channel, c.chan.announced[|c.chan.announced| - 1], 0, true)
  }

  lemma DeliverNext(maxlen: nat, l: FC.Limits, channel: string, c: Cluster)
    requires OneBehind(channel, c)
    ensures var c' := Happen(maxlen, l, channel, c, Delivering(0, 0));
      && c'.chan == c.chan && 0 in c'.nodes && c'.nodes[0] == Node(true, |c.chan.announced|)
      && 0 in c'.peers && c'.peers[0].node == 0 && c'.peers[0].subscribed
      && c'.peers[0].conn == FC.EnqueueStep(l, c.peers[0].conn, Next(channel, c))
  {
  }

  lemma SendNext(l: FC.Limits, channel: string, c: Cluster)
    requires OneBehind(channel, c) && l.queueMessages >= 1 && l.inflight >= 1
    ensures var f := Next(channel, c);
      var conn := FC.Run(l, FC.EnqueueStep(l, c.peers[0].conn, f), Cycle(f));
      Idle(conn) && LiveOn(channel, conn.sent) == c.chan.announced
  {
    CycleSends(l, c.peers[0].conn, Next(channel, c));
    LiveOnSnoc(channel, c.peers[0].conn.sent, Next(channel, c));
  }

  /** Delivering the announcement that is next, and sending it. */
  lemma HearNext(maxlen: nat, l: FC.Limits, channel: string, hs: seq<Happening>) returns (hs': seq<Happening>)
    requires l.queueMessages >= 1 && l.inflight >= 1 && OneBehind(channel, History(maxlen, l, channel, hs))
    ensures Ready(channel, History(maxlen, l, channel, hs')) && Published(hs') == Published(hs)
  {
    var c := History(maxlen, l, channel, hs);
    var delivered := hs + [Delivering(0, 0)];
    HistorySnoc(maxlen, l, channel, hs, Delivering(0, 0));
    DeliverNext(maxlen, l, channel, c);
    OnlyFlowing(maxlen, l, channel, delivered, 0, Cycle(Next(channel, c)));
    SendNext(l, channel, c);
    hs' := delivered + Flowings(0, Cycle(Next(channel, c)));
  }

  /** One more command, and the connection keeps up. */
  lemma KeepUp(maxlen: nat, l: FC.Limits, channel: string, hs: seq<Happening>, e: CL.Event) returns (hs': seq<Happening>)
    requires l.queueMessages >= 1 && l.inflight >= 1 && Ready(channel, History(maxlen, l, channel, hs))
    ensures Ready(channel, History(maxlen, l, channel, hs')) && Published(hs') == Published(hs) + [e]
  {
    var c := History(maxlen, l, channel, hs);
    hs' := hs + [Announcing(e)];
    HistorySnoc(maxlen, l, channel, hs, Announcing(e));
    if CL.Step(maxlen, c.chan, e).announced != c.chan.announced {
      hs' := HearNext(maxlen, l, channel, hs');
    }
  }

  lemma HistoryOfThree(maxlen: nat, l: FC.Limits, channel: string, h1: Happening, h2: Happening, h3: Happening)
    returns (hs: seq<Happening>)
    requires !h1.Announcing? && !h2.Announcing? && !h3.Announcing?
    ensures History(maxlen, l, channel, hs) ==
      Happen(maxlen, l, channel, Happen(maxlen, l, channel, Happen(maxlen, l, channel, QUIET, h1), h2), h3)
    ensures Published(hs) == []
  {
    var one := [] + [h1];
    HistorySnoc(maxlen, l, channel, [], h1);
    HistorySnoc(maxlen, l, channel, one, h2);
    HistorySnoc(maxlen, l, channel, one + [h2], h3);
    hs := one + [h2] + [h3];
  }

  /** A node listens and a connection on it subscribes. */
  lemma Opening(maxlen: nat, l: FC.Limits, channel: string) returns (hs: seq<Happening>)
    ensures Ready(channel, History(maxlen, l, channel, hs)) && Published(hs) == []
  {
    hs := HistoryOfThree(maxlen, l, channel, Listening(0), Joining(0, 0), Subscribing(0, true));
    var c := Happen(maxlen, l, channel, Happen(maxlen, l, channel, QUIET, Listening(0)), Joining(0, 0));
    assert c.peers[0] == Peer(0, false, FC.FRESH, [], []) && c.nodes[0] == Node(true, 0) && c.chan == CL.EMPTY;
  }

  lemma {:induction false} KeepUpThroughout(maxlen: nat, l: FC.Limits, channel: string, commands: seq<CL.Event>)
    returns (hs: seq<Happening>)
    requires l.queueMessages >= 1 && l.inflight >= 1
    ensures Ready(channel, History(maxlen, l, channel, hs)) && Published(hs) == commands
  {
    if commands == [] {
      hs := Opening(maxlen, l, channel);
    } else {
      hs := KeepUpThroughout(maxlen, l, channel, commands[..|commands| - 1]);
      hs := KeepUp(maxlen, l, channel, hs, commands[|commands| - 1]);
      assert commands == commands[..|commands| - 1] + [commands[|commands| - 1]];
    }
  }

  /** For every run of the publishers, whatever its interleaving and failures, and any
      positive limits, some history has a connection that sends the whole log; it sends in
      sequence order exactly when no publisher announced after a higher number. */
  lemma EveryLogCanBeHeard(maxlen: nat, l: FC.Limits, channel: string, commands: seq<CL.Event>)
    returns (hs: seq<Happening>)
    requires l.queueMessages >= 1 && l.inflight >= 1
    ensures Published(hs) == commands && 0 in History(maxlen, l, channel, hs).peers
    ensures var sent := LiveOn(channel, History(maxlen, l, channel, hs).peers[0].conn.sent);
      && sent == CL.Run(maxlen, commands).announced
      && (CL.Increasing(sent) <==> CL.NeverLate(maxlen, commands))
  {
    hs := KeepUpThroughout(maxlen, l, channel, commands);
    HistoryChannel(maxlen, l, channel, hs);
    CL.SequenceOrderExactly(maxlen, commands);
  }

  /** Interleaved publishers: a connection sends number 2 before number 1. */
  lemma SentOutOfOrder(maxlen: nat, l: FC.Limits, channel: string) returns (hs: seq<Happening>)
    requires l.queueMessages >= 1 && l.inflight >= 1
    ensures 0 in History(maxlen, l, channel, hs).peers
    ensures LiveOn(channel, History(maxlen, l, channel, hs).peers[0].conn.sent) == [Entry("b", 2, ""), Entry("a", 1, "")]
  {
    var commands := CL.AnnouncedOutOfOrder(maxlen);
    hs := EveryLogCanBeHeard(maxlen, l, channel, commands);
  }
}
