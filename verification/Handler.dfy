/** The RESUME branch of the frame loop, over the mutable connection and registry. */
module Handler {
  import opened Prelude
  import FC = FlowControl
  import opened Connections
  import Recovery
  import opened Resume
  import Tenancy

  /** One position a RESUME frame asks about. */
  datatype Ask = Ask(channel: string, lastAck: int)

  ghost predicate Keys(asks: seq<Ask>) {
    forall i, j :: 0 <= i < j < |asks| ==> asks[i].channel != asks[j].channel
  }

  function StreamOf(streams: map<string, seq<Entry>>, channel: string): seq<Entry> {
    if channel in streams then streams[channel] else []
  }

  function Sizes(channel: string, messages: seq<Entry>, size: (string, Entry) -> nat): seq<nat> {
    seq(|messages|, i requires 0 <= i < |messages| => size(channel, messages[i]))
  }

  lemma {:induction false} FramesPrefix(channel: string, messages: seq<Entry>, sizes: seq<nat>, i: nat)
    requires |sizes| == |messages| && i < |messages|
    ensures ReplayFrames(channel, messages, sizes)[..i + 1] ==
      ReplayFrames(channel, messages, sizes)[..i] + [MessageFrame(channel, messages[i], sizes[i], false)]
  {
  }

  /** The inner loop: queue the replayed messages until one raises. */
  method EnqueueReplay(conn: Connection, channel: string, messages: seq<Entry>, size: (string, Entry) -> nat)
    returns (ok: bool)
    modifies conn`queue, conn`queueBytes, conn`messagesDropped, conn`accepted
    ensures Filled(conn.View(), ok) ==
      EnqueueAll(conn.limits, old(conn.View()), ReplayFrames(channel, messages, Sizes(channel, messages, size)))
  {
    ghost var frames := ReplayFrames(channel, messages, Sizes(channel, messages, size));
    for i := 0 to |messages|
      invariant Filled(conn.View(), true) == EnqueueAll(conn.limits, old(conn.View()), frames[..i])
    {
      FramesPrefix(channel, messages, Sizes(channel, messages, size), i);
      assert frames[..i + 1][..i] == frames[..i];
      var outcome := conn.Enqueue(MessageFrame(channel, messages[i], size(channel, messages[i]), false));
      if outcome.SlowConsumer? {
        EnqueueAllStops(conn.limits, old(conn.View()), frames, i + 1);
        return false;
      }
    }
    assert frames[..|messages|] == frames;
    return true;
  }

  /** Once a frame has raised, the rest are not tried. */
  lemma {:induction false} EnqueueAllStops(l: FC.Limits, c: FC.Conn, fs: seq<FC.Frame>, i: nat)
    requires i <= |fs| && !EnqueueAll(l, c, fs[..i]).ok
    ensures EnqueueAll(l, c, fs) == EnqueueAll(l, c, fs[..i])
    decreases |fs|
  {
    if i < |fs| {
      var front := fs[..|fs| - 1];
      assert front[..i] == fs[..i];
      EnqueueAllStops(l, c, front, i);
    } else {
      assert fs[..i] == fs;
    }
  }

  lemma {:induction false} OtherChannelUntouched(channel: string, other: string, messages: seq<Entry>, sizes: seq<nat>)
    requires channel != other && |sizes| == |messages|
    ensures MessagesOn(other, ReplayFrames(channel, messages, sizes)) == []
  {
    if messages != [] {
      var n := |messages| - 1;
      OtherChannelUntouched(channel, other, messages[..n], sizes[..n]);
      assert ReplayFrames(channel, messages, sizes)[..n] == ReplayFrames(channel, messages[..n], sizes[..n]);
    }
  }

  /** What queueing a replay that fits adds, channel by channel. */
  lemma ReplayAdds(l: FC.Limits, c: FC.Conn, channel: string, messages: seq<Entry>, sizes: seq<nat>, other: string)
    requires |sizes| == |messages|
    requires EnqueueAll(l, c, ReplayFrames(channel, messages, sizes)).ok
    ensures MessagesOn(other, EnqueueAll(l, c, ReplayFrames(channel, messages, sizes)).conn.accepted) ==
      MessagesOn(other, c.accepted) + if other == channel then messages else []
  {
    if other == channel {
      ReplayFills(l, c, channel, messages, sizes);
    } else {
      var fs := ReplayFrames(channel, messages, sizes);
      EnqueueAllFills(l, c, fs);
      MessagesOnConcat(other, c.accepted, fs);
      OtherChannelUntouched(channel, other, messages, sizes);
    }
  }

  /** The channel is not mentioned in the answer and has no new messages queued. */
  ghost predicate Untouched(channel: string, replayed: map<string, nat>, gaps: seq<string>,
                            before: seq<FC.Frame>, after: seq<FC.Frame>) {
    && channel !in replayed && channel !in gaps
    && MessagesOn(channel, after) == MessagesOn(channel, before)
  }

  /** A channel outside the tenant's namespace is ignored; one with a gap is reported and
      gets nothing; any other has its whole replay queued, in order, and counted. */
  ghost predicate Answered(tenant: string, streams: map<string, seq<Entry>>, ask: Ask,
                           replayed: map<string, nat>, gaps: seq<string>,
                           before: seq<FC.Frame>, after: seq<FC.Frame>) {
    var r := Recovery.Replay(StreamOf(streams, ask.channel), ask.lastAck);
    if !Tenancy.Belongs(ask.channel, tenant) then Untouched(ask.channel, replayed, gaps, before, after)
    else if r.gap then
      && ask.channel in gaps && ask.channel !in replayed
      && MessagesOn(ask.channel, after) == MessagesOn(ask.channel, before)
    else
      && ask.channel !in gaps && ask.channel in replayed && replayed[ask.channel] == |r.messages|
      && MessagesOn(ask.channel, after) == MessagesOn(ask.channel, before) + r.messages
  }

  ghost function Channels(asks: seq<Ask>): set<string> {
    set a | a in asks :: a.channel
  }

  /** Every ask answered, and every other channel left alone. */
  ghost predicate AllAnswered(tenant: string, streams: map<string, seq<Entry>>, asks: seq<Ask>,
                              replayed: map<string, nat>, gaps: seq<string>,
                              before: seq<FC.Frame>, after: seq<FC.Frame>) {
    && (forall a :: a in asks ==> Answered(tenant, streams, a, replayed, gaps, before, after))
    && (forall channel :: channel !in Channels(asks) ==> Untouched(channel, replayed, gaps, before, after))
  }

  /** What one turn of the loop does to the answer and the queued messages. */
  ghost predicate Turn(tenant: string, streams: map<string, seq<Entry>>, ask: Ask,
                       replayed: map<string, nat>, gaps: seq<string>, before: seq<FC.Frame>,
                       replayed': map<string, nat>, gaps': seq<string>, after: seq<FC.Frame>) {
    var r := Recovery.Replay(StreamOf(streams, ask.channel), ask.lastAck);
    var mine := Tenancy.Belongs(ask.channel, tenant);
    && replayed' == (if mine && !r.gap then replayed[ask.channel := |r.messages|] else replayed)
    && gaps' == (if mine && r.gap then gaps + [ask.channel] else gaps)
    && (forall other :: MessagesOn(other, after) ==
          MessagesOn(other, before) + if other == ask.channel && mine && !r.gap then r.messages else [])
  }

  lemma TurnAnswers(tenant: string, streams: map<string, seq<Entry>>, asks: seq<Ask>, ask: Ask,
                    replayed: map<string, nat>, gaps: seq<string>, mid: seq<FC.Frame>,
                    replayed': map<string, nat>, gaps': seq<string>, before: seq<FC.Frame>, after: seq<FC.Frame>)
    requires AllAnswered(tenant, streams, asks, replayed, gaps, before, mid)
    requires ask.channel !in Channels(asks)
    requires Turn(tenant, streams, ask, replayed, gaps, mid, replayed', gaps', after)
    ensures AllAnswered(tenant, streams, asks + [ask], replayed', gaps', before, after)
  {
    assert Untouched(ask.channel, replayed, gaps, before, mid);
    forall a | a in asks + [ask] ensures Answered(tenant, streams, a, replayed', gaps', before, after) {
      if a in asks {
        assert a.channel in Channels(asks);
        assert Answered(tenant, streams, a, replayed, gaps, before, mid);
      }
    }
    forall channel | channel !in Channels(asks + [ask])
      ensures Untouched(channel, replayed', gaps', before, after)
    {
      assert ask in asks + [ask];
      assert forall a :: a in asks ==> a in asks + [ask];
      assert Untouched(channel, replayed, gaps, before, mid);
    }
  }

  // ---------------------------------------------------------------- the whole RESUME

  /** The channel is the tenant's and has no gap, so it is replayed. */
  predicate Granted(tenant: string, streams: map<string, seq<Entry>>, ask: Ask) {
    Tenancy.Belongs(ask.channel, tenant) && !Recovery.Replay(StreamOf(streams, ask.channel), ask.lastAck).gap
  }

  function AskFrames(tenant: string, streams: map<string, seq<Entry>>, size: (string, Entry) -> nat, ask: Ask): seq<FC.Frame> {
    if !Granted(tenant, streams, ask) then []
    else
      var messages := Recovery.Replay(StreamOf(streams, ask.channel), ask.lastAck).messages;
      ReplayFrames(ask.channel, messages, Sizes(ask.channel, messages, size))
  }

  /** Everything the asks call for, in their order. */
  function Frames(tenant: string, streams: map<string, seq<Entry>>, size: (string, Entry) -> nat, asks: seq<Ask>): seq<FC.Frame> {
    if asks == [] then []
    else Frames(tenant, streams, size, asks[..|asks| - 1]) + AskFrames(tenant, streams, size, asks[|asks| - 1])
  }

  /** The tenant's own channels with a gap, in the order asked. */
  function Gapped(tenant: string, streams: map<string, seq<Entry>>, asks: seq<Ask>): seq<string> {
    if asks == [] then []
    else
      var rest, ask := Gapped(tenant, streams, asks[..|asks| - 1]), asks[|asks| - 1];
      if Tenancy.Belongs(ask.channel, tenant) && Recovery.Replay(StreamOf(streams, ask.channel), ask.lastAck).gap
      then rest + [ask.channel] else rest
  }

  lemma {:induction false} FramesNormal(tenant: string, streams: map<string, seq<Entry>>, size: (string, Entry) -> nat, asks: seq<Ask>)
    ensures forall f :: f in Frames(tenant, streams, size, asks) ==> f.priority.Normal?
  {
    if asks != [] {
      FramesNormal(tenant, streams, size, asks[..|asks| - 1]);
    }
  }

  lemma {:induction false} FramesFirst(tenant: string, streams: map<string, seq<Entry>>, size: (string, Entry) -> nat, asks: seq<Ask>, k: nat)
    requires k <= |asks|
    ensures Frames(tenant, streams, size, asks[..k]) <= Frames(tenant, streams, size, asks)
  {
    if k == |asks| {
      assert asks[..k] == asks;
    } else {
      FramesFirst(tenant, streams, size, asks[..|asks| - 1], k);
      assert asks[..|asks| - 1][..k] == asks[..k];
    }
  }

  /** The RESUME after `done` asks: what it has queued, granted and reported. */
  ghost predicate Progress(tenant: string, streams: map<string, seq<Entry>>, size: (string, Entry) -> nat, asks: seq<Ask>,
                           l: FC.Limits, before: FC.Conn, after: FC.Conn, gaps: seq<string>) {
    && Filled(after, true) == EnqueueAll(l, before, Frames(tenant, streams, size, asks))
    && gaps == Gapped(tenant, streams, asks)
  }

  lemma ProgressOne(tenant: string, streams: map<string, seq<Entry>>, size: (string, Entry) -> nat, asks: seq<Ask>, k: nat,
                    l: FC.Limits, before: FC.Conn, mid: FC.Conn, gaps: seq<string>, after: Filled)
    requires k < |asks| && Progress(tenant, streams, size, asks[..k], l, before, mid, gaps)
    requires after == EnqueueAll(l, mid, AskFrames(tenant, streams, size, asks[k]))
    ensures after == EnqueueAll(l, before, Frames(tenant, streams, size, asks[..k + 1]))
    ensures Gapped(tenant, streams, asks[..k + 1]) ==
      gaps + if Tenancy.Belongs(asks[k].channel, tenant) && !Granted(tenant, streams, asks[k]) then [asks[k].channel] else []
  {
    assert asks[..k + 1][..k] == asks[..k];
    EnqueueAllConcat(l, before, Frames(tenant, streams, size, asks[..k]), AskFrames(tenant, streams, size, asks[k]));
  }

  /** Once an ask does not fit, neither does the whole, and the rest are not tried. */
  lemma ProgressEnds(tenant: string, streams: map<string, seq<Entry>>, size: (string, Entry) -> nat, asks: seq<Ask>, k: nat,
                     l: FC.Limits, before: FC.Conn, mid: FC.Conn, gaps: seq<string>)
    requires k < |asks| && Progress(tenant, streams, size, asks[..k], l, before, mid, gaps)
    requires !EnqueueAll(l, before, Frames(tenant, streams, size, asks[..k + 1])).ok
    ensures EnqueueAll(l, before, Frames(tenant, streams, size, asks)) ==
      EnqueueAll(l, before, Frames(tenant, streams, size, asks[..k + 1]))
    ensures AllFit(l, before, Frames(tenant, streams, size, asks[..k]))
    ensures !AllFit(l, before, Frames(tenant, streams, size, asks[..k + 1]))
  {
    var first, all := Frames(tenant, streams, size, asks[..k + 1]), Frames(tenant, streams, size, asks);
    FramesFirst(tenant, streams, size, asks, k + 1);
    assert all[..|first|] == first;
    EnqueueAllStops(l, before, all, |first|);
    FitsExactly(tenant, streams, size, asks[..k], l, before);
    FitsExactly(tenant, streams, size, asks[..k + 1], l, before);
  }

  lemma FitsExactly(tenant: string, streams: map<string, seq<Entry>>, size: (string, Entry) -> nat, asks: seq<Ask>,
                    l: FC.Limits, c: FC.Conn)
    ensures EnqueueAll(l, c, Frames(tenant, streams, size, asks)).ok <==> AllFit(l, c, Frames(tenant, streams, size, asks))
  {
    FramesNormal(tenant, streams, size, asks);
    var n := EnqueueAllExactly(l, c, Frames(tenant, streams, size, asks));
  }

  /** One turn of the loop. */
  method ResumeOne(conn: Connection, streams: map<string, seq<Entry>>, size: (string, Entry) -> nat, ask: Ask,
                   replayed: map<string, nat>, gaps: seq<string>)
    returns (ok: bool, replayed': map<string, nat>, gaps': seq<string>)
    modifies conn`queue, conn`queueBytes, conn`messagesDropped, conn`accepted
    ensures Filled(conn.View(), ok) ==
      EnqueueAll(conn.limits, old(conn.View()), AskFrames(conn.tenantId, streams, size, ask))
    ensures ok ==> Turn(conn.tenantId, streams, ask, replayed, gaps, old(conn.accepted), replayed', gaps', conn.accepted)
    ensures !ok ==> Granted(conn.tenantId, streams, ask)
  {
    replayed', gaps' := replayed, gaps;
    if !Tenancy.Belongs(ask.channel, conn.tenantId) {
      return true, replayed', gaps';
    }
    var messages, gap := Recovery.ReplayChannel(StreamOf(streams, ask.channel), ask.lastAck);
    if gap {
      return true, replayed', gaps + [ask.channel];
    }
    ok := EnqueueReplay(conn, ask.channel, messages, size);
    if ok {
      forall other ensures MessagesOn(other, conn.accepted) ==
        MessagesOn(other, old(conn.accepted)) + if other == ask.channel then messages else []
      {
        ReplayAdds(conn.limits, old(conn.View()), ask.channel, messages, Sizes(ask.channel, messages, size), other);
      }
    }
    replayed' := replayed[ask.channel := |messages|];
  }

  /** The listing with the channels of `replayed` added. */
  ghost function Joined(scan: map<string, Listing>, id: string, replayed: map<string, nat>): map<string, Listing>
    requires id in scan
  {
    WithChannels(scan, id, scan[id].channels + replayed.Keys)
  }

  lemma JoinedNone(scan: map<string, Listing>, id: string)
    requires id in scan
    ensures Joined(scan, id, map[]) == scan
  {
    var none: map<string, nat> := map[];
    assert none.Keys == {};
    assert scan[id].channels + {} == scan[id].channels;
  }

  lemma JoinedOne(scan: map<string, Listing>, id: string, replayed: map<string, nat>, channel: string, n: nat)
    requires id in scan
    ensures var joined := Joined(scan, id, replayed);
      WithChannels(joined, id, joined[id].channels + {channel}) == Joined(scan, id, replayed[channel := n])
  {
    assert replayed[channel := n].Keys == replayed.Keys + {channel};
    assert scan[id].channels + replayed.Keys + {channel} == scan[id].channels + (replayed.Keys + {channel});
  }

  /** One turn of the loop with the subscription that follows a replay. */
  method ResumeAndSubscribe(registry: ConnectionRegistry, conn: Connection, streams: map<string, seq<Entry>>,
                            size: (string, Entry) -> nat, ask: Ask, replayed: map<string, nat>, gaps: seq<string>,
                            ghost scan: map<string, Listing>)
    returns (ok: bool, replayed': map<string, nat>, gaps': seq<string>)
    requires registry.Valid() && conn.connectionId in registry.byId && ask.channel !in replayed
    requires conn.connectionId in scan && registry.scan == Joined(scan, conn.connectionId, replayed)
    modifies conn`queue, conn`queueBytes, conn`messagesDropped, conn`accepted
    modifies registry`byChannel, registry`scan, registry.byId.Values`subscriptions
    ensures registry.Valid()
    ensures Filled(conn.View(), ok) ==
      EnqueueAll(conn.limits, old(conn.View()), AskFrames(conn.tenantId, streams, size, ask))
    ensures ok ==> Turn(conn.tenantId, streams, ask, replayed, gaps, old(conn.accepted), replayed', gaps', conn.accepted)
    ensures !ok ==> replayed' == replayed && gaps' == gaps && Granted(conn.tenantId, streams, ask)
    ensures registry.scan == Joined(scan, conn.connectionId, replayed')
  {
    ok, replayed', gaps' := ResumeOne(conn, streams, size, ask, replayed, gaps);
    if !ok {
      replayed', gaps' := replayed, gaps;
    } else if ask.channel in replayed' {
      JoinedOne(scan, conn.connectionId, replayed, ask.channel, replayed'[ask.channel]);
      registry.Subscribe(conn.connectionId, ask.channel);
    }
  }

  lemma NextAsk(tenant: string, streams: map<string, seq<Entry>>, asks: seq<Ask>, k: nat,
                replayed: map<string, nat>, gaps: seq<string>, before: seq<FC.Frame>, after: seq<FC.Frame>)
    requires Keys(asks) && k < |asks|
    requires AllAnswered(tenant, streams, asks[..k], replayed, gaps, before, after)
    ensures asks[k].channel !in Channels(asks[..k]) && asks[k].channel !in replayed
    ensures asks[..k + 1] == asks[..k] + [asks[k]]
  {
  }

  /** The RESUME has dealt with these asks. */
  ghost predicate Underway(tenant: string, streams: map<string, seq<Entry>>, size: (string, Entry) -> nat, asks: seq<Ask>,
                           l: FC.Limits, before: FC.Conn, after: FC.Conn, replayed: map<string, nat>, gaps: seq<string>) {
    && AllAnswered(tenant, streams, asks, replayed, gaps, before.accepted, after.accepted)
    && Progress(tenant, streams, size, asks, l, before, after, gaps)
  }

  lemma AnsweredNext(tenant: string, streams: map<string, seq<Entry>>, size: (string, Entry) -> nat, asks: seq<Ask>, k: nat,
                     l: FC.Limits, before: FC.Conn, mid: FC.Conn, replayed: map<string, nat>, gaps: seq<string>,
                     after: FC.Conn, replayed': map<string, nat>, gaps': seq<string>)
    requires k < |asks| && Underway(tenant, streams, size, asks[..k], l, before, mid, replayed, gaps)
    requires asks[k].channel !in Channels(asks[..k]) && asks[..k + 1] == asks[..k] + [asks[k]]
    requires Filled(after, true) == EnqueueAll(l, mid, AskFrames(tenant, streams, size, asks[k]))
    requires Turn(tenant, streams, asks[k], replayed, gaps, mid.accepted, replayed', gaps', after.accepted)
    ensures Underway(tenant, streams, size, asks[..k + 1], l, before, after, replayed', gaps')
  {
    ProgressOne(tenant, streams, size, asks, k, l, before, mid, gaps, Filled(after, true));
    TurnAnswers(tenant, streams, asks[..k], asks[k], replayed, gaps, mid.accepted, replayed', gaps', before.accepted, after.accepted);
  }

  /** How a RESUME ends.  It succeeds exactly when there is room for everything the asks call
      for, and then every asked channel is answered as above, the gapped ones are reported
      in the order asked, and nothing else about the connection's messages changes.  If not,
      it raises at the first ask whose replay does not fit with those before it, which have
      been answered; as many frames stay queued as there was room for. */
  ghost predicate Ended(tenant: string, streams: map<string, seq<Entry>>, size: (string, Entry) -> nat, asks: seq<Ask>,
                        l: FC.Limits, before: FC.Conn, after: FC.Conn, ok: bool, replayed: map<string, nat>,
                        gaps: seq<string>, done: nat, mid: FC.Conn) {
    && (ok <==> AllFit(l, before, Frames(tenant, streams, size, asks)))
    && Filled(after, ok) == EnqueueAll(l, before, Frames(tenant, streams, size, asks))
    && done <= |asks| && (ok <==> done == |asks|) && (ok ==> mid == after)
    && AllAnswered(tenant, streams, asks[..done], replayed, gaps, before.accepted, mid.accepted)
    && gaps == Gapped(tenant, streams, asks[..done])
    && (!ok ==>
          && Granted(tenant, streams, asks[done])
          && AllFit(l, before, Frames(tenant, streams, size, asks[..done]))
          && !AllFit(l, before, Frames(tenant, streams, size, asks[..done + 1])))
  }

  lemma EndsAnswered(tenant: string, streams: map<string, seq<Entry>>, size: (string, Entry) -> nat, asks: seq<Ask>,
                     l: FC.Limits, before: FC.Conn, after: FC.Conn, replayed: map<string, nat>, gaps: seq<string>)
    requires Underway(tenant, streams, size, asks, l, before, after, replayed, gaps)
    ensures Ended(tenant, streams, size, asks, l, before, after, true, replayed, gaps, |asks|, after)
  {
    assert asks[..|asks|] == asks;
    FitsExactly(tenant, streams, size, asks, l, before);
  }

  lemma EndsRaising(tenant: string, streams: map<string, seq<Entry>>, size: (string, Entry) -> nat, asks: seq<Ask>, k: nat,
                    l: FC.Limits, before: FC.Conn, mid: FC.Conn, replayed: map<string, nat>, gaps: seq<string>, after: FC.Conn)
    requires k < |asks| && Underway(tenant, streams, size, asks[..k], l, before, mid, replayed, gaps)
    requires Granted(tenant, streams, asks[k])
    requires Filled(after, false) == EnqueueAll(l, mid, AskFrames(tenant, streams, size, asks[k]))
    ensures Ended(tenant, streams, size, asks, l, before, after, false, replayed, gaps, k, mid)
  {
    ProgressOne(tenant, streams, size, asks, k, l, before, mid, gaps, Filled(after, false));
    ProgressEnds(tenant, streams, size, asks, k, l, before, mid, gaps);
    FitsExactly(tenant, streams, size, asks, l, before);
  }

  /** RESUME ends as above, and the connection is subscribed to exactly the channels replayed
      besides those it had. */
  method HandleResume(registry: ConnectionRegistry, conn: Connection, streams: map<string, seq<Entry>>,
                      size: (string, Entry) -> nat, asks: seq<Ask>)
    returns (ok: bool, replayed: map<string, nat>, gaps: seq<string>, ghost done: nat, ghost mid: FC.Conn)
    requires Keys(asks)
    requires registry.Valid() && conn.connectionId in registry.byId
    modifies conn`queue, conn`queueBytes, conn`messagesDropped, conn`accepted
    modifies registry`byChannel, registry`scan, registry.byId.Values`subscriptions
    ensures registry.Valid()
    ensures Ended(conn.tenantId, streams, size, asks, conn.limits, old(conn.View()), conn.View(), ok, replayed, gaps, done, mid)
    ensures registry.scan == Joined(old(registry.scan), conn.connectionId, replayed)
  {
    ok, replayed, gaps, done, mid := true, map[], [], 0, conn.View();
    JoinedNone(registry.scan, conn.connectionId);
    for k := 0 to |asks|
      invariant ok && registry.Valid() && done == k && mid == conn.View()
      invariant Underway(conn.tenantId, streams, size, asks[..k], conn.limits, old(conn.View()), mid, replayed, gaps)
      invariant registry.scan == Joined(old(registry.scan), conn.connectionId, replayed)
    {
      var replayed', gaps';
      NextAsk(conn.tenantId, streams, asks, k, replayed, gaps, old(conn.accepted), mid.accepted);
      ok, replayed', gaps' := ResumeAndSubscribe(registry, conn, streams, size, asks[k], replayed, gaps, old(registry.scan));
      if !ok {
        EndsRaising(conn.tenantId, streams, size, asks, k, conn.limits, old(conn.View()), mid, replayed, gaps, conn.View());
        return;
      }
      AnsweredNext(conn.tenantId, streams, size, asks, k, conn.limits, old(conn.View()), mid, replayed, gaps,
                   conn.View(), replayed', gaps');
      replayed, gaps, done, mid := replayed', gaps', k + 1, conn.View();
    }
    assert asks[..|asks|] == asks;
    EndsAnswered(conn.tenantId, streams, size, asks, conn.limits, old(conn.View()), mid, replayed, gaps);
  }
}
