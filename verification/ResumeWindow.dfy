/**
 Between the stream read of a RESUME and the attachment of the listener: runs in which a
 message is lost there, and runs in which one arrives twice.
 */
module ResumeWindow {
  import opened Prelude
  import FC = FlowControl
  import CL = ChannelLog
  import Recovery
  import opened Resume

  /** Serialised publishes, and no one else enqueues the channel's messages. */
  ghost predicate Smooth(x: Scenario, events: seq<Event>) {
    && Alone(x.channel, events) && CL.Serialised(x.maxlen, x.AllCommands(events))
    && (CL.Unfailing(x.past) ==> CL.Unfailing(x.AllCommands(events)))
  }

  lemma SmoothAfter(x: Scenario, events: seq<Event>, commands: seq<CL.Event>)
    requires Alone(x.channel, events) && Commands(events) == commands
    requires CL.Serialised(x.maxlen, x.past + commands) && CL.Unfailing(commands)
    ensures Smooth(x, events)
  {
  }

  /** The commands of a whole publish. */
  function PublishCommands(id: string): seq<CL.Event> {
    [CL.Allocate(0, id, ""), CL.Append(0), CL.Announce(0)]
  }

  lemma PublishSerialised(maxlen: nat, past: seq<CL.Event>, id: string)
    requires CL.Serialised(maxlen, past) && CL.Run(maxlen, past).publishers == map[]
    ensures CL.Serialised(maxlen, past + PublishCommands(id)) && CL.Unfailing(PublishCommands(id))
  {
    var all := CL.PublishAlone(maxlen, past, id);
    OneByOne(past, PublishCommands(id));
  }

  lemma OneByOne(past: seq<CL.Event>, three: seq<CL.Event>)
    requires |three| == 3
    ensures past + three == past + [three[0]] + [three[1]] + [three[2]]
  {
  }

  /** A whole publish, then the listener attaches at the end of the announcement log. */
  function PublishAndAttach(id: string, at: nat): seq<Event> {
    [Publishing(CL.Allocate(0, id, "")), Publishing(CL.Append(0)), Publishing(CL.Announce(0)), Attach(at)]
  }

  lemma CommandsOfFour(events: seq<Event>)
    requires |events| == 4 && events[0].Publishing? && events[1].Publishing? && events[2].Publishing? && events[3].Attach?
    ensures Commands(events) == [events[0].cl, events[1].cl, events[2].cl]
  {
    assert events[..3][..2] == events[..2] && events[..2][..1] == events[..1] && events[..1][..0] == [];
    assert Commands(events[..1]) == [] + [events[0].cl];
    assert Commands(events[..2]) == [events[0].cl] + [events[1].cl];
    assert Commands(events[..3]) == [events[0].cl, events[1].cl] + [events[2].cl];
  }

  /** The run takes `s` to `s'` by publishing a message and only then attaching the listener. */
  ghost predicate LostBetween(channel: string, s: System, events: seq<Event>, s': System, id: string) {
    && Alone(channel, events) && Commands(events) == PublishCommands(id)
    && s'.chan.announced == s.chan.announced + [Entry(id, s.chan.counter + 1, "")]
    && s'.listener == Attached(|s.chan.announced| + 1, |s.chan.announced| + 1)
    && s'.conn == s.conn && s'.condemned == s.condemned
  }

  lemma PublishAndAttachRun(maxlen: nat, l: FC.Limits, channel: string, s: System, id: string)
    requires s.listener.Detached? && s.chan.publishers == map[]
    ensures var events := PublishAndAttach(id, |s.chan.announced| + 1);
      LostBetween(channel, s, events, Run(maxlen, l, channel, s, events), id)
  {
    var events := PublishAndAttach(id, |s.chan.announced| + 1);
    CommandsOfFour(events);
    var e := Entry(id, s.chan.counter + 1, "");
    RunOfFour(maxlen, l, channel, s, events);
    var s1 := Step(maxlen, l, channel, s, Publishing(CL.Allocate(0, id, "")));
    assert s1.chan.publishers == map[0 := CL.Allocated(e)];
    var s2 := Step(maxlen, l, channel, s1, Publishing(CL.Append(0)));
    assert s2.chan.publishers == map[0 := CL.Buffered(e)];
    var s3 := Step(maxlen, l, channel, s2, Publishing(CL.Announce(0)));
    assert s3.chan.announced == s.chan.announced + [e];
  }

  lemma {:induction false} RunOfFour(maxlen: nat, l: FC.Limits, channel: string, s: System, es: seq<Event>)
    requires |es| == 4
    ensures Run(maxlen, l, channel, s, es) ==
      Step(maxlen, l, channel, Step(maxlen, l, channel, Step(maxlen, l, channel, Step(maxlen, l, channel, s, es[0]), es[1]), es[2]), es[3])
  {
    assert es[..3][..2] == es[..2] && es[..2][..1] == es[..1] && es[..1][..0] == [];
    assert Run(maxlen, l, channel, s, es[..1]) == Step(maxlen, l, channel, s, es[0]);
    assert Run(maxlen, l, channel, s, es[..2]) == Step(maxlen, l, channel, Run(maxlen, l, channel, s, es[..1]), es[1]);
    assert Run(maxlen, l, channel, s, es[..3]) == Step(maxlen, l, channel, Run(maxlen, l, channel, s, es[..2]), es[2]);
  }

  ghost predicate Losing(x: Scenario, events: seq<Event>, id: string)
    requires |x.sizes| == |x.Replayed().messages|
  {
    LostBetween(x.channel, x.Start(), events, x.After(events), id)
  }

  lemma LosingRun(x: Scenario, id: string) returns (events: seq<Event>)
    requires x.Clean() && x.Channel().publishers == map[]
    ensures Losing(x, events, id)
  {
    events := PublishAndAttach(id, |x.Channel().announced| + 1);
    PublishAndAttachRun(x.maxlen, x.limits, x.channel, x.Start(), id);
  }

  lemma LosingIsSmooth(x: Scenario, events: seq<Event>, id: string)
    requires |x.sizes| == |x.Replayed().messages| && x.Channel().publishers == map[]
    requires CL.Serialised(x.maxlen, x.past) && Losing(x, events, id)
    ensures Smooth(x, events)
  {
    PublishSerialised(x.maxlen, x.past, id);
    SmoothAfter(x, events, PublishCommands(id));
  }

  /** What it means for the resumed connection. */
  ghost predicate Lost(x: Scenario, events: seq<Event>, e: Entry)
    requires |x.sizes| == |x.Replayed().messages|
  {
    var s := x.After(events);
    && s.chan.announced == x.Channel().announced + [e] && e.sequence == x.Channel().counter + 1
    && s.listener == Attached(|s.chan.announced|, |s.chan.announced|)
    && s.conn == x.Start().conn && !s.condemned && Alone(x.channel, events)
  }

  lemma LosingLoses(x: Scenario, events: seq<Event>, id: string)
    requires |x.sizes| == |x.Replayed().messages| && Losing(x, events, id)
    ensures Lost(x, events, Entry(id, x.Channel().counter + 1, ""))
  {
  }

  lemma LostSurvives(x: Scenario, events: seq<Event>, e: Entry)
    requires x.Clean() && x.Start().conn.status.Active? && Lost(x, events, e)
    ensures x.Survives(events) && e !in x.Got(events)
  {
    PastIsNotHeard(x, events, e);
  }

  /** A message published between the read and the listener's attachment never arrives. */
  lemma WindowLoses(x: Scenario, id: string) returns (events: seq<Event>)
    requires x.Clean() && CL.Serialised(x.maxlen, x.past) && x.Channel().publishers == map[]
    requires x.Start().conn.status.Active?
    ensures x.Survives(events) && Smooth(x, events)
    ensures var s := x.After(events);
      var e := Entry(id, x.Channel().counter + 1, "");
      && s.chan.announced == x.Channel().announced + [e] && e !in x.Got(events)
      && s.listener == Attached(|s.chan.announced|, |s.chan.announced|)
  {
    events := LosingRun(x, id);
    LosingIsSmooth(x, events, id);
    LosingLoses(x, events, id);
    LostSurvives(x, events, Entry(id, x.Channel().counter + 1, ""));
  }

  lemma PastIsNotHeard(x: Scenario, events: seq<Event>, e: Entry)
    requires x.Survives(events) && e.sequence > x.Channel().counter
    requires var s := x.After(events);
      s.chan.announced == x.Channel().announced + [e] && s.listener == Attached(|s.chan.announced|, |s.chan.announced|)
    ensures e !in x.Got(events)
  {
    NotAmongReplayed(x, e);
    ArrivesExactly(x, events, |x.Channel().announced|);
  }

  lemma NotAmongReplayed(x: Scenario, e: Entry)
    requires e.sequence > x.Channel().counter
    ensures e !in x.Channel().stream
  {
    CL.AnyInterleaving(x.maxlen, x.past);
    StreamBounded(x.Channel());
  }

  lemma AttachAnnounceListen(maxlen: nat, l: FC.Limits, channel: string, s: System, t: nat, e: Entry, size: nat)
    requires s.listener.Detached? && s.conn.status.Active? && s.chan.publishers == map[t := CL.Buffered(e)]
    requires FC.Admit(l, s.conn, MessageFrame(channel, e, size, true)).Accepted?
    ensures var events := [Attach(|s.chan.announced|), Publishing(CL.Announce(t)), Listen(size)];
      var s' := Run(maxlen, l, channel, s, events);
      && s'.chan.announced == s.chan.announced + [e]
      && s'.listener == Attached(|s.chan.announced|, |s.chan.announced| + 1)
      && s'.conn.status.Active? && s'.condemned == s.condemned
      && Commands(events) == [CL.Announce(t)] && Alone(channel, events)
  {
    var at := |s.chan.announced|;
    var events := [Attach(at), Publishing(CL.Announce(t)), Listen(size)];
    assert events[..2][..1] == events[..1] && events[..1][..0] == [];
    var attached := s.(listener := Attached(at, at));
    assert Run(maxlen, l, channel, s, events[..1]) == attached;
    assert Run(maxlen, l, channel, s, events[..2]) == attached.(chan := CL.Step(maxlen, s.chan, CL.Announce(t)));
    CommandsOfThree(events);
  }

  lemma CommandsOfThree(events: seq<Event>)
    requires |events| == 3 && !events[0].Publishing? && events[1].Publishing? && !events[2].Publishing?
    ensures Commands(events) == [events[1].cl]
  {
    assert events[..2][..1] == events[..1] && events[..1][..0] == [];
    assert Commands(events[..1]) == [];
    assert Commands(events[..2]) == [] + [events[1].cl];
  }

  /** A message appended before the read and announced after the listener attached arrives
      twice. */
  lemma WindowRepeats(x: Scenario, t: nat, e: Entry, size: nat) returns (events: seq<Event>)
    requires x.Clean() && CL.Serialised(x.maxlen, x.past)
    requires x.Channel().publishers == map[t := CL.Buffered(e)] && e in x.Channel().stream && e.sequence > x.position
    requires x.Start().conn.status.Active?
    requires FC.Admit(x.limits, x.Start().conn, MessageFrame(x.channel, e, size, true)).Accepted?
    ensures x.Survives(events) && Smooth(x, events)
    ensures x.After(events).listener == Attached(|x.Channel().announced|, |x.Channel().announced| + 1)
    ensures Twice(x.Got(events), e)
  {
    var at := |x.Channel().announced|;
    events := [Attach(at), Publishing(CL.Announce(t)), Listen(size)];
    AttachAnnounceListen(x.maxlen, x.limits, x.channel, x.Start(), t, e, size);
    CL.SerialisedSnoc(x.maxlen, x.past, CL.Announce(t));
    SmoothAfter(x, events, [CL.Announce(t)]);
    ArrivesExactly(x, events, at);
  }

  // ---------------------------------------------------------------- such resumes exist

  const ROOMY := FC.Limits(10, 10, 10)
  const ONE := Entry("a", 1, "")
  const TWO := Entry("b", 2, "")

  /** A resume with nothing to replay. */
  lemma NothingToReplay(x: Scenario)
    requires x.early == [] && x.sizes == [] && x.Replayed() == Recovery.ReplayResult([], false)
    ensures x.Clean() && x.Start() == System(x.Channel(), FC.FRESH, Detached, false)
  {
    assert ReplayFrames(x.channel, [], []) == [];
  }

  /** A resume with one message to replay. */
  lemma OneToReplay(x: Scenario, e: Entry)
    requires x.early == [] && x.limits == ROOMY && x.sizes == [0]
    requires x.Replayed() == Recovery.ReplayResult([e], false)
    ensures x.Clean() && x.Start().conn == FC.EnqueueStep(ROOMY, FC.FRESH, MessageFrame(x.channel, e, 0, false))
  {
    OneFrame(x.channel, e);
  }

  lemma OneFrame(channel: string, e: Entry)
    ensures EnqueueAll(ROOMY, FC.FRESH, ReplayFrames(channel, [e], [0])) ==
      Filled(FC.EnqueueStep(ROOMY, FC.FRESH, MessageFrame(channel, e, 0, false)), true)
  {
    var fs := ReplayFrames(channel, [e], [0]);
    assert fs[..0] == [] && fs == [MessageFrame(channel, e, 0, false)];
  }

  /** Replay of everything, and of all but the first entry. */
  lemma ReplayFromStart(stream: seq<Entry>)
    requires CL.Numbered(stream) && |stream| >= 1
    ensures Recovery.Replay(stream, 1) == Recovery.ReplayResult(stream[1..], false)
    ensures Recovery.Replay(stream, |stream|) == Recovery.ReplayResult([], false)
  {
    Recovery.ReplayOfNumbered(stream, 1);
    Recovery.ReplayOfNumbered(stream, |stream|);
  }

  /** One message published. */
  lemma Published(maxlen: nat) returns (past: seq<CL.Event>)
    requires maxlen >= 1
    ensures CL.Serialised(maxlen, past) && CL.Unfailing(past)
    ensures CL.Run(maxlen, past) == CL.Channel(1, [ONE], map[], [ONE], [ONE], {})
  {
    past := CL.PublishAlone(maxlen, [], "a");
    CL.RoomForOne([], ONE, maxlen);
  }

  /** From position 1, with nothing to replay. */
  lemma CaughtUp(maxlen: nat) returns (x: Scenario)
    requires maxlen >= 1
    ensures x.Clean() && x.maxlen == maxlen && x.position == 1
    ensures CL.Serialised(maxlen, x.past) && CL.Unfailing(x.past)
    ensures x.Channel() == CL.Channel(1, [ONE], map[], [ONE], [ONE], {}) && x.Start().conn == FC.FRESH
  {
    var past := Published(maxlen);
    x := Scenario(maxlen, ROOMY, "room", past, [], 1, []);
    ReplayFromStart([ONE]);
    NothingToReplay(x);
  }

  /** One message published, and another up to XADD. */
  lemma PublishedAndAppended(maxlen: nat) returns (past: seq<CL.Event>)
    requires maxlen >= 2
    ensures CL.Serialised(maxlen, past) && CL.Unfailing(past)
    ensures CL.Run(maxlen, past) == CL.Channel(2, [ONE, TWO], map[0 := CL.Buffered(TWO)], [ONE, TWO], [ONE], {})
  {
    var first := Published(maxlen);
    CL.RoomForOne([ONE], TWO, maxlen);
    assert [ONE] + [TWO] == [ONE, TWO];
    past := CL.AppendAlone(maxlen, first, "b");
  }

  /** From position 1, with one message to replay that is not announced yet. */
  lemma HalfPublished(maxlen: nat) returns (x: Scenario)
    requires maxlen >= 2
    ensures x.Clean() && x.maxlen == maxlen && x.position == 1 && x.limits == ROOMY
    ensures CL.Serialised(maxlen, x.past) && CL.Unfailing(x.past)
    ensures x.Channel() == CL.Channel(2, [ONE, TWO], map[0 := CL.Buffered(TWO)], [ONE, TWO], [ONE], {})
    ensures x.Start().conn == FC.EnqueueStep(ROOMY, FC.FRESH, MessageFrame(x.channel, TWO, 0, false))
  {
    var past := PublishedAndAppended(maxlen);
    x := Scenario(maxlen, ROOMY, "room", past, [], 1, [0]);
    ReplayFromStart([ONE, TWO]);
    assert [ONE, TWO][1..] == [TWO];
    OneToReplay(x, TWO);
  }

  /** Delivery is not always exactly once: a message can be lost. */
  lemma MessageLostInTheWindow(maxlen: nat) returns (x: Scenario, events: seq<Event>)
    requires maxlen >= 1
    ensures x.Survives(events) && Steady(x, events)
    ensures x.After(events).listener == Attached(2, 2) && ReadTo(x) == 1 && x.position == 1
    ensures x.After(events).chan.announced == [ONE, TWO] && TWO !in x.Got(events)
  {
    x := CaughtUp(maxlen);
    events := LostAfterFirst(x);
  }

  lemma LostAfterFirst(x: Scenario) returns (events: seq<Event>)
    requires x.Clean() && x.maxlen >= 1 && x.position == 1 && x.Start().conn.status.Active?
    requires CL.Serialised(x.maxlen, x.past) && CL.Unfailing(x.past) && x.Channel().publishers == map[]
    requires x.Channel().counter == 1 && x.Channel().announced == [ONE]
    ensures x.Survives(events) && Steady(x, events)
    ensures x.After(events).chan.announced == [ONE, TWO] && x.After(events).listener == Attached(2, 2)
    ensures TWO !in x.Got(events)
  {
    events := WindowLoses(x, "b");
    assert x.After(events).chan.announced == [ONE] + [TWO];
  }

  /** And a message can arrive twice. */
  lemma MessageRepeatedInTheWindow(maxlen: nat) returns (x: Scenario, events: seq<Event>)
    requires maxlen >= 2
    ensures x.Survives(events) && Steady(x, events)
    ensures x.After(events).listener == Attached(1, 2) && ReadTo(x) == 2 && x.position == 1
    ensures Twice(x.Got(events), TWO)
  {
    x := HalfPublished(maxlen);
    events := WindowRepeats(x, 0, TWO, 0);
  }

  /** And a retained message can be out of reach, without a gap report: a client that has
      received and acknowledged number 2, announced first, never gets number 1. */
  lemma RetainedMessageNeverArrives(maxlen: nat) returns (x: Scenario, events: seq<Event>)
    requires maxlen >= 2
    ensures x.Survives(events) && x.position == 2 && ONE in x.Channel().stream
    ensures x.After(events).chan.announced == [TWO, ONE] && x.After(events).listener == Attached(2, 2)
    ensures ONE !in x.Got(events)
  {
    var past := CL.AnnouncedOutOfOrder(maxlen);
    x := Scenario(maxlen, ROOMY, "room", past, [], 2, []);
    ReplayFromStart([ONE, TWO]);
    NothingToReplay(x);
    events := AttachOnly(x, 2);
    ArrivesExactly(x, events, 1);
  }

  lemma AttachOnly(x: Scenario, at: nat) returns (events: seq<Event>)
    requires x.Clean() && x.Start().conn.status.Active? && at <= |x.Channel().announced|
    ensures x.Survives(events) && x.After(events) == x.Start().(listener := Attached(at, at))
  {
    events := [Attach(at)];
    RunOfOne(x.maxlen, x.limits, x.channel, x.Start(), Attach(at));
    AloneWithout(x.channel, Attach(at));
  }

  lemma RunOfOne(maxlen: nat, l: FC.Limits, channel: string, s: System, e: Event)
    ensures Run(maxlen, l, channel, s, [e]) == Step(maxlen, l, channel, s, e)
  {
    assert [e][..0] == [];
    assert Run(maxlen, l, channel, s, [e][..0]) == s;
  }

  lemma AloneWithout(channel: string, e: Event)
    requires !e.Flow?
    ensures Alone(channel, [e])
  {
  }
}
