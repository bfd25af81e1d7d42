/**
 Resuming a session end to end: the replay read, the listener that attaches after
 it, the publishers, and the connection's queue, sender and window.
 */
module Resume {
  import opened Prelude
  import FC = FlowControl
  import CL = ChannelLog
  import Recovery

  /** A MESSAGE frame, as both fanout and replay build it. */
  function MessageFrame(channel: string, e: Entry, size: nat, live: bool): FC.Frame {
    FC.Frame(FC.Message(channel, e, live), size, FC.Normal, Some(channel), Some(e.sequence))
  }

  predicate On(channel: string, f: FC.Frame) {
    f.content.Message? && f.content.channel == channel
  }

  /** The messages of one channel among some frames, in order. */
  function MessagesOn(channel: string, fs: seq<FC.Frame>): seq<Entry> {
    if fs == [] then []
    else
      var rest := MessagesOn(channel, fs[..|fs| - 1]);
      var f := fs[|fs| - 1];
      if On(channel, f) then rest + [f.content.entry] else rest
  }

  function ReplayFrames(channel: string, messages: seq<Entry>, sizes: seq<nat>): seq<FC.Frame>
    requires |sizes| == |messages|
  {
    seq(|messages|, i requires 0 <= i < |messages| => MessageFrame(channel, messages[i], sizes[i], false))
  }

  datatype Filled = Filled(conn: FC.Conn, ok: bool)

  /** Enqueueing in order, stopping at the first frame that raises. */
  function EnqueueAll(l: FC.Limits, c: FC.Conn, fs: seq<FC.Frame>): Filled {
    if fs == [] then Filled(c, true)
    else
      var before := EnqueueAll(l, c, fs[..|fs| - 1]);
      var f := fs[|fs| - 1];
      if !before.ok || FC.Admit(l, before.conn, f).SlowConsumer? then Filled(before.conn, false)
      else Filled(FC.EnqueueStep(l, before.conn, f), true)
  }

  // ---------------------------------------------------------------- the system after the read

  /** A listener attached at a position of the announcement log, and how far it got. */
  datatype Listener = Detached | Attached(at: nat, cursor: nat)

  datatype System = System(chan: CL.Channel, conn: FC.Conn, listener: Listener, condemned: bool)

  datatype Event =
    | Publishing(cl: CL.Event)
    | Flow(fc: FC.Event)
    | Attach(at: nat)
    | Listen(size: nat)

  /** `deliver_local` for this connection: skipped unless ACTIVE; a rejected message
      schedules the connection's termination. */
  function Deliver(l: FC.Limits, s: System, f: FC.Frame): System {
    s.(conn := FC.OfferStep(l, s.conn, f), condemned := s.condemned || FC.Refuses(l, s.conn, f))
  }

  function Step(maxlen: nat, l: FC.Limits, channel: string, s: System, e: Event): System {
    match e
    case Publishing(cl) => s.(chan := CL.Step(maxlen, s.chan, cl))
    case Flow(fc) => s.(conn := FC.Step(l, s.conn, fc))
    case Attach(at) =>
      if s.listener.Detached? && at <= |s.chan.announced| then s.(listener := Attached(at, at)) else s
    case Listen(size) =>
      if s.listener.Attached? && s.listener.cursor < |s.chan.announced| then
        Deliver(l, s, MessageFrame(channel, s.chan.announced[s.listener.cursor], size, true))
        .(listener := Attached(s.listener.at, s.listener.cursor + 1))
      else s
  }

  function Run(maxlen: nat, l: FC.Limits, channel: string, s: System, events: seq<Event>): System {
    if events == [] then s
    else Step(maxlen, l, channel, Run(maxlen, l, channel, s, events[..|events| - 1]), events[|events| - 1])
  }

  /** No one else enqueues this channel's messages on the connection. */
  ghost predicate Alone(channel: string, events: seq<Event>) {
    forall e :: e in events && e.Flow? && e.fc.Enqueue? ==> !On(channel, e.fc.frame)
  }

  /** The publishers' commands in a run. */
  function Commands(events: seq<Event>): seq<CL.Event> {
    if events == [] then []
    else
      var rest := Commands(events[..|events| - 1]);
      if events[|events| - 1].Publishing? then rest + [events[|events| - 1].cl] else rest
  }

  // ---------------------------------------------------------------- invariant

  ghost predicate WithinLog(s: System) {
    s.listener.Attached? ==> s.listener.at <= s.listener.cursor <= |s.chan.announced|
  }

  /** The part of the announcement log the listener has handed over. */
  ghost function Heard(s: System): seq<Entry>
    requires WithinLog(s)
  {
    if s.listener.Detached? then [] else s.chan.announced[s.listener.at..s.listener.cursor]
  }

  ghost predicate Tracking(channel: string, s: System, base: seq<Entry>) {
    && WithinLog(s)
    && (s.conn.status.Active? && !s.condemned ==>
          MessagesOn(channel, s.conn.accepted) == base + Heard(s))
  }

  lemma {:induction false} MessagesOnConcat(channel: string, a: seq<FC.Frame>, b: seq<FC.Frame>)
    ensures MessagesOn(channel, a + b) == MessagesOn(channel, a) + MessagesOn(channel, b)
  {
    if b == [] {
      assert a + b == a;
    } else {
      MessagesOnConcat(channel, a, b[..|b| - 1]);
      assert (a + b)[..|a + b| - 1] == a + b[..|b| - 1];
    }
  }

  /** Only an enqueue adds to what a connection has accepted. */
  lemma FlowKeepsMessages(l: FC.Limits, channel: string, c: FC.Conn, e: FC.Event)
    requires e.Enqueue? ==> !On(channel, e.frame)
    ensures MessagesOn(channel, FC.Step(l, c, e).accepted) == MessagesOn(channel, c.accepted)
  {
  }

  lemma FlowStaysInactive(l: FC.Limits, c: FC.Conn, e: FC.Event)
    ensures FC.Step(l, c, e).status.Active? ==> c.status.Active?
  {
  }

  lemma TrackingPublish(maxlen: nat, l: FC.Limits, channel: string, s: System, base: seq<Entry>, e: CL.Event)
    requires Tracking(channel, s, base)
    ensures Tracking(channel, Step(maxlen, l, channel, s, Publishing(e)), base)
  {
  }

  lemma TrackingListen(maxlen: nat, l: FC.Limits, channel: string, s: System, base: seq<Entry>, size: nat)
    requires Tracking(channel, s, base)
    requires s.listener.Attached? && s.listener.cursor < |s.chan.announced|
    ensures Tracking(channel, Step(maxlen, l, channel, s, Listen(size)), base)
  {
  }

  lemma TrackingStep(maxlen: nat, l: FC.Limits, channel: string, s: System, base: seq<Entry>, e: Event)
    requires Tracking(channel, s, base)
    requires e.Flow? && e.fc.Enqueue? ==> !On(channel, e.fc.frame)
    ensures Tracking(channel, Step(maxlen, l, channel, s, e), base)
  {
    match e {
      case Publishing(cl) => TrackingPublish(maxlen, l, channel, s, base, cl);
      case Flow(fc) =>
        FlowKeepsMessages(l, channel, s.conn, fc);
        FlowStaysInactive(l, s.conn, fc);
      case Attach(at) =>
      case Listen(size) =>
        if s.listener.Attached? && s.listener.cursor < |s.chan.announced| {
          TrackingListen(maxlen, l, channel, s, base, size);
        }
    }
  }

  lemma {:induction false} TrackingRun(maxlen: nat, l: FC.Limits, channel: string, s: System, base: seq<Entry>, events: seq<Event>)
    requires Tracking(channel, s, base) && Alone(channel, events)
    ensures Tracking(channel, Run(maxlen, l, channel, s, events), base)
  {
    if events != [] {
      TrackingRun(maxlen, l, channel, s, base, events[..|events| - 1]);
      TrackingStep(maxlen, l, channel, Run(maxlen, l, channel, s, events[..|events| - 1]), base, events[|events| - 1]);
    }
  }

  /** What a system's run does to its connection. */
  function ConnEvents(maxlen: nat, l: FC.Limits, channel: string, s: System, events: seq<Event>): seq<FC.Event> {
    if events == [] then []
    else
      var front, e := events[..|events| - 1], events[|events| - 1];
      ConnEvents(maxlen, l, channel, s, front) + ConnEvent(channel, Run(maxlen, l, channel, s, front), e)
  }

  function ConnEvent(channel: string, s: System, e: Event): seq<FC.Event> {
    match e
    case Flow(fc) => [fc]
    case Listen(size) =>
      if s.listener.Attached? && s.listener.cursor < |s.chan.announced| && s.conn.status.Active?
      then [FC.Enqueue(MessageFrame(channel, s.chan.announced[s.listener.cursor], size, true))] else []
    case _ => []
  }

  lemma RunConcat(l: FC.Limits, c: FC.Conn, a: seq<FC.Event>, b: seq<FC.Event>)
    requires |b| <= 1
    ensures FC.Run(l, c, a + b) == if b == [] then FC.Run(l, c, a) else FC.Step(l, FC.Run(l, c, a), b[0])
  {
    if b == [] {
      assert a + b == a;
    } else {
      assert (a + b)[..|a|] == a;
    }
  }

  lemma ConnStep(maxlen: nat, l: FC.Limits, channel: string, s: System, e: Event)
    ensures var steps := ConnEvent(channel, s, e);
      |steps| <= 1 &&
      Step(maxlen, l, channel, s, e).conn == if steps == [] then s.conn else FC.Step(l, s.conn, steps[0])
  {
  }

  /** Whatever else the system does, its connection goes through a run of its own. */
  lemma {:induction false} ConnectionRuns(maxlen: nat, l: FC.Limits, channel: string, s: System, events: seq<Event>)
    ensures Run(maxlen, l, channel, s, events).conn == FC.Run(l, s.conn, ConnEvents(maxlen, l, channel, s, events))
  {
    if events != [] {
      var front, e := events[..|events| - 1], events[|events| - 1];
      ConnectionRuns(maxlen, l, channel, s, front);
      ConnStep(maxlen, l, channel, Run(maxlen, l, channel, s, front), e);
      RunConcat(l, s.conn, ConnEvents(maxlen, l, channel, s, front), ConnEvent(channel, Run(maxlen, l, channel, s, front), e));
    }
  }

  // ---------------------------------------------------------------- FIFO across the system

  lemma ConservedOne(maxlen: nat, l: FC.Limits, channel: string, s: System, e: Event)
    requires FC.Conserved(s.conn)
    ensures FC.Conserved(Step(maxlen, l, channel, s, e).conn)
  {
    match e {
      case Flow(fc) => FC.ConservedStep(l, s.conn, fc);
      case Listen(size) =>
        if s.listener.Attached? && s.listener.cursor < |s.chan.announced| {
          FC.ConservedEnqueue(l, s.conn, MessageFrame(channel, s.chan.announced[s.listener.cursor], size, true));
        }
      case _ =>
    }
  }

  lemma {:induction false} ConservedRun(maxlen: nat, l: FC.Limits, channel: string, s: System, events: seq<Event>)
    requires FC.Conserved(s.conn)
    ensures FC.Conserved(Run(maxlen, l, channel, s, events).conn)
  {
    if events != [] {
      ConservedRun(maxlen, l, channel, s, events[..|events| - 1]);
      ConservedOne(maxlen, l, channel, Run(maxlen, l, channel, s, events[..|events| - 1]), events[|events| - 1]);
    }
  }

  lemma {:induction false} EnqueueAllConserved(l: FC.Limits, c: FC.Conn, fs: seq<FC.Frame>)
    requires FC.Conserved(c)
    ensures FC.Conserved(EnqueueAll(l, c, fs).conn)
  {
    if fs != [] {
      EnqueueAllConserved(l, c, fs[..|fs| - 1]);
      FC.ConservedEnqueue(l, EnqueueAll(l, c, fs[..|fs| - 1]).conn, fs[|fs| - 1]);
    }
  }

  lemma {:induction false} EnqueueAllFills(l: FC.Limits, c: FC.Conn, fs: seq<FC.Frame>)
    requires forall f :: f in fs ==> f.priority.Normal?
    ensures var r := EnqueueAll(l, c, fs);
      r.conn.status == c.status && (r.ok ==> r.conn.accepted == c.accepted + fs)
  {
    if fs != [] {
      EnqueueAllFills(l, c, fs[..|fs| - 1]);
      assert fs == fs[..|fs| - 1] + [fs[|fs| - 1]];
    }
  }

  /** There is room for all of the frames within both bounds. */
  predicate AllFit(l: FC.Limits, c: FC.Conn, fs: seq<FC.Frame>) {
    fs == [] || (|c.queue| + |fs| <= l.queueMessages && c.queueBytes + FC.Bytes(fs) <= l.queueBytes)
  }

  /** The connection with the frames at the end of its queue and nothing else changed. */
  function Queued(c: FC.Conn, fs: seq<FC.Frame>): FC.Conn {
    c.(queue := c.queue + fs, queueBytes := c.queueBytes + FC.Bytes(fs), accepted := c.accepted + fs)
  }

  lemma AllFitPrefix(l: FC.Limits, c: FC.Conn, a: seq<FC.Frame>, b: seq<FC.Frame>)
    requires AllFit(l, c, a + b)
    ensures AllFit(l, c, a)
  {
    FC.BytesConcat(a, b);
  }

  lemma EnqueueLast(l: FC.Limits, c: FC.Conn, front: seq<FC.Frame>, f: FC.Frame)
    requires f.priority.Normal? && AllFit(l, c, front)
    ensures FC.Admit(l, Queued(c, front), f).SlowConsumer? <==> !AllFit(l, c, front + [f])
    ensures !FC.Admit(l, Queued(c, front), f).SlowConsumer? ==>
      FC.EnqueueStep(l, Queued(c, front), f) == Queued(c, front + [f])
  {
    assert (front + [f])[..|front|] == front;
    assert c.queue + front + [f] == c.queue + (front + [f]);
    assert c.accepted + front + [f] == c.accepted + (front + [f]);
  }

  /** The first `n` frames are queued, and no more because no more fit. */
  ghost predicate FilledTo(l: FC.Limits, c: FC.Conn, fs: seq<FC.Frame>, n: nat) {
    && n <= |fs| && EnqueueAll(l, c, fs) == Filled(Queued(c, fs[..n]), n == |fs|)
    && AllFit(l, c, fs[..n]) && (n < |fs| ==> !AllFit(l, c, fs[..n + 1]))
  }

  lemma EnqueueAllSnoc(l: FC.Limits, c: FC.Conn, front: seq<FC.Frame>, f: FC.Frame)
    ensures var before := EnqueueAll(l, c, front);
      EnqueueAll(l, c, front + [f]) ==
        if !before.ok || FC.Admit(l, before.conn, f).SlowConsumer? then Filled(before.conn, false)
        else Filled(FC.EnqueueStep(l, before.conn, f), true)
  {
    assert (front + [f])[..|front|] == front;
  }

  lemma FilledStays(l: FC.Limits, c: FC.Conn, front: seq<FC.Frame>, f: FC.Frame, n: nat)
    requires FilledTo(l, c, front, n) && n < |front|
    ensures FilledTo(l, c, front + [f], n)
  {
    EnqueueAllSnoc(l, c, front, f);
    assert (front + [f])[..n] == front[..n] && (front + [f])[..n + 1] == front[..n + 1];
  }

  lemma FilledGrows(l: FC.Limits, c: FC.Conn, front: seq<FC.Frame>, f: FC.Frame)
    requires FilledTo(l, c, front, |front|) && f.priority.Normal?
    ensures FilledTo(l, c, front + [f], if AllFit(l, c, front + [f]) then |front| + 1 else |front|)
  {
    EnqueueAllSnoc(l, c, front, f);
    assert front[..|front|] == front;
    EnqueueLast(l, c, front, f);
    assert (front + [f])[..|front|] == front && (front + [f])[..|front| + 1] == front + [f];
  }

  /** Enqueueing NORMAL frames one after another succeeds exactly when there is room for all
      of them together, and otherwise leaves as many as there is room for. */
  lemma {:induction false} EnqueueAllExactly(l: FC.Limits, c: FC.Conn, fs: seq<FC.Frame>) returns (n: nat)
    requires forall f :: f in fs ==> f.priority.Normal?
    ensures FilledTo(l, c, fs, n)
    ensures EnqueueAll(l, c, fs).ok <==> AllFit(l, c, fs)
  {
    if fs == [] {
      n := 0;
      assert Queued(c, []) == c;
    } else {
      var front, f := fs[..|fs| - 1], fs[|fs| - 1];
      n := EnqueueAllExactly(l, c, front);
      assert fs == front + [f];
      if n < |front| {
        FilledStays(l, c, front, f, n);
      } else {
        FilledGrows(l, c, front, f);
        n := if AllFit(l, c, front + [f]) then |front| + 1 else |front|;
      }
    }
    FilledIffFits(l, c, fs, n);
  }

  lemma FilledIffFits(l: FC.Limits, c: FC.Conn, fs: seq<FC.Frame>, n: nat)
    requires FilledTo(l, c, fs, n)
    ensures EnqueueAll(l, c, fs).ok <==> AllFit(l, c, fs)
  {
    if n < |fs| {
      assert fs == fs[..n + 1] + fs[n + 1..];
      if AllFit(l, c, fs) {
        AllFitPrefix(l, c, fs[..n + 1], fs[n + 1..]);
      }
    } else {
      assert fs[..n] == fs;
    }
  }

  /** Enqueueing two lists is enqueueing the one and, if it fitted, the other. */
  lemma {:induction false} EnqueueAllConcat(l: FC.Limits, c: FC.Conn, a: seq<FC.Frame>, b: seq<FC.Frame>)
    ensures EnqueueAll(l, c, a + b) ==
      var r := EnqueueAll(l, c, a);
      if r.ok then EnqueueAll(l, r.conn, b) else r
  {
    if b == [] {
      assert a + b == a;
    } else {
      EnqueueAllConcat(l, c, a, b[..|b| - 1]);
      assert (a + b)[..|a + b| - 1] == a + b[..|b| - 1];
    }
  }

  lemma {:induction false} ReplayFramesCarry(channel: string, messages: seq<Entry>, sizes: seq<nat>)
    requires |sizes| == |messages|
    ensures MessagesOn(channel, ReplayFrames(channel, messages, sizes)) == messages
  {
    if messages != [] {
      var n := |messages| - 1;
      ReplayFramesCarry(channel, messages[..n], sizes[..n]);
      var fs := ReplayFrames(channel, messages, sizes);
      assert fs[..n] == ReplayFrames(channel, messages[..n], sizes[..n]);
    }
  }

  // ---------------------------------------------------------------- theorems

  /** A RESUME: the channel's past, what the connection did before (`early`), the
      client's position, and the encoded sizes of the replayed messages. */
  datatype Scenario = Scenario(maxlen: nat, limits: FC.Limits, channel: string,
                               past: seq<CL.Event>, early: seq<FC.Event>, position: int, sizes: seq<nat>)
  {
    function Channel(): CL.Channel {
      CL.Run(maxlen, past)
    }

    function Replayed(): Recovery.ReplayResult {
      Recovery.Replay(Channel().stream, position)
    }

    function Before(): FC.Conn {
      FC.Run(limits, FC.FRESH, early)
    }

    function Filling(): Filled
      requires |sizes| == |Replayed().messages|
    {
      EnqueueAll(limits, Before(), ReplayFrames(channel, Replayed().messages, sizes))
    }

    /** No gap was reported and the replay, the first of this channel's messages on the
        connection, fitted in the queue. */
    ghost predicate Clean() {
      && (forall e :: e in early && e.Enqueue? ==> !On(channel, e.frame))
      && !Replayed().gap
      && |sizes| == |Replayed().messages|
      && Filling().ok
    }

    /** The system once the replay is queued and before the listener attaches. */
    function Start(): System
      requires |sizes| == |Replayed().messages|
    {
      System(Channel(), Filling().conn, Detached, false)
    }

    function After(events: seq<Event>): System
      requires |sizes| == |Replayed().messages|
    {
      Run(maxlen, limits, channel, Start(), events)
    }

    /** A run after which the connection is neither terminated nor about to be. */
    ghost predicate Survives(events: seq<Event>) {
      && Clean() && Alone(channel, events)
      && After(events).conn.status.Active? && !After(events).condemned
    }

    /** The channel's messages the connection has accepted. */
    function Got(events: seq<Event>): seq<Entry>
      requires |sizes| == |Replayed().messages|
    {
      MessagesOn(channel, After(events).conn.accepted)
    }

    /** Every publisher's command up to the end of a run. */
    function AllCommands(events: seq<Event>): seq<CL.Event> {
      past + Commands(events)
    }
  }

  lemma {:induction false} EarlyMessages(l: FC.Limits, channel: string, early: seq<FC.Event>)
    requires forall e :: e in early && e.Enqueue? ==> !On(channel, e.frame)
    ensures MessagesOn(channel, FC.Run(l, FC.FRESH, early).accepted) == []
  {
    if early != [] {
      EarlyMessages(l, channel, early[..|early| - 1]);
      FlowKeepsMessages(l, channel, FC.Run(l, FC.FRESH, early[..|early| - 1]), early[|early| - 1]);
    }
  }

  /** Queueing a replay that fits adds its messages. */
  lemma ReplayFills(l: FC.Limits, c: FC.Conn, channel: string, messages: seq<Entry>, sizes: seq<nat>)
    requires |sizes| == |messages| && EnqueueAll(l, c, ReplayFrames(channel, messages, sizes)).ok
    ensures MessagesOn(channel, EnqueueAll(l, c, ReplayFrames(channel, messages, sizes)).conn.accepted) ==
      MessagesOn(channel, c.accepted) + messages
  {
    var fs := ReplayFrames(channel, messages, sizes);
    EnqueueAllFills(l, c, fs);
    MessagesOnConcat(channel, c.accepted, fs);
    ReplayFramesCarry(channel, messages, sizes);
  }

  lemma StartMessages(x: Scenario)
    requires x.Clean()
    ensures MessagesOn(x.channel, x.Start().conn.accepted) == x.Replayed().messages
  {
    EarlyMessages(x.limits, x.channel, x.early);
    ReplayFills(x.limits, x.Before(), x.channel, x.Replayed().messages, x.sizes);
  }

  lemma StartConserved(x: Scenario)
    requires x.Clean()
    ensures FC.Conserved(x.Start().conn)
  {
    FC.FreshInv(x.limits);
    FC.ReachableInv(x.limits, FC.FRESH, x.early);
    EnqueueAllConserved(x.limits, x.Before(), ReplayFrames(x.channel, x.Replayed().messages, x.sizes));
  }

  /** What a resumed connection has accepted, for any position and any interleaving and
      failure of publishers, unless a gap was reported or it was terminated or condemned:
      the replayed entries, then the announcements since the listener attached; and the
      accepted frames are those sent, held and queued. */
  lemma ResumeDelivers(x: Scenario, events: seq<Event>)
    requires x.Survives(events)
    ensures var s := x.After(events);
      && WithinLog(s)
      && x.Got(events) == x.Replayed().messages + Heard(s)
      && s.conn.accepted == s.conn.sent + FC.HeldBy(s.conn.sender) + s.conn.queue
  {
    StartMessages(x);
    TrackingRun(x.maxlen, x.limits, x.channel, x.Start(), x.Replayed().messages, events);
    StartConserved(x);
    ConservedRun(x.maxlen, x.limits, x.channel, x.Start(), events);
  }

  lemma {:induction false} ChannelAfter(x: Scenario, events: seq<Event>)
    requires |x.sizes| == |x.Replayed().messages|
    ensures x.After(events).chan == CL.Run(x.maxlen, x.AllCommands(events))
  {
    if events == [] {
      assert x.AllCommands(events) == x.past;
    } else {
      var front, e := events[..|events| - 1], events[|events| - 1];
      ChannelAfter(x, front);
      if e.Publishing? {
        assert x.AllCommands(events) == x.AllCommands(front) + [e.cl];
        CL.RunSnoc(x.maxlen, x.AllCommands(front), e.cl);
      }
    }
  }

  // ---------------------------------------------------------------- lost and repeated messages

  ghost predicate Twice(s: seq<Entry>, e: Entry) {
    exists i, j :: 0 <= i < j < |s| && s[i] == e && s[j] == e
  }

  lemma TwiceInConcat(a: seq<Entry>, b: seq<Entry>, e: Entry)
    requires CL.Distinct(a) && CL.Distinct(b)
    ensures Twice(a + b, e) <==> e in a && e in b
  {
    if e in a && e in b {
      var i :| 0 <= i < |a| && a[i] == e;
      var j :| 0 <= j < |b| && b[j] == e;
      assert (a + b)[i] == e && (a + b)[|a| + j] == e;
    }
  }

  /** Which announcements the listener has reached arrive: exactly those since it
      attached and those the replay had.  Twice: exactly those that are both. */
  lemma ArrivesExactly(x: Scenario, events: seq<Event>, i: nat)
    requires x.Survives(events) && x.After(events).listener.Attached?
    requires i < x.After(events).listener.cursor && i < |x.After(events).chan.announced|
    ensures var s := x.After(events);
      var e := s.chan.announced[i];
      var replayed := e in x.Channel().stream && e.sequence > x.position;
      && (e in x.Got(events) <==> s.listener.at <= i || replayed)
      && (Twice(x.Got(events), e) <==> s.listener.at <= i && replayed)
  {
    var s := x.After(events);
    ResumeDelivers(x, events);
    ChannelAfter(x, events);
    CL.AnyInterleaving(x.maxlen, x.AllCommands(events));
    Recovery.ReplayIsRetainedAbove(x.maxlen, x.past, x.position);
    SliceMembers(s.chan.announced, s.listener.at, s.listener.cursor, i);
    TwiceInConcat(x.Replayed().messages, Heard(s), s.chan.announced[i]);
  }

  /** At least once: for a client that received the first `k` announcements before, every
      later one the listener has reached arrives if and only if each of them that was
      announced before the attachment was retained at the read and has a number above the
      position. */
  lemma AtLeastOnceExactly(x: Scenario, events: seq<Event>, k: nat)
    requires x.Survives(events) && x.After(events).listener.Attached?
    ensures var s := x.After(events);
      && s.listener.at <= s.listener.cursor <= |s.chan.announced|
      && ((forall i :: k <= i < s.listener.cursor ==> s.chan.announced[i] in x.Got(events)) <==>
            forall i :: k <= i < s.listener.at ==> Replayable(x, s.chan.announced[i]))
  {
    var s := x.After(events);
    ResumeDelivers(x, events);
    forall i | 0 <= i < s.listener.cursor
      ensures s.chan.announced[i] in x.Got(events) <==> s.listener.at <= i || Replayable(x, s.chan.announced[i])
    {
      ArrivesExactly(x, events, i);
    }
  }

  ghost predicate Replayable(x: Scenario, e: Entry) {
    e in x.Channel().stream && e.sequence > x.position
  }

  lemma SliceMembers(log: seq<Entry>, at: nat, cursor: nat, i: nat)
    requires CL.Distinct(log) && at <= cursor <= |log| && i < cursor
    ensures log[i] in log[at..cursor] <==> at <= i
    ensures CL.Distinct(log[at..cursor])
  {
  }

  // ---------------------------------------------------------------- serialised, unfailing publishes

  /** Publishes do not interleave and do not fail, before the read or after it. */
  ghost predicate Steady(x: Scenario, events: seq<Event>) {
    && x.maxlen >= 1 && x.position >= 1
    && CL.Serialised(x.maxlen, x.AllCommands(events)) && CL.Unfailing(x.AllCommands(events))
  }

  /** How much of the append log the read covers, and where the replay starts in it. */
  function ReadTo(x: Scenario): nat {
    |x.Channel().appended|
  }

  function ReadFrom(x: Scenario): nat
    requires x.position >= 0
  {
    Min(x.position, ReadTo(x))
  }

  lemma {:induction false} AppendedGrows(maxlen: nat, l: FC.Limits, channel: string, s: System, events: seq<Event>)
    ensures s.chan.appended <= Run(maxlen, l, channel, s, events).chan.appended
  {
    if events != [] {
      AppendedGrows(maxlen, l, channel, s, events[..|events| - 1]);
    }
  }

  lemma SteadyPast(x: Scenario, events: seq<Event>)
    requires Steady(x, events) && x.Clean()
    ensures x.Replayed().messages == x.Channel().appended[ReadFrom(x)..]
    ensures CL.InOrder(x.Channel())
  {
    CL.SerialisedPrefix(x.maxlen, x.past, Commands(events));
    CL.SerialisedInOrder(x.maxlen, x.past) by {
      assert forall e :: e in x.past ==> e in x.AllCommands(events);
    }
    UnfailingAbandonsNothing(x.maxlen, x.past) by {
      assert forall e :: e in x.past ==> e in x.AllCommands(events);
    }
    Recovery.GapHonestyUnfailed(x.maxlen, x.past, x.position);
  }

  lemma {:induction false} UnfailingAbandonsNothing(maxlen: nat, events: seq<CL.Event>)
    requires CL.Unfailing(events)
    ensures CL.Run(maxlen, events).abandoned == {}
  {
    if events != [] {
      UnfailingAbandonsNothing(maxlen, events[..|events| - 1]);
    }
  }

  /** The same in terms of the append log, whose entry i has number i+1. */
  lemma SteadyResumeDelivers(x: Scenario, events: seq<Event>)
    requires x.Survives(events) && Steady(x, events)
    ensures var s := x.After(events);
      && CL.Numbered(s.chan.appended) && s.chan.announced <= s.chan.appended
      && ReadFrom(x) <= ReadTo(x) <= |s.chan.appended|
      && WithinLog(s)
      && x.Got(events) == s.chan.appended[ReadFrom(x)..ReadTo(x)] + HeardOf(s, s.chan.appended)
  {
    ResumeDelivers(x, events);
    SteadyPast(x, events);
    ChannelAfter(x, events);
    CL.SerialisedInOrder(x.maxlen, x.AllCommands(events));
    AppendedGrows(x.maxlen, x.limits, x.channel, x.Start(), events);
    InTermsOfTheLog(x.Channel().appended, ReadFrom(x), x.After(events));
  }

  lemma InTermsOfTheLog(read: seq<Entry>, from: nat, s: System)
    requires from <= |read| && read <= s.chan.appended && s.chan.announced <= s.chan.appended && WithinLog(s)
    ensures read[from..] == s.chan.appended[from..|read|] && Heard(s) == HeardOf(s, s.chan.appended)
  {
  }

  ghost function HeardOf(s: System, log: seq<Entry>): seq<Entry>
    requires s.listener.Attached? ==> s.listener.at <= s.listener.cursor <= |log|
  {
    if s.listener.Detached? then [] else log[s.listener.at..s.listener.cursor]
  }

  /** With such publishes delivery is exactly once and in order, up to where the replay
      or the listener has got, if and only if as much was announced when the listener
      attached as was appended when the stream was read, or less was and the listener has
      handed over nothing yet.  If less was, what it hands over of the difference arrives
      twice; if more was, the difference never arrives. */
  lemma ExactlyOnceExactly(x: Scenario, events: seq<Event>)
    requires x.Survives(events) && Steady(x, events) && x.After(events).listener.Attached?
    ensures var s := x.After(events);
      var log, at, cursor := s.chan.appended, s.listener.at, s.listener.cursor;
      && at <= cursor <= |log| && ReadTo(x) <= |log|
      && (x.Got(events) == log[ReadFrom(x)..Max(ReadTo(x), cursor)] <==>
            at == ReadTo(x) || at == cursor < ReadTo(x))
      && (forall i :: at <= i < cursor && ReadFrom(x) <= i < ReadTo(x) ==> Twice(x.Got(events), log[i]))
      && (forall i :: ReadTo(x) <= i < at ==> log[i] !in x.Got(events))
  {
    SteadyResumeDelivers(x, events);
    var s := x.After(events);
    Spliced(s.chan.appended, x.Got(events), ReadFrom(x), ReadTo(x), s.listener.at, s.listener.cursor);
  }

  lemma Spliced(log: seq<Entry>, got: seq<Entry>, n: nat, read: nat, at: nat, cursor: nat)
    requires CL.Numbered(log) && n <= read <= |log| && at <= cursor <= |log|
    requires got == log[n..read] + log[at..cursor]
    ensures got == log[n..Max(read, cursor)] <==> at == read || at == cursor < read
    ensures forall i :: at <= i < cursor && n <= i < read ==> Twice(got, log[i])
    ensures forall i :: read <= i < at ==> log[i] !in got
  {
    if at == read {
      assert log[n..read] + log[read..cursor] == log[n..cursor];
    }
    forall i | at <= i < cursor && n <= i < read ensures Twice(got, log[i]) {
      assert got[i - n] == log[i];
      assert got[read - n + (i - at)] == log[i];
    }
    forall i | read <= i < at ensures log[i] !in got {
      forall k | 0 <= k < |got| ensures got[k] != log[i] {
        assert got[k] == if k < read - n then log[n + k] else log[at + (k - (read - n))];
      }
    }
  }

  // ---------------------------------------------------------------- a quiet resume window

  lemma {:induction false} QuietKeepsChannel(x: Scenario, quiet: seq<Event>)
    requires |x.sizes| == |x.Replayed().messages|
    requires forall e :: e in quiet ==> !e.Publishing? && !e.Attach?
    ensures x.After(quiet).chan == x.Channel() && x.After(quiet).listener.Detached?
  {
    if quiet != [] {
      QuietKeepsChannel(x, quiet[..|quiet| - 1]);
    }
  }

  lemma {:induction false} AttachedStays(maxlen: nat, l: FC.Limits, channel: string, s: System, first: seq<Event>, rest: seq<Event>)
    requires Run(maxlen, l, channel, s, first).listener.Attached?
    ensures var s' := Run(maxlen, l, channel, s, first + rest);
      s'.listener.Attached? && s'.listener.at == Run(maxlen, l, channel, s, first).listener.at
  {
    if rest == [] {
      assert first + rest == first;
    } else {
      AttachedStays(maxlen, l, channel, s, first, rest[..|rest| - 1]);
      assert (first + rest)[..|first + rest| - 1] == first + rest[..|rest| - 1];
    }
  }

  /** No publish was under way at the read, and nothing was announced from then until the
      listener attached. */
  ghost predicate Quiet(x: Scenario, events: seq<Event>)
    requires |x.sizes| == |x.Replayed().messages|
  {
    && x.Channel().publishers == map[]
    && x.After(events).listener.Attached? && x.After(events).listener.at == |x.Channel().announced|
  }

  /** So it is if publishers do nothing in between. */
  lemma QuietWindow(x: Scenario, quiet: seq<Event>, rest: seq<Event>)
    requires |x.sizes| == |x.Replayed().messages| && x.Channel().publishers == map[]
    requires forall e :: e in quiet ==> !e.Publishing? && !e.Attach?
    ensures Quiet(x, quiet + [Attach(|x.Channel().announced|)] + rest)
  {
    var attach := quiet + [Attach(|x.Channel().announced|)];
    QuietKeepsChannel(x, quiet);
    assert attach[..|quiet|] == quiet;
    AttachedStays(x.maxlen, x.limits, x.channel, x.Start(), attach, rest);
  }

  /** End-to-end resume, for any position and any interleaving and failure of publishers.
      After a quiet window the connection has accepted the replay and every announcement
      since that the listener has reached, nothing else of the channel and nothing twice,
      in sequence order if the announcements were.  The replay lacks nothing appended
      above the position if publishes were serialised up to the read. */
  lemma QuietResumeIsExactlyOnce(x: Scenario, events: seq<Event>)
    requires x.Survives(events) && Quiet(x, events)
    ensures var s := x.After(events);
      && s.listener.at <= s.listener.cursor <= |s.chan.announced|
      && x.Got(events) == x.Replayed().messages + s.chan.announced[s.listener.at..s.listener.cursor]
      && CL.Distinct(x.Got(events))
      && (CL.NeverLate(x.maxlen, x.AllCommands(events)) ==> CL.Increasing(x.Got(events)))
      && s.conn.accepted == s.conn.sent + FC.HeldBy(s.conn.sender) + s.conn.queue
    ensures CL.Serialised(x.maxlen, x.past) && x.maxlen >= 1 && x.position >= 1 ==>
      x.Replayed().messages == Recovery.Above(x.Channel().appended, x.position)
  {
    ResumeDelivers(x, events);
    ChannelAfter(x, events);
    CL.SequenceOrderExactly(x.maxlen, x.AllCommands(events));
    ReplayThenNewer(x, Commands(events), x.After(events).listener.cursor);
    if CL.Serialised(x.maxlen, x.past) && x.maxlen >= 1 && x.position >= 1 {
      Recovery.GapHonesty(x.maxlen, x.past, x.position);
    }
  }

  /** What was retained when no publish was under way, then later announcements. */
  lemma ReplayThenNewer(x: Scenario, more: seq<CL.Event>, cursor: nat)
    requires x.Channel().publishers == map[]
    requires |x.Channel().announced| <= cursor <= |CL.Run(x.maxlen, x.past + more).announced|
    ensures var log := CL.Run(x.maxlen, x.past + more).announced;
      var got := x.Replayed().messages + log[|x.Channel().announced|..cursor];
      CL.Distinct(got) && (CL.Increasing(log) ==> CL.Increasing(got))
  {
    var c, later := x.Channel(), CL.Run(x.maxlen, x.past + more);
    CL.LaterNumbersAreHigher(x.maxlen, x.past, more);
    CL.AnyInterleaving(x.maxlen, x.past + more);
    ReplayBounded(x);
    NewerSlice(later.announced, |c.announced|, cursor, c.counter);
    OlderThenNewer(x.Replayed().messages, later.announced[|c.announced|..cursor], c.counter);
  }

  lemma ReplayBounded(x: Scenario)
    ensures CL.Increasing(x.Replayed().messages) && CL.Bounded(x.Replayed().messages, x.Channel().counter)
  {
    CL.AnyInterleaving(x.maxlen, x.past);
    Recovery.ReplayIsRetainedAbove(x.maxlen, x.past, x.position);
    StreamBounded(x.Channel());
  }

  lemma NewerSlice(log: seq<Entry>, k: nat, cursor: nat, n: nat)
    requires CL.Distinct(log) && k <= cursor <= |log| && forall i :: k <= i < |log| ==> log[i].sequence > n
    ensures var newer := log[k..cursor];
      && CL.Distinct(newer) && (forall i :: 0 <= i < |newer| ==> newer[i].sequence > n)
      && (CL.Increasing(log) ==> CL.Increasing(newer))
  {
    assert forall i :: 0 <= i < cursor - k ==> log[k..cursor][i] == log[k + i];
  }

  lemma StreamBounded(c: CL.Channel)
    requires CL.Partitioned(c) && IsSuffix(c.stream, c.appended)
    ensures CL.Bounded(c.stream, c.counter)
  {
    forall e | e in c.stream ensures e.sequence <= c.counter {
      assert e in c.appended;
      assert e.sequence in CL.Numbers(c.appended);
    }
  }

  lemma OlderThenNewer(older: seq<Entry>, newer: seq<Entry>, n: nat)
    requires CL.Increasing(older) && CL.Bounded(older, n)
    requires CL.Distinct(newer) && forall i :: 0 <= i < |newer| ==> newer[i].sequence > n
    ensures CL.Distinct(older + newer) && (CL.Increasing(newer) ==> CL.Increasing(older + newer))
  {
  }
}
