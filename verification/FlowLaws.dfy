/** What the flow-control machine guarantees over whole runs. */
module FlowLaws {
  import opened Prelude
  import opened FlowControl

  // ---------------------------------------------------------------- safety

  function NonHigh(fs: seq<Frame>): seq<Frame> {
    if fs == [] then []
    else
      var rest := NonHigh(fs[..|fs| - 1]);
      if fs[|fs| - 1].priority.High? then rest else rest + [fs[|fs| - 1]]
  }

  lemma {:induction false} NonHighShrinks(fs: seq<Frame>)
    ensures |NonHigh(fs)| <= |fs| && Bytes(NonHigh(fs)) <= Bytes(fs)
  {
    if fs != [] {
      NonHighShrinks(fs[..|fs| - 1]);
      var rest := NonHigh(fs[..|fs| - 1]);
      assert (rest + [fs[|fs| - 1]])[..|rest|] == rest;
    }
  }

  lemma {:induction false} NonHighWithin(l: Limits, fs: seq<Frame>)
    requires forall i :: 0 <= i < |fs| ==> Within(l, fs, i)
    ensures |NonHigh(fs)| <= l.queueMessages && Bytes(NonHigh(fs)) <= l.queueBytes
  {
    if fs != [] {
      if fs[|fs| - 1].priority.High? {
        var front := fs[..|fs| - 1];
        forall i | 0 <= i < |front| ensures Within(l, front, i) {
          assert Within(l, fs, i);
          assert front[..i + 1] == fs[..i + 1];
        }
        NonHighWithin(l, front);
      } else {
        assert Within(l, fs, |fs| - 1);
        assert fs[..|fs|] == fs;
        NonHighShrinks(fs);
      }
    }
  }

  /** FIFO conservation and bounds: in every reachable state nothing accepted has
      been lost, duplicated or reordered, and both queue bounds hold. */
  lemma FifoConservation(l: Limits, events: seq<Event>)
    ensures var c := Run(l, FRESH, events);
      && c.accepted == c.sent + HeldBy(c.sender) + c.queue
      && c.queueBytes == Bytes(c.queue)
      && |NonHigh(c.queue)| <= l.queueMessages
      && Bytes(NonHigh(c.queue)) <= l.queueBytes
      && |c.inflight| <= l.inflight
  {
    FreshInv(l);
    ReachableInv(l, FRESH, events);
    NonHighWithin(l, Run(l, FRESH, events).queue);
  }

  /** There is room for the frame within both bounds. */
  predicate Fits(l: Limits, c: Conn, f: Frame) {
    |c.queue| + 1 <= l.queueMessages && c.queueBytes + f.size <= l.queueBytes
  }

  /** All that `enqueue` does: a frame that fits, or is HIGH, joins the end of the queue; of
      any other only a LOW one leaves a trace, in the count of dropped frames. */
  ghost predicate Enqueued(l: Limits, c: Conn, f: Frame, c': Conn) {
    if f.priority.High? || Fits(l, c, f)
    then c' == c.(queue := c.queue + [f], queueBytes := c.queueBytes + f.size, accepted := c.accepted + [f])
    else c' == if f.priority.Low? then c.(dropped := c.dropped + 1) else c
  }

  /** When `enqueue` refuses a frame, in every reachable state: never a HIGH one, and
      any other exactly when the real queue would exceed one of the bounds. */
  lemma EnqueueRefuses(l: Limits, events: seq<Event>, f: Frame)
    ensures var c := Run(l, FRESH, events);
      var fits := |c.queue| + 1 <= l.queueMessages && Bytes(c.queue + [f]) <= l.queueBytes;
      && (Admit(l, c, f).SlowConsumer? <==> f.priority.Normal? && !fits)
      && (Admit(l, c, f).Dropped? <==> f.priority.Low? && !fits)
      && (Admit(l, c, f).Accepted? <==> f.priority.High? || fits)
      && Enqueued(l, c, f, Step(l, c, Enqueue(f)))
  {
    FreshInv(l);
    ReachableInv(l, FRESH, events);
    var c := Run(l, FRESH, events);
    assert (c.queue + [f])[..|c.queue|] == c.queue;
  }

  /** All that a delivery does to one connection: nothing unless it is ACTIVE; then it is
      an enqueue, and it condemns the connection exactly when a NORMAL frame does not fit. */
  ghost predicate Offered(l: Limits, c: Conn, f: Frame, c': Conn, condemned: bool) {
    && (!c.status.Active? ==> c' == c && !condemned)
    && (c.status.Active? ==> Enqueued(l, c, f, c') && (condemned <==> f.priority.Normal? && !Fits(l, c, f)))
  }

  lemma OfferExactly(l: Limits, c: Conn, f: Frame)
    ensures Offered(l, c, f, OfferStep(l, c, f), Refuses(l, c, f))
  {
  }

  // ---------------------------------------------------------------- wakeups

  /** The sender's next segment, if it can run one; a write is taken to succeed. */
  function SenderEvent(c: Conn): Option<Event> {
    match c.sender
    case AtLoopHead => Some(LoopHead)
    case AwaitingFrame => if c.queue != [] then Some(Get) else None
    case CheckingWindow(_) => Some(CheckWindow)
    case Parked(_) => if c.windowOpen then Some(Wake) else None
    case Sending(_) => Some(SendDone(true))
    case Stopped(_, _) => None
  }

  /** No lost wakeup: a sender that has not ended is blocked exactly when it has
      nothing to send or holds a frame in front of a full window. */
  lemma BlockedExactly(l: Limits, events: seq<Event>)
    ensures var c := Run(l, FRESH, events);
      SenderEvent(c).None? && !c.sender.Stopped? <==>
        || (c.sender.AwaitingFrame? && c.queue == [])
        || (c.sender.Parked? && |c.inflight| == l.inflight)
  {
    FreshInv(l);
    ReachableInv(l, FRESH, events);
  }

  /** The single FIFO: while the sender is parked in front of a full window no
      frame of any priority reaches the socket until an ACK arrives. */
  lemma {:induction false} NothingOvertakes(l: Limits, c: Conn, events: seq<Event>)
    requires c.sender.Parked? && !c.windowOpen
    requires forall e :: e in events ==> !e.Ack?
    ensures var c' := Run(l, c, events);
      c'.sent == c.sent && (c'.sender.Stopped? || (c'.sender == c.sender && !c'.windowOpen))
  {
    if events != [] {
      NothingOvertakes(l, c, events[..|events| - 1]);
    }
  }

  // ---------------------------------------------------------------- stopping

  /** The sender's prospects on a connection that is no longer live: it may finish the
      write it is in, or one control frame it is already waiting to take. */
  ghost predicate LastWrite(c: Conn, f: Frame) {
    || c.sender == Sending(f)
    || (c.sender.AwaitingFrame? && !f.priority.Normal?)
  }

  lemma {:induction false} DeadStep(l: Limits, c: Conn, e: Event, f: Frame)
    requires c.status.Dead?
    ensures var c' := Step(l, c, e);
      && c'.status.Dead?
      && (LastWrite(c', f) ==> LastWrite(c, f))
      && (c'.sent == c.sent || (c.sender.Sending? && c'.sent == c.sent + [c.sender.frame] && c'.sender.AtLoopHead?))
      && (c.sender.AtLoopHead? || c.sender.Stopped? ==> c'.sent == c.sent && (c'.sender.AtLoopHead? || c'.sender.Stopped?))
  {
  }

  /** A dead connection stops writing: whatever happens next, at most one more frame
      reaches the socket, and a message only if its write had begun. */
  lemma {:induction false} DeadConnectionStops(l: Limits, c: Conn, events: seq<Event>)
    requires c.status.Dead?
    ensures var c' := Run(l, c, events);
      && c'.status.Dead?
      && (c'.sent == c.sent ||
          (|c'.sent| == |c.sent| + 1 && c'.sent[..|c.sent|] == c.sent && LastWrite(c, c'.sent[|c.sent|])
           && (c'.sender.AtLoopHead? || c'.sender.Stopped?)))
      && forall f :: LastWrite(c', f) ==> LastWrite(c, f)
  {
    if events != [] {
      var m, e := Run(l, c, events[..|events| - 1]), events[|events| - 1];
      DeadConnectionStops(l, c, events[..|events| - 1]);
      forall f ensures LastWrite(Step(l, m, e), f) ==> LastWrite(c, f) {
        DeadStep(l, m, e, f);
      }
      if m.sender.Sending? {
        DeadStep(l, m, e, m.sender.frame);
        assert LastWrite(m, m.sender.frame);
      } else {
        DeadStep(l, m, e, Frame(Control(""), 0, High, None, None));
      }
    }
  }

  /** Termination: whatever the connection was doing, once it has been made DEAD at most one
      more frame is written in any run, and a message only if its write had begun. */
  lemma TerminationStops(l: Limits, c: Conn, events: seq<Event>)
    ensures var c' := Run(l, Step(l, c, Kill), events);
      && c'.status.Dead?
      && (c'.sent == c.sent ||
          (|c'.sent| == |c.sent| + 1 && c'.sent[..|c.sent|] == c.sent && LastWrite(c, c'.sent[|c.sent|])))
  {
    DeadConnectionStops(l, Step(l, c, Kill), events);
    assert forall f :: LastWrite(Step(l, c, Kill), f) <==> LastWrite(c, f);
  }

  lemma {:induction false} StoppedStays(l: Limits, c: Conn, events: seq<Event>)
    requires c.sender.Stopped?
    ensures Run(l, c, events).sent == c.sent && Run(l, c, events).sender == c.sender
  {
    if events != [] {
      StoppedStays(l, c, events[..|events| - 1]);
    }
  }

  /** A cancelled sender, and one whose write failed, never write again; the failure also
      makes the connection DEAD, and either leaves the frame in hand unsent. */
  lemma EndedSenderStops(l: Limits, c: Conn, events: seq<Event>)
    ensures var c1 := Step(l, c, Cancel);
      && Run(l, c1, events).sent == c.sent && c1.status == c.status && HeldBy(c1.sender) == HeldBy(c.sender)
    ensures var c2 := Step(l, c, SendDone(false));
      c.sender.Sending? ==>
        Run(l, c2, events).sent == c.sent && c2.status.Dead? && HeldBy(c2.sender) == HeldBy(c.sender)
  {
    StoppedStays(l, Step(l, c, Cancel), events);
    if c.sender.Sending? {
      StoppedStays(l, Step(l, c, SendDone(false)), events);
    }
  }

  // ---------------------------------------------------------------- window

  /** In-flight refinement: the window is the order-preserving filter of the slots
      taken with no later covering ACK, the slots taken are those of the tracked
      frames that passed the window, and each one is either released or in flight. */
  lemma WindowRefinement(l: Limits, events: seq<Event>)
    ensures var c := Run(l, FRESH, events);
      && c.inflight == Outstanding(c.history, |c.history|)
      && TakenSlots(c.history) == TrackedKeys(c.sent + WindowedBy(c.sender))
      && |TrackedKeys(c.sent + WindowedBy(c.sender))| == c.released + |c.inflight|
  {
    FreshInv(l);
    ReachableInv(l, FRESH, events);
  }

  /** A cumulative ACK takes out exactly the channel's slots at or below it, each as often
      as it was there, and no others. */
  lemma {:induction false} AckReleasesExactly(slots: seq<Slot>, channel: string, n: int, s: Slot)
    ensures multiset(Unacked(slots, Slot(channel, n)))[s] ==
      if s.channel == channel && s.sequence <= n then 0 else multiset(slots)[s]
  {
    if slots != [] {
      var front, last := slots[..|slots| - 1], slots[|slots| - 1];
      AckReleasesExactly(front, channel, n, s);
      assert slots == front + [last];
      CountSnoc(front, last, s);
      CountSnoc(Unacked(front, Slot(channel, n)), last, s);
    }
  }

  lemma CountSnoc(slots: seq<Slot>, last: Slot, s: Slot)
    ensures multiset(slots + [last])[s] == multiset(slots)[s] + if s == last then 1 else 0
  {
  }

  /** Consecutive ACKs on one channel act as their maximum, in either order. */
  lemma {:induction false} AcksCollapse(slots: seq<Slot>, channel: string, m: int, n: int)
    ensures Unacked(Unacked(slots, Slot(channel, m)), Slot(channel, n)) == Unacked(slots, Slot(channel, Max(m, n)))
  {
    if slots != [] {
      AcksCollapse(slots[..|slots| - 1], channel, m, n);
      var rest := Unacked(slots[..|slots| - 1], Slot(channel, m));
      assert (rest + [slots[|slots| - 1]])[..|rest|] == rest;
    }
  }

  /** ACKs on different channels commute. */
  lemma {:induction false} AcksCommute(slots: seq<Slot>, a: Slot, b: Slot)
    requires a.channel != b.channel
    ensures Unacked(Unacked(slots, a), b) == Unacked(Unacked(slots, b), a)
  {
    if slots != [] {
      var front, s := slots[..|slots| - 1], slots[|slots| - 1];
      AcksCommute(front, a, b);
      assert (Unacked(front, a) + [s])[..|Unacked(front, a)|] == Unacked(front, a);
      assert (Unacked(front, b) + [s])[..|Unacked(front, b)|] == Unacked(front, b);
    }
  }

  /** Repeating an ACK, or sending an older one, releases nothing more. */
  lemma RepeatedAckReleasesNothing(l: Limits, c: Conn, channel: string, m: int, n: int)
    requires n <= m
    ensures var c1 := Step(l, c, Ack(Slot(channel, m)));
      var c2 := Step(l, c1, Ack(Slot(channel, n)));
      c2.released == c1.released && c2.inflight == c1.inflight && c2.windowOpen == c1.windowOpen
  {
    AcksCollapse(c.inflight, channel, m, n);
  }

  // ---------------------------------------------------------------- who waits

  /** In every reachable state only a NORMAL frame is in front of the window. */
  lemma OnlyNormalFramesWait(l: Limits, events: seq<Event>)
    ensures var c := Run(l, FRESH, events);
      c.sender.CheckingWindow? || c.sender.Parked? ==> c.sender.frame.priority.Normal?
  {
    FreshInv(l);
    ReachableInv(l, FRESH, events);
  }

  /** A control or ephemeral frame at the head of the queue is taken and written whatever
      the window, and takes no slot in it. */
  lemma OthersDoNotWait(l: Limits, c: Conn)
    requires c.sender.AwaitingFrame? && c.queue != [] && !c.queue[0].priority.Normal?
    ensures var c' := Step(l, Step(l, c, Get), SendDone(true));
      && c'.sent == c.sent + [c.queue[0]] && c'.queue == c.queue[1..]
      && c'.inflight == c.inflight && c'.windowOpen == c.windowOpen && c'.sender.AtLoopHead?
  {
  }

  // ---------------------------------------------------------------- credit

  /** Steps taken by the sender, and the ways it can end; nothing from outside. */
  predicate SenderOnly(e: Event) {
    !e.Enqueue? && !e.Ack?
  }

  /** The frames the sender still has in front of it. */
  function Pending(c: Conn): seq<Frame> {
    HeldBy(c.sender) + c.queue
  }

  /** Frame `i` finds the window full: it is NORMAL, and the tracked frames before it
      take up all the room there is. */
  ghost predicate HeldUp(room: int, fs: seq<Frame>, i: int)
    requires 0 <= i < |fs|
  {
    fs[i].priority.Normal? && |TrackedKeys(fs[..i])| >= room
  }

  /** The first `n` frames get through, and the next, if there is one, finds the window
      full. */
  ghost predicate StopsAt(room: int, fs: seq<Frame>, n: int) {
    && 0 <= n <= |fs|
    && (forall i :: 0 <= i < n ==> !HeldUp(room, fs, i))
    && (n < |fs| ==> HeldUp(room, fs, n))
  }

  function Through(room: int, fs: seq<Frame>): (n: nat)
    ensures n <= |fs|
  {
    if fs == [] || (fs[0].priority.Normal? && room <= 0) then 0
    else 1 + Through(if fs[0].Tracked() then room - 1 else room, fs[1..])
  }

  lemma TrackedKeysCons(f: Frame, fs: seq<Frame>)
    ensures |TrackedKeys([f] + fs)| == |TrackedKeys(fs)| + if f.Tracked() then 1 else 0
  {
    TrackedKeysConcat([f], fs);
    assert [f][..0] == [];
  }

  lemma HeldUpCons(room: int, fs: seq<Frame>, i: int)
    requires 1 <= i < |fs|
    ensures HeldUp(room, fs, i) <==> HeldUp(if fs[0].Tracked() then room - 1 else room, fs[1..], i - 1)
  {
    assert fs[..i] == [fs[0]] + fs[1..][..i - 1];
    TrackedKeysCons(fs[0], fs[1..][..i - 1]);
  }

  lemma {:induction false} ThroughStops(room: int, fs: seq<Frame>)
    ensures StopsAt(room, fs, Through(room, fs))
  {
    if fs != [] {
      assert fs[..0] == [];
      if !(fs[0].priority.Normal? && room <= 0) {
        ThroughStops(if fs[0].Tracked() then room - 1 else room, fs[1..]);
        forall i | 1 <= i < |fs|
          ensures HeldUp(room, fs, i) <==> HeldUp(if fs[0].Tracked() then room - 1 else room, fs[1..], i - 1)
        {
          HeldUpCons(room, fs, i);
        }
      }
    }
  }

  /** How many pending frames the window lets through without another ACK. */
  function Allowance(l: Limits, c: Conn): nat {
    var room := l.inflight - |c.inflight|;
    match c.sender
    case Stopped(_, _) => 0
    case Sending(_) => 1 + Through(room, c.queue)
    case _ => Through(room, Pending(c))
  }

  ghost predicate SenderInv(l: Limits, c: Conn) {
    NoLostWakeup(l, c) && OnlyNormalWaits(c)
  }

  lemma {:induction false} SenderInvStep(l: Limits, c: Conn, e: Event)
    requires SenderInv(l, c)
    ensures SenderInv(l, Step(l, c, e))
  {
    NoLostWakeupStep(l, c, e);
    OnlyNormalWaitsStep(l, c, e);
  }

  /** No schedule of the sender sends more than its allowance. */
  lemma {:induction false} AllowanceIsACeiling(l: Limits, c: Conn, events: seq<Event>)
    requires SenderInv(l, c)
    requires forall e :: e in events ==> SenderOnly(e)
    ensures var c' := Run(l, c, events);
      SenderInv(l, c') && |c'.sent| + Allowance(l, c') <= |c.sent| + Allowance(l, c)
  {
    if events != [] {
      var before, e := events[..|events| - 1], events[|events| - 1];
      AllowanceIsACeiling(l, c, before);
      SenderInvStep(l, Run(l, c, before), e);
      AllowanceShrinks(l, Run(l, c, before), e);
    }
  }

  lemma ThroughCons(room: int, f: Frame, rest: seq<Frame>)
    ensures Through(room, [f] + rest) ==
      if f.priority.Normal? && room <= 0 then 0 else 1 + Through(if f.Tracked() then room - 1 else room, rest)
  {
    assert ([f] + rest)[1..] == rest;
  }

  /** Taking the next frame, and passing the window, keep the allowance. */
  lemma {:induction false} AllowanceOnGet(l: Limits, c: Conn)
    requires c.sender.AwaitingFrame? && c.queue != []
    ensures Allowance(l, GetStep(c)) == Allowance(l, c) && Pending(GetStep(c)) == Pending(c)
  {
    var f, rest := c.queue[0], c.queue[1..];
    assert Pending(c) == c.queue == [f] + rest;
    ThroughCons(l.inflight - |c.inflight|, f, rest);
  }

  lemma {:induction false} AllowanceOnCheck(l: Limits, c: Conn)
    requires SenderInv(l, c) && c.sender.CheckingWindow?
    ensures Allowance(l, CheckWindowStep(l, c)) <= Allowance(l, c)
    ensures Live(c) ==> Allowance(l, CheckWindowStep(l, c)) == Allowance(l, c)
  {
    ThroughCons(l.inflight - |c.inflight|, c.sender.frame, c.queue);
  }

  lemma {:induction false} AllowanceOnSent(l: Limits, c: Conn)
    requires c.sender.Sending?
    ensures var c' := Step(l, c, SendDone(true));
      && Pending(c') == c.queue && Pending(c) == [c.sender.frame] + Pending(c')
      && c'.sent == c.sent + [c.sender.frame] && Allowance(l, c) == Allowance(l, c') + 1
  {
    assert Pending(Step(l, c, SendDone(true))) == c.queue;
  }

  /** The other steps of the sender write nothing and only move or end it. */
  lemma {:induction false} AllowanceOnRest(l: Limits, c: Conn, e: Event)
    requires e.Kill? || e.LoopHead? || e.Wake? || e.Cancel?
    ensures Step(l, c, e).sent == c.sent && Allowance(l, Step(l, c, e)) <= Allowance(l, c)
  {
  }

  lemma {:induction false} AllowanceShrinks(l: Limits, c: Conn, e: Event)
    requires SenderInv(l, c) && SenderOnly(e)
    ensures |Step(l, c, e).sent| + Allowance(l, Step(l, c, e)) <= |c.sent| + Allowance(l, c)
  {
    match e {
      case Get =>
        if c.sender.AwaitingFrame? && c.queue != [] {
          AllowanceOnGet(l, c);
        }
      case CheckWindow =>
        if c.sender.CheckingWindow? {
          AllowanceOnCheck(l, c);
        }
      case SendDone(ok) =>
        if c.sender.Sending? && ok {
          AllowanceOnSent(l, c);
        }
      case _ => AllowanceOnRest(l, c, e);
    }
  }

  /** Termination measure of the undisturbed sender. */
  function Rank(c: Conn): nat {
    8 * |c.queue| +
    match c.sender
    case AtLoopHead => 1
    case AwaitingFrame => 0
    case CheckingWindow(_) => 5
    case Parked(_) => if c.windowOpen then 6 else 4
    case Sending(_) => 2
    case Stopped(_, _) => 0
  }

  /** The sender run until it blocks, with no other task in between. */
  function Drain(l: Limits, c: Conn): Conn
    decreases Rank(c)
  {
    var e := SenderEvent(c);
    if e.None? then c else Drain(l, Step(l, c, e.value))
  }

  /** What the undisturbed sender leaves behind: the allowance sent, the rest kept. */
  ghost predicate Spent(l: Limits, c: Conn, d: Conn) {
    var n := Allowance(l, c);
    && 0 <= n <= |Pending(c)|
    && d.sent == c.sent + Pending(c)[..n]
    && Pending(d) == Pending(c)[n..]
    && SenderEvent(d).None? && !d.sender.Stopped?
  }

  lemma {:induction false} SpentStep(l: Limits, c: Conn, e: Event, d: Conn)
    requires SenderInv(l, c) && Live(c) && SenderEvent(c) == Some(e)
    requires Spent(l, Step(l, c, e), d)
    ensures Spent(l, c, d)
  {
    DrainOneStep(l, c, e);
    if e.SendDone? {
      OneMore(c.sender.frame, Pending(Step(l, c, e)), Allowance(l, c));
    }
  }

  lemma OneMore(f: Frame, rest: seq<Frame>, n: nat)
    requires 1 <= n <= |rest| + 1
    ensures ([f] + rest)[..n] == [f] + rest[..n - 1] && ([f] + rest)[n..] == rest[n - 1..]
  {
  }

  /** A blocked sender has no allowance left. */
  lemma SpentWhenBlocked(l: Limits, c: Conn)
    requires SenderInv(l, c) && SenderEvent(c).None? && !c.sender.Stopped?
    ensures Spent(l, c, c)
  {
  }

  lemma RankStep(l: Limits, c: Conn, e: Event)
    requires SenderEvent(c) == Some(e)
    ensures Rank(Step(l, c, e)) < Rank(c) && Drain(l, c) == Drain(l, Step(l, c, e))
  {
  }

  /** The undisturbed sender sends exactly its allowance, in queue order. */
  lemma {:induction false} DrainSendsAllowance(l: Limits, c: Conn)
    requires SenderInv(l, c) && Live(c) && !c.sender.Stopped?
    ensures Spent(l, c, Drain(l, c))
    decreases Rank(c)
  {
    if SenderEvent(c).None? {
      SpentWhenBlocked(l, c);
    } else {
      var e := SenderEvent(c).value;
      RankStep(l, c, e);
      SenderInvStep(l, c, e);
      DrainOneStep(l, c, e);
      var c' := Step(l, c, e);
      DrainSendsAllowance(l, c');
      SpentStep(l, c, e, Drain(l, c'));
    }
  }

  /** One sender step either keeps the pending frames and the allowance, or moves
      the first pending frame to the sent log and spends one. */
  lemma {:induction false} DrainOneStep(l: Limits, c: Conn, e: Event)
    requires SenderInv(l, c) && Live(c) && SenderEvent(c) == Some(e)
    ensures var c' := Step(l, c, e);
      Live(c') && !c'.sender.Stopped? &&
      if e.SendDone? then
        && Pending(c) == [c.sender.frame] + Pending(c')
        && c'.sent == c.sent + [c.sender.frame]
        && Allowance(l, c) == Allowance(l, c') + 1
      else
        Pending(c') == Pending(c) && c'.sent == c.sent && Allowance(l, c') == Allowance(l, c)
  {
    match e {
      case Get => AllowanceOnGet(l, c);
      case CheckWindow => AllowanceOnCheck(l, c);
      case SendDone(_) => AllowanceOnSent(l, c);
      case _ => AllowanceOnMove(l, c, e);
    }
  }

  lemma {:induction false} AllowanceOnMove(l: Limits, c: Conn, e: Event)
    requires Live(c) && SenderEvent(c) == Some(e) && (e.LoopHead? || e.Wake?)
    ensures var c' := Step(l, c, e);
      && Live(c') && !c'.sender.Stopped? && c'.sent == c.sent
      && Pending(c') == Pending(c) && Allowance(l, c') == Allowance(l, c)
  {
  }

  /** The undisturbed sender, whatever is queued: at any point of a run it sends all its
      pending frames, in order, up to the first NORMAL one that finds the window full.
      A write that has begun is finished first.  Draining makes no difference. */
  lemma DrainSendsUpToTheWindow(l: Limits, start: Conn, events: seq<Event>) returns (n: nat)
    requires Inv(l, start)
    requires var c := Run(l, start, events);
      (c.status.Active? || c.status.Draining?) && !c.sender.Stopped?
    ensures UpToTheWindow(l, Run(l, start, events), Drain(l, Run(l, start, events)), n)
  {
    ReachableInv(l, start, events);
    n := DrainFrom(l, Run(l, start, events));
  }

  lemma DrainFrom(l: Limits, c: Conn) returns (n: nat)
    requires SenderInv(l, c) && Live(c) && !c.sender.Stopped?
    ensures UpToTheWindow(l, c, Drain(l, c), n)
  {
    n := Allowance(l, c);
    AllowanceStops(l, c);
    DrainSendsAllowance(l, c);
    SpentIsUpToTheWindow(l, c, Drain(l, c), n);
  }

  lemma AllowanceStops(l: Limits, c: Conn)
    requires !c.sender.Stopped?
    ensures var room, n := l.inflight - |c.inflight|, Allowance(l, c);
      if c.sender.Sending? then n >= 1 && StopsAt(room, c.queue, n - 1) else StopsAt(room, Pending(c), n)
  {
    if c.sender.Sending? {
      ThroughStops(l.inflight - |c.inflight|, c.queue);
    } else {
      ThroughStops(l.inflight - |c.inflight|, Pending(c));
    }
  }

  lemma SpentIsUpToTheWindow(l: Limits, c: Conn, d: Conn, n: nat)
    requires Spent(l, c, d) && n == Allowance(l, c)
    requires var room := l.inflight - |c.inflight|;
      if c.sender.Sending? then n >= 1 && StopsAt(room, c.queue, n - 1) else StopsAt(room, Pending(c), n)
    ensures UpToTheWindow(l, c, d, n)
  {
  }

  /** The sender has gone from `c` to `d` by sending `n` frames. */
  ghost predicate UpToTheWindow(l: Limits, c: Conn, d: Conn, n: nat) {
    var room := l.inflight - |c.inflight|;
    && (if c.sender.Sending? then n >= 1 && StopsAt(room, c.queue, n - 1) else StopsAt(room, Pending(c), n))
    && n <= |Pending(c)|
    && d.sent == c.sent + Pending(c)[..n] && Pending(d) == Pending(c)[n..]
  }

  /** After an ACK on a sender blocked by the window, the room is what the ACK released. */
  lemma {:induction false} AckGrantsAllowance(l: Limits, c: Conn, a: Slot)
    requires SenderInv(l, c) && c.sender.Parked? && !c.windowOpen
    ensures var c1 := AckStep(l, c, a);
      && SenderInv(l, c1)
      && Pending(c1) == Pending(c)
      && Allowance(l, c1) == Through(c1.released - c.released, Pending(c))
  {
    UnackedLength(c.inflight, a);
  }

  /** What one ACK is worth to a sender blocked by the window. */
  ghost predicate WorthExactly(l: Limits, c: Conn, a: Slot, schedule: seq<Event>) {
    var c1 := AckStep(l, c, a);
    var n := Through(c1.released - c.released, Pending(c));
    && StopsAt(c1.released - c.released, Pending(c), n)
    && Drain(l, c1).sent == c.sent + Pending(c)[..n]
    && |Run(l, c1, schedule).sent| <= |c.sent| + n
  }

  lemma {:induction false} CreditFrom(l: Limits, c: Conn, a: Slot, schedule: seq<Event>)
    requires SenderInv(l, c) && Live(c) && c.sender.Parked? && !c.windowOpen
    requires forall e :: e in schedule ==> SenderOnly(e)
    ensures WorthExactly(l, c, a, schedule)
  {
    var c1 := AckStep(l, c, a);
    AckGrantsAllowance(l, c, a);
    ThroughStops(c1.released - c.released, Pending(c));
    assert Spent(l, c1, Drain(l, c1)) by {
      DrainSendsAllowance(l, c1);
    }
    assert |Run(l, c1, schedule).sent| <= |c1.sent| + Allowance(l, c1) by {
      AllowanceIsACeiling(l, c1, schedule);
    }
  }

  /** Credit law: from a blocked sender in front of a full window, whatever is pending, an
      ACK releasing k slots lets through exactly the frames up to the first NORMAL one
      with k tracked ones before it: the undisturbed sender sends those, the oldest
      first, and no schedule of it sends more. */
  lemma CreditLaw(l: Limits, start: Conn, events: seq<Event>, a: Slot, schedule: seq<Event>)
    requires Inv(l, start)
    requires var c := Run(l, start, events);
      (c.status.Active? || c.status.Draining?) && c.sender.Parked? && SenderEvent(c).None?
    requires forall e :: e in schedule ==> SenderOnly(e)
    ensures WorthExactly(l, Run(l, start, events), a, schedule)
  {
    ReachableInv(l, start, events);
    CreditFrom(l, Run(l, start, events), a, schedule);
  }

  /** With only tracked messages pending, k slots are worth min(k, pending) of them. */
  lemma {:induction false} CreditOfTracked(room: nat, fs: seq<Frame>)
    requires forall f :: f in fs ==> f.Tracked()
    ensures Through(room, fs) == Min(room, |fs|)
  {
    if fs != [] && room > 0 {
      CreditOfTracked(room - 1, fs[1..]);
    }
  }

  // ---------------------------------------------------------------- a client that never acknowledges

  lemma {:induction false} TrackedAreNonHigh(fs: seq<Frame>)
    ensures |TrackedKeys(fs)| <= |NonHigh(fs)| <= |fs|
  {
    if fs != [] {
      TrackedAreNonHigh(fs[..|fs| - 1]);
    }
  }

  lemma {:induction false} NothingReleasedWithoutAcks(l: Limits, events: seq<Event>)
    requires forall e :: e in events ==> !e.Ack?
    ensures Run(l, FRESH, events).released == 0
  {
    if events != [] {
      NothingReleasedWithoutAcks(l, events[..|events| - 1]);
    }
  }

  /** However long it runs, a connection whose client never acknowledges has at most
      a window, one held frame and a queue of tracked messages accepted. */
  lemma NeverAckingBound(l: Limits, events: seq<Event>)
    requires forall e :: e in events ==> !e.Ack?
    ensures |TrackedKeys(Run(l, FRESH, events).accepted)| <= l.inflight + 1 + l.queueMessages
  {
    var c := Run(l, FRESH, events);
    FifoConservation(l, events);
    WindowRefinement(l, events);
    NothingReleasedWithoutAcks(l, events);
    TrackedKeysConcat(c.sent, WindowedBy(c.sender));
    TrackedKeysConcat(c.sent, HeldBy(c.sender));
    TrackedKeysConcat(c.sent + HeldBy(c.sender), c.queue);
    TrackedAreNonHigh(HeldBy(c.sender));
    TrackedAreNonHigh(c.queue);
  }
}
