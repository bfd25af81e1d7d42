/**
 One connection's outbound path: a bounded FIFO with byte accounting, an
 in-flight window released by cumulative ACKs, and one sender task that parks on
 an event when the window is full.

 The sender is a program counter (`Sender`) with one constructor per place where
 `run_sender` can be between two atomic segments.  `Step` performs one segment of
 the sender or one call made by another task; a step that is not enabled leaves
 the connection as it is, so `Run` ranges over every interleaving.
 */
module FlowControl {
  import opened Prelude

  datatype Priority = High | Normal | Low

  datatype Status = Handshaking | Active | Draining | Dead

  /** What a serialised frame says.  `live` records whether fanout or replay
      produced it; it is not on the wire and no operation reads it. */
  datatype Content =
    | Control(text: string)
    | Message(channel: string, entry: Entry, live: bool)

  /** An entry of the in-flight window. */
  datatype Slot = Slot(channel: string, sequence: int)

  datatype Frame = Frame(content: Content, size: nat, priority: Priority,
                         channel: Option<string>, sequence: Option<int>)
  {
    predicate Tracked() {
      priority.Normal? && channel.Some? && sequence.Some?
    }

    function Key(): Slot
      requires Tracked()
    {
      Slot(channel.value, sequence.value)
    }
  }

  datatype Limits = Limits(queueMessages: nat, queueBytes: nat, inflight: nat)

  datatype Sender =
    | AtLoopHead
    | AwaitingFrame
    | CheckingWindow(frame: Frame)
    | Parked(frame: Frame)
    | Sending(frame: Frame)
    | Stopped(unsent: Option<Frame>, windowed: bool)

  /** The window's history: slots taken by the sender and ACKs received. */
  datatype WindowEvent = Took(slot: Slot) | Acked(slot: Slot)

  /** The connection's fields, then four logs that no operation reads. */
  datatype Conn = Conn(
    status: Status,
    queue: seq<Frame>,
    queueBytes: int,
    inflight: seq<Slot>,
    windowOpen: bool,
    dropped: nat,
    sender: Sender,
    accepted: seq<Frame>,
    sent: seq<Frame>,
    history: seq<WindowEvent>,
    released: nat)

  datatype Outcome = Accepted | Dropped | SlowConsumer

  datatype Event =
    | Enqueue(frame: Frame)
    | Ack(slot: Slot)
    | Kill
    | LoopHead
    | Get
    | CheckWindow
    | Wake
    | SendDone(ok: bool)
    | Cancel

  const FRESH := Conn(Active, [], 0, [], true, 0, AtLoopHead, [], [], [], 0)

  // ---------------------------------------------------------------- operations

  predicate OverLimit(l: Limits, c: Conn, size: nat) {
    |c.queue| >= l.queueMessages || c.queueBytes + size > l.queueBytes
  }

  function Admit(l: Limits, c: Conn, f: Frame): Outcome {
    if !OverLimit(l, c, f.size) || f.priority.High? then Accepted
    else if f.priority.Low? then Dropped
    else SlowConsumer
  }

  function EnqueueStep(l: Limits, c: Conn, f: Frame): Conn {
    match Admit(l, c, f)
    case Accepted =>
      c.(queue := c.queue + [f], queueBytes := c.queueBytes + f.size, accepted := c.accepted + [f])
    case Dropped => c.(dropped := c.dropped + 1)
    case SlowConsumer => c
  }

  /** `deliver_local` for one connection: skipped unless ACTIVE. */
  function OfferStep(l: Limits, c: Conn, f: Frame): Conn {
    if c.status.Active? then EnqueueStep(l, c, f) else c
  }

  /** A refused delivery schedules the connection's termination. */
  predicate Refuses(l: Limits, c: Conn, f: Frame) {
    c.status.Active? && Admit(l, c, f).SlowConsumer?
  }

  predicate Covers(ack: Slot, s: Slot) {
    s.channel == ack.channel && s.sequence <= ack.sequence
  }

  /** The slots a cumulative ACK leaves in the window. */
  function Unacked(slots: seq<Slot>, ack: Slot): seq<Slot> {
    if slots == [] then []
    else
      var rest := Unacked(slots[..|slots| - 1], ack);
      var s := slots[|slots| - 1];
      if Covers(ack, s) then rest else rest + [s]
  }

  function AckStep(l: Limits, c: Conn, ack: Slot): Conn {
    var kept := Unacked(c.inflight, ack);
    UnackedLength(c.inflight, ack);
    c.(inflight := kept,
       windowOpen := c.windowOpen || |kept| < l.inflight,
       history := c.history + [Acked(ack)],
       released := c.released + (|c.inflight| - |kept|))
  }

  predicate Live(c: Conn) {
    c.status.Active? || c.status.Draining?
  }

  function CheckWindowStep(l: Limits, c: Conn): Conn
    requires c.sender.CheckingWindow?
  {
    var f := c.sender.frame;
    if |c.inflight| >= l.inflight then c.(windowOpen := false, sender := Parked(f))
    else if !Live(c) then c.(sender := Stopped(Some(f), false))
    else if f.Tracked() then
      c.(inflight := c.inflight + [f.Key()], history := c.history + [Took(f.Key())], sender := Sending(f))
    else c.(sender := Sending(f))
  }

  function GetStep(c: Conn): Conn
    requires c.queue != []
  {
    var f := c.queue[0];
    c.(queue := c.queue[1..],
       queueBytes := c.queueBytes - f.size,
       sender := if f.priority.Normal? then CheckingWindow(f) else Sending(f))
  }

  function Step(l: Limits, c: Conn, e: Event): Conn {
    match e
    case Enqueue(f) => EnqueueStep(l, c, f)
    case Ack(a) => AckStep(l, c, a)
    case Kill => c.(status := Dead)
    case LoopHead =>
      if !c.sender.AtLoopHead? then c
      else c.(sender := if Live(c) then AwaitingFrame else Stopped(None, false))
    case Get => if c.sender.AwaitingFrame? && c.queue != [] then GetStep(c) else c
    case CheckWindow => if c.sender.CheckingWindow? then CheckWindowStep(l, c) else c
    case Wake =>
      if c.sender.Parked? && c.windowOpen then c.(sender := CheckingWindow(c.sender.frame)) else c
    case SendDone(ok) =>
      if !c.sender.Sending? then c
      else if ok then c.(sent := c.sent + [c.sender.frame], sender := AtLoopHead)
      else c.(status := Dead, sender := Stopped(Some(c.sender.frame), true))
    case Cancel =>
      if c.sender.Stopped? then c
      else c.(sender := Stopped(if HeldBy(c.sender) == [] then None else Some(HeldBy(c.sender)[0]), c.sender.Sending?))
  }

  function Run(l: Limits, c: Conn, events: seq<Event>): Conn {
    if events == [] then c
    else Step(l, Run(l, c, events[..|events| - 1]), events[|events| - 1])
  }

  // ---------------------------------------------------------------- invariant

  /** The frame the sender has taken from the queue and not finished sending. */
  function HeldBy(s: Sender): (held: seq<Frame>)
    ensures |held| <= 1
  {
    match s
    case AtLoopHead => []
    case AwaitingFrame => []
    case CheckingWindow(f) => [f]
    case Parked(f) => [f]
    case Sending(f) => [f]
    case Stopped(Some(f), _) => [f]
    case Stopped(None, _) => []
  }

  /** The held frame, once it has passed the window. */
  function WindowedBy(s: Sender): seq<Frame> {
    if s.Sending? || (s.Stopped? && s.windowed) then HeldBy(s) else []
  }

  function Bytes(fs: seq<Frame>): nat {
    if fs == [] then 0 else Bytes(fs[..|fs| - 1]) + fs[|fs| - 1].size
  }

  ghost predicate Conserved(c: Conn) {
    && c.accepted == c.sent + HeldBy(c.sender) + c.queue
    && c.queueBytes == Bytes(c.queue)
  }

  /** Frame `i`, if it is subject to the bound, fits inside it together with
      everything in front of it. */
  ghost predicate Within(l: Limits, queue: seq<Frame>, i: int)
    requires 0 <= i < |queue|
  {
    !queue[i].priority.High? ==> i < l.queueMessages && Bytes(queue[..i + 1]) <= l.queueBytes
  }

  ghost predicate Bounded(l: Limits, c: Conn) {
    forall i :: 0 <= i < |c.queue| ==> Within(l, c.queue, i)
  }

  ghost predicate NoLostWakeup(l: Limits, c: Conn) {
    && |c.inflight| <= l.inflight
    && (c.sender.Parked? ==> (c.windowOpen <==> |c.inflight| < l.inflight))
  }

  function TakenSlots(history: seq<WindowEvent>): seq<Slot> {
    if history == [] then []
    else
      var rest := TakenSlots(history[..|history| - 1]);
      var e := history[|history| - 1];
      if e.Took? then rest + [e.slot] else rest
  }

  function TrackedKeys(fs: seq<Frame>): seq<Slot> {
    if fs == [] then []
    else
      var rest := TrackedKeys(fs[..|fs| - 1]);
      var f := fs[|fs| - 1];
      if f.Tracked() then rest + [f.Key()] else rest
  }

  /** Event `j` acknowledges entry `i`: same channel, and a number at or above its own. */
  ghost predicate AckedBy(history: seq<WindowEvent>, i: int, j: int)
    requires 0 <= i < |history| && 0 <= j < |history|
  {
    && history[j].Acked?
    && history[j].slot.channel == history[i].slot.channel
    && history[i].slot.sequence <= history[j].slot.sequence
  }

  /** Window entry `i` has been acknowledged since it was taken. */
  ghost predicate AckedLater(history: seq<WindowEvent>, i: int)
    requires 0 <= i < |history|
  {
    exists j :: i < j < |history| && AckedBy(history, i, j)
  }

  /** The entries among the first `k` with no later covering ACK, in order. */
  ghost function Outstanding(history: seq<WindowEvent>, k: nat): seq<Slot>
    requires k <= |history|
  {
    if k == 0 then []
    else
      var rest := Outstanding(history, k - 1);
      if history[k - 1].Took? && !AckedLater(history, k - 1) then rest + [history[k - 1].slot] else rest
  }

  ghost predicate Accounted(c: Conn) {
    && TakenSlots(c.history) == TrackedKeys(c.sent + WindowedBy(c.sender))
    && |TakenSlots(c.history)| == c.released + |c.inflight|
    && c.inflight == Outstanding(c.history, |c.history|)
  }

  /** Only NORMAL frames stand in front of the window. */
  ghost predicate OnlyNormalWaits(c: Conn) {
    c.sender.CheckingWindow? || c.sender.Parked? ==> c.sender.frame.priority.Normal?
  }

  ghost predicate Inv(l: Limits, c: Conn) {
    Conserved(c) && Bounded(l, c) && NoLostWakeup(l, c) && OnlyNormalWaits(c) && Accounted(c)
  }

  // ---------------------------------------------------------------- list lemmas

  lemma UnackedLength(slots: seq<Slot>, ack: Slot)
    ensures |Unacked(slots, ack)| <= |slots|
  {
  }

  lemma {:induction false} BytesConcat(a: seq<Frame>, b: seq<Frame>)
    ensures Bytes(a + b) == Bytes(a) + Bytes(b)
  {
    if b == [] {
      assert a + b == a;
    } else {
      BytesConcat(a, b[..|b| - 1]);
      assert (a + b)[..|a + b| - 1] == a + b[..|b| - 1];
    }
  }

  lemma {:induction false} TrackedKeysConcat(a: seq<Frame>, b: seq<Frame>)
    ensures TrackedKeys(a + b) == TrackedKeys(a) + TrackedKeys(b)
  {
    if b == [] {
      assert a + b == a;
    } else {
      TrackedKeysConcat(a, b[..|b| - 1]);
      assert (a + b)[..|a + b| - 1] == a + b[..|b| - 1];
    }
  }

  lemma {:induction false} OutstandingAfterTook(h: seq<WindowEvent>, s: Slot, k: nat)
    requires k <= |h|
    ensures Outstanding(h + [Took(s)], k) == Outstanding(h, k)
  {
    if k > 0 {
      OutstandingAfterTook(h, s, k - 1);
      var h' := h + [Took(s)];
      assert AckedLater(h', k - 1) <==> AckedLater(h, k - 1) by {
        if AckedLater(h, k - 1) {
          var j :| k - 1 < j < |h| && AckedBy(h, k - 1, j);
          assert AckedBy(h', k - 1, j);
        }
        if AckedLater(h', k - 1) {
          var j :| k - 1 < j < |h'| && AckedBy(h', k - 1, j);
          assert AckedBy(h, k - 1, j);
        }
      }
    }
  }

  lemma {:induction false} OutstandingAfterAck(h: seq<WindowEvent>, a: Slot, k: nat)
    requires k <= |h|
    ensures Outstanding(h + [Acked(a)], k) == Unacked(Outstanding(h, k), a)
  {
    if k > 0 {
      OutstandingAfterAck(h, a, k - 1);
      var h' := h + [Acked(a)];
      assert h'[|h|] == Acked(a);
      if h[k - 1].Took? {
        assert AckedLater(h', k - 1) <==> AckedLater(h, k - 1) || Covers(a, h[k - 1].slot) by {
          if AckedLater(h, k - 1) {
            var j :| k - 1 < j < |h| && AckedBy(h, k - 1, j);
            assert AckedBy(h', k - 1, j);
          }
          if Covers(a, h[k - 1].slot) {
            assert AckedBy(h', k - 1, |h|);
          }
          if AckedLater(h', k - 1) {
            var j :| k - 1 < j < |h'| && AckedBy(h', k - 1, j);
            assert j < |h| ==> AckedBy(h, k - 1, j);
          }
        }
        var rest := Outstanding(h, k - 1);
        assert (rest + [h[k - 1].slot])[..|rest|] == rest;
      }
    }
  }

  // ---------------------------------------------------------------- preservation

  lemma {:induction false} ConservedEnqueue(l: Limits, c: Conn, f: Frame)
    requires Conserved(c)
    ensures Conserved(EnqueueStep(l, c, f))
  {
    assert (c.queue + [f])[..|c.queue|] == c.queue;
    assert c.sent + HeldBy(c.sender) + (c.queue + [f]) == c.accepted + [f];
  }

  lemma {:induction false} ConservedGet(c: Conn)
    requires Conserved(c) && c.sender.AwaitingFrame? && c.queue != []
    ensures Conserved(GetStep(c))
  {
    var f := c.queue[0];
    assert c.queue == [f] + c.queue[1..];
    BytesConcat([f], c.queue[1..]);
    assert HeldBy(GetStep(c).sender) == [f];
  }

  /** Steps other than `Enqueue` and `Get` leave the queue alone and move the held
      frame at most to the sent log. */
  lemma {:induction false} ConservedRest(l: Limits, c: Conn, e: Event)
    requires Conserved(c) && !e.Enqueue? && !e.Get?
    ensures Conserved(Step(l, c, e))
  {
    var c' := Step(l, c, e);
    assert c'.queue == c.queue && c'.queueBytes == c.queueBytes && c'.accepted == c.accepted;
    assert c'.sent + HeldBy(c'.sender) == c.sent + HeldBy(c.sender);
  }

  lemma {:induction false} ConservedStep(l: Limits, c: Conn, e: Event)
    requires Conserved(c)
    ensures Conserved(Step(l, c, e))
  {
    if e.Enqueue? {
      ConservedEnqueue(l, c, e.frame);
    } else if e.Get? {
      if c.sender.AwaitingFrame? && c.queue != [] {
        ConservedGet(c);
      }
    } else {
      ConservedRest(l, c, e);
    }
  }

  lemma {:induction false} BoundedEnqueue(l: Limits, c: Conn, f: Frame)
    requires Conserved(c) && Bounded(l, c)
    ensures Bounded(l, EnqueueStep(l, c, f))
  {
    if Admit(l, c, f).Accepted? {
      var queue := c.queue + [f];
      forall i | 0 <= i < |queue| ensures Within(l, queue, i) {
        if i < |c.queue| {
          assert Within(l, c.queue, i);
          assert queue[..i + 1] == c.queue[..i + 1];
        } else {
          assert queue[..i + 1] == queue;
          assert queue[..|c.queue|] == c.queue;
        }
      }
    }
  }

  lemma {:induction false} BoundedGet(l: Limits, c: Conn)
    requires Bounded(l, c) && c.queue != []
    ensures Bounded(l, GetStep(c))
  {
    var queue := c.queue[1..];
    forall i | 0 <= i < |queue| ensures Within(l, queue, i) {
      assert Within(l, c.queue, i + 1);
      assert c.queue[..i + 2] == [c.queue[0]] + queue[..i + 1];
      BytesConcat([c.queue[0]], queue[..i + 1]);
    }
  }

  lemma {:induction false} BoundedStep(l: Limits, c: Conn, e: Event)
    requires Conserved(c) && Bounded(l, c)
    ensures Bounded(l, Step(l, c, e))
  {
    if e.Enqueue? {
      BoundedEnqueue(l, c, e.frame);
    } else if e.Get? {
      if c.sender.AwaitingFrame? && c.queue != [] {
        BoundedGet(l, c);
      }
    } else {
      assert Step(l, c, e).queue == c.queue;
    }
  }

  lemma {:induction false} NoLostWakeupStep(l: Limits, c: Conn, e: Event)
    requires NoLostWakeup(l, c)
    ensures NoLostWakeup(l, Step(l, c, e))
  {
    if e.Ack? {
      UnackedLength(c.inflight, e.slot);
    }
  }

  lemma {:induction false} OnlyNormalWaitsStep(l: Limits, c: Conn, e: Event)
    requires OnlyNormalWaits(c)
    ensures OnlyNormalWaits(Step(l, c, e))
  {
  }

  lemma {:induction false} AccountedAck(l: Limits, c: Conn, a: Slot)
    requires Accounted(c)
    ensures Accounted(AckStep(l, c, a))
  {
    var h := c.history + [Acked(a)];
    assert h[..|c.history|] == c.history;
    OutstandingAfterAck(c.history, a, |c.history|);
    UnackedLength(c.inflight, a);
  }

  lemma {:induction false} TakingASlot(h: seq<WindowEvent>, sent: seq<Frame>, f: Frame)
    requires f.Tracked() && TakenSlots(h) == TrackedKeys(sent)
    ensures TakenSlots(h + [Took(f.Key())]) == TrackedKeys(sent + [f]) == TakenSlots(h) + [f.Key()]
    ensures Outstanding(h + [Took(f.Key())], |h| + 1) == Outstanding(h, |h|) + [f.Key()]
  {
    var h' := h + [Took(f.Key())];
    assert h'[..|h|] == h && h'[|h|] == Took(f.Key());
    assert (sent + [f])[..|sent|] == sent;
    OutstandingAfterTook(h, f.Key(), |h|);
  }

  lemma {:induction false} AccountedTaking(l: Limits, c: Conn)
    requires Accounted(c) && c.sender.CheckingWindow? && c.sender.frame.Tracked()
    requires |c.inflight| < l.inflight && Live(c)
    ensures Accounted(CheckWindowStep(l, c))
  {
    var f := c.sender.frame;
    assert c.sent + WindowedBy(c.sender) == c.sent;
    TakingASlot(c.history, c.sent, f);
    var c' := CheckWindowStep(l, c);
    assert c'.history == c.history + [Took(f.Key())] && c'.inflight == c.inflight + [f.Key()];
    assert c'.sent + WindowedBy(c'.sender) == c.sent + [f];
  }

  lemma {:induction false} AccountedCheckWindow(l: Limits, c: Conn)
    requires Accounted(c) && c.sender.CheckingWindow?
    ensures Accounted(CheckWindowStep(l, c))
  {
    var f := c.sender.frame;
    if f.Tracked() && |c.inflight| < l.inflight && Live(c) {
      AccountedTaking(l, c);
    } else {
      var c' := CheckWindowStep(l, c);
      assert c'.history == c.history && c'.inflight == c.inflight;
      assert c.sent + WindowedBy(c.sender) == c.sent;
      assert (c.sent + [f])[..|c.sent|] == c.sent;
      assert c'.sent + WindowedBy(c'.sender) == c.sent || c'.sent + WindowedBy(c'.sender) == c.sent + [f];
    }
  }

  lemma {:induction false} AccountedGet(c: Conn)
    requires Accounted(c) && c.sender.AwaitingFrame? && c.queue != []
    ensures Accounted(GetStep(c))
  {
    var f := c.queue[0];
    assert c.sent + [] == c.sent;
    TrackedKeysConcat(c.sent, [f]);
    assert !f.Tracked() ==> TrackedKeys([f]) == [];
  }

  lemma {:induction false} AccountedRest(l: Limits, c: Conn, e: Event)
    requires Accounted(c) && !e.CheckWindow? && !e.Get? && !e.Ack?
    ensures Accounted(Step(l, c, e))
  {
    WindowedRest(l, c, e);
    AccountedSame(c, Step(l, c, e));
  }

  lemma {:induction false} AccountedStep(l: Limits, c: Conn, e: Event)
    requires Accounted(c)
    ensures Accounted(Step(l, c, e))
  {
    match e {
      case Ack(a) => AccountedAck(l, c, a);
      case CheckWindow =>
        if c.sender.CheckingWindow? {
          AccountedCheckWindow(l, c);
        }
      case Get =>
        if c.sender.AwaitingFrame? && c.queue != [] {
          AccountedGet(c);
        }
      case _ => AccountedRest(l, c, e);
    }
  }

  lemma {:induction false} AccountedSame(c: Conn, c': Conn)
    requires Accounted(c)
    requires c'.history == c.history && c'.inflight == c.inflight && c'.released == c.released
    requires c'.sent + WindowedBy(c'.sender) == c.sent + WindowedBy(c.sender)
    ensures Accounted(c')
  {
  }

  lemma {:induction false} WindowedRest(l: Limits, c: Conn, e: Event)
    requires !e.CheckWindow? && !e.Get? && !e.Ack?
    ensures var c' := Step(l, c, e);
      && c'.sent + WindowedBy(c'.sender) == c.sent + WindowedBy(c.sender)
      && c'.history == c.history && c'.inflight == c.inflight && c'.released == c.released
  {
  }

  /** Only an accepted enqueue adds to the accepted log. */
  lemma AcceptedStep(l: Limits, c: Conn, e: Event)
    ensures Step(l, c, e).accepted ==
      if e.Enqueue? && Admit(l, c, e.frame).Accepted? then c.accepted + [e.frame] else c.accepted
  {
  }

  lemma {:induction false} InvStep(l: Limits, c: Conn, e: Event)
    requires Inv(l, c)
    ensures Inv(l, Step(l, c, e))
  {
    ConservedStep(l, c, e);
    BoundedStep(l, c, e);
    NoLostWakeupStep(l, c, e);
    OnlyNormalWaitsStep(l, c, e);
    AccountedStep(l, c, e);
  }

  /** Every reachable state keeps the whole invariant, whatever the interleaving. */
  lemma {:induction false} ReachableInv(l: Limits, c: Conn, events: seq<Event>)
    requires Inv(l, c)
    ensures Inv(l, Run(l, c, events))
  {
    if events != [] {
      ReachableInv(l, c, events[..|events| - 1]);
      InvStep(l, Run(l, c, events[..|events| - 1]), events[|events| - 1]);
    }
  }

  lemma FreshInv(l: Limits)
    ensures Inv(l, FRESH)
  {
  }
}
