/** The durable acknowledgement position of a session. */
module Sessions {
  import opened Prelude

  /** `record_ack` on one stored position. */
  function Advance(stored: Option<int>, sequence: int): Option<int> {
    if stored.None? || stored.value < sequence then Some(sequence) else stored
  }

  /** `get_ack` */
  function Position(stored: Option<int>): int {
    if stored.Some? then stored.value else 0
  }

  class SessionStore {
    var acks: map<(string, string), int>

    function Stored(session: string, channel: string): Option<int>
      reads this
    {
      if (session, channel) in acks then Some(acks[(session, channel)]) else None
    }

    constructor ()
      ensures forall s, c :: Stored(s, c) == None
    {
      acks := map[];
    }

    method RecordAck(session: string, channel: string, sequence: int)
      modifies this
      ensures Stored(session, channel) == Advance(old(Stored(session, channel)), sequence)
      ensures forall s, c :: (s, c) != (session, channel) ==> Stored(s, c) == old(Stored(s, c))
    {
      var key := (session, channel);
      if key !in acks || acks[key] < sequence {
        acks := acks[key := sequence];
      }
    }
  }

  function AdvanceAll(acks: seq<int>): Option<int> {
    if acks == [] then None else Advance(AdvanceAll(acks[..|acks| - 1]), acks[|acks| - 1])
  }

  ghost predicate IsMaximum(m: int, s: seq<int>) {
    m in s && forall x :: x in s ==> x <= m
  }

  /** One connection acknowledging, with no expiry: the stored position is the maximum
      of its ACKs, whatever their order and repeats. */
  lemma {:induction false} StoredIsMaximum(acks: seq<int>)
    ensures AdvanceAll(acks).None? <==> acks == []
    ensures acks != [] ==> IsMaximum(AdvanceAll(acks).value, acks)
  {
    if acks != [] {
      StoredIsMaximum(acks[..|acks| - 1]);
      assert acks == acks[..|acks| - 1] + [acks[|acks| - 1]];
    }
  }

  /** The position read back is the highest positive ACK, or 0 if there is none, exactly
      unless every ACK was negative; then it is negative too. */
  lemma DurablePosition(acks: seq<int>)
    ensures var p := Position(AdvanceAll(acks));
      (IsMaximum(p, acks + [0]) <==> acks == [] || exists a :: a in acks && a >= 0)
  {
    StoredIsMaximum(acks);
    var all, p := acks + [0], Position(AdvanceAll(acks));
    assert all[|acks|] == 0;
    assert forall x :: x in all <==> x in acks || x == 0;
    if acks != [] {
      assert p in acks;
      if a :| a in acks && a >= 0 {
        assert IsMaximum(p, all);
      } else {
        assert p < 0 && 0 in all;
      }
    }
  }

  // ---------------------------------------------------------------- concurrent ACKs

  /** An ACK between the two commands of `record_ack`: what it read, and its sequence. */
  datatype Underway = Underway(read: Option<int>, sequence: int)

  /** One stored position with any number of `record_ack` calls underway; `done` logs the
      ACKs of the finished ones. */
  datatype Race = Race(stored: Option<int>, underway: map<nat, Underway>, done: seq<int>)

  datatype Event = Read(call: nat, sequence: int) | Finish(call: nat)

  const UNTOUCHED := Race(None, map[], [])

  predicate Behind(position: Option<int>, sequence: int) {
    position.None? || position.value < sequence
  }

  function Step(r: Race, e: Event): Race {
    match e
    case Read(k, n) =>
      if k in r.underway then r else r.(underway := r.underway[k := Underway(r.stored, n)])
    case Finish(k) =>
      if k !in r.underway then r
      else
        var u := r.underway[k];
        Race(if Behind(u.read, u.sequence) then Some(u.sequence) else r.stored,
             r.underway - {k},
             r.done + [u.sequence])
  }

  function Run(events: seq<Event>): Race {
    if events == [] then UNTOUCHED else Step(Run(events[..|events| - 1]), events[|events| - 1])
  }

  /** The position has passed this ACK since a read that was behind it. */
  predicate Overtaken(r: Race, e: Event) {
    && e.Finish? && e.call in r.underway
    && var u := r.underway[e.call];
    Behind(u.read, u.sequence) && r.stored.Some? && u.sequence < r.stored.value
  }

  predicate NeverOvertaken(events: seq<Event>) {
    events != [] ==>
      var front := events[..|events| - 1];
      NeverOvertaken(front) && !Overtaken(Run(front), events[|events| - 1])
  }

  /** The documented position: the maximum of the finished ACKs. */
  predicate Durable(r: Race) {
    r.stored == AdvanceAll(r.done)
  }

  predicate DurableThroughout(events: seq<Event>) {
    Durable(Run(events)) && (events != [] ==> DurableThroughout(events[..|events| - 1]))
  }

  ghost predicate Finished(position: Option<int>, done: seq<int>) {
    position.Some? ==> position.value in done
  }

  ghost predicate Inv(r: Race) {
    && Finished(r.stored, r.done)
    && (r.stored.None? <==> r.done == [])
    && (forall k: nat :: k in r.underway ==> Finished(r.underway[k].read, r.done))
  }

  /** No position is invented: over every interleaving the stored one is that of a
      finished ACK, and there is one as soon as an ACK has finished. */
  lemma {:induction false} StoredWasAcknowledged(events: seq<Event>)
    ensures Inv(Run(events))
  {
    if events != [] {
      StoredWasAcknowledged(events[..|events| - 1]);
      var r, e := Run(events[..|events| - 1]), events[|events| - 1];
      if e.Finish? && e.call in r.underway {
        assert (r.done + [r.underway[e.call].sequence])[|r.done|] == r.underway[e.call].sequence;
      }
    }
  }

  lemma DurableStep(r: Race, e: Event)
    requires Inv(r) && Durable(r)
    ensures Durable(Step(r, e)) <==> !Overtaken(r, e)
  {
    StoredIsMaximum(r.done);
    if e.Finish? && e.call in r.underway {
      var done := Step(r, e).done;
      assert done[..|r.done|] == r.done;
      assert AdvanceAll(done) == Advance(r.stored, r.underway[e.call].sequence);
    }
  }

  /** The position is the maximum of the finished ACKs all through a run exactly when no
      ACK of the run was overtaken between its two commands. */
  lemma {:induction false} DurableExactly(events: seq<Event>)
    ensures DurableThroughout(events) <==> NeverOvertaken(events)
  {
    if events != [] {
      var front := events[..|events| - 1];
      DurableExactly(front);
      StoredWasAcknowledged(front);
      if Durable(Run(front)) {
        DurableStep(Run(front), events[|events| - 1]);
      }
    }
  }

  /** One ACK at a time, as one connection handles its frames. */
  predicate Serial(events: seq<Event>) {
    events != [] ==>
      var front := events[..|events| - 1];
      Serial(front) && (events[|events| - 1].Read? ==> Run(front).underway == map[])
  }

  ghost predicate OnlyCurrentReads(r: Race) {
    && (forall j: nat, k: nat :: j in r.underway && k in r.underway ==> j == k)
    && (forall k: nat :: k in r.underway ==> r.underway[k].read == r.stored)
  }

  lemma {:induction false} SerialReadsAreCurrent(events: seq<Event>)
    requires Serial(events)
    ensures OnlyCurrentReads(Run(events))
  {
    if events != [] {
      SerialReadsAreCurrent(events[..|events| - 1]);
      var r, e := Run(events[..|events| - 1]), events[|events| - 1];
      if e.Finish? && e.call in r.underway {
        assert forall k: nat :: k in r.underway ==> k == e.call;
        assert forall k: nat :: k !in Step(r, e).underway;
      }
    }
  }

  /** A single connection's position is the maximum of its ACKs at every moment. */
  lemma {:induction false} SerialIsDurable(events: seq<Event>)
    requires Serial(events)
    ensures NeverOvertaken(events) && DurableThroughout(events)
  {
    if events != [] {
      SerialIsDurable(events[..|events| - 1]);
      SerialReadsAreCurrent(events[..|events| - 1]);
    }
    DurableExactly(events);
  }

  /** Two connections of one session: the later ACK lands between the commands of the
      earlier one, and the position moves back from 9 to 5. */
  lemma PositionMovesBack()
    ensures var before := [Read(0, 5), Read(1, 9), Finish(1)];
      Run(before).stored == Some(9) && Run(before + [Finish(0)]).stored == Some(5)
  {
    var one, two := [Read(0, 5)], [Read(0, 5), Read(1, 9)];
    var before := two + [Finish(1)];
    assert one[..0] == [] && two[..1] == one && before[..2] == two && (before + [Finish(0)])[..3] == before;
    assert Run(one) == Step(UNTOUCHED, Read(0, 5));
    assert Run(two) == Step(Run(one), Read(1, 9));
    assert Run(before) == Step(Run(two), Finish(1));
  }
}
