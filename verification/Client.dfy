/**
 The reference client: duplicate suppression in a bounded window, gap detection and
 cumulative ACKs, across reconnects.

 `onMessage` is started for each MESSAGE frame without waiting for the one before;
 its first segment (`Receive`) runs up to the handlers, its last (`Finish`) sends the
 ACK after them, and anything may happen in between.
 */
module Client {
  import opened Prelude

  datatype Msg = Msg(id: string, channel: string, sequence: int)

  datatype Gap = Gap(expected: int, received: int)
  {
    predicate Contains(n: int) {
      expected <= n < received
    }
  }

  datatype Options = Options(window: nat, autoAck: bool)

  /** A channel since its position was last reset: what was handled, the gaps
      reported and the ACKs issued. */
  datatype Track = Track(handled: seq<int>, gaps: seq<Gap>, acks: seq<int>)

  /** The client's fields, then two logs. */
  datatype State = State(
    lastAck: map<string, int>,
    lastSeen: map<string, int>,
    seenIds: set<string>,
    seenOrder: seq<string>,
    handled: seq<Msg>,
    tracks: map<string, Track>)

  datatype Event =
    | Receive(msg: Msg)
    | Finish(msg: Msg)
    | Ack(channel: string, sequence: int)
    | ResumeGap
    | Unsubscribe(channel: string)

  const NEW := State(map[], map[], {}, [], [], map[])

  function TrackOf(s: State, channel: string): Track {
    if channel in s.tracks then s.tracks[channel] else Track([], [], [])
  }

  function AckStep(s: State, channel: string, sequence: int): State {
    var current := if channel in s.lastAck then s.lastAck[channel] else 0;
    if sequence <= current then s
    else
      var t := TrackOf(s, channel);
      s.(lastAck := s.lastAck[channel := sequence],
         tracks := s.tracks[channel := t.(acks := t.acks + [sequence])])
  }

  function LastOf<T>(s: seq<T>, n: nat): seq<T> {
    if |s| > n then s[|s| - n..] else s
  }

  function Elements(s: seq<string>): set<string> {
    set x | x in s
  }

  function Remember(o: Options, s: State, id: string): State {
    var order := LastOf(s.seenOrder + [id], o.window);
    s.(seenOrder := order, seenIds := Elements(order))
  }

  /** Gap detection and the high-water mark, for a message that is not a duplicate. */
  function Note(s: State, m: Msg): State {
    var t := TrackOf(s, m.channel);
    var ahead := m.channel in s.lastSeen && m.sequence > s.lastSeen[m.channel] + 1;
    var gaps := if ahead then t.gaps + [Gap(s.lastSeen[m.channel] + 1, m.sequence)] else t.gaps;
    s.(lastSeen := if m.channel !in s.lastSeen || m.sequence > s.lastSeen[m.channel]
                   then s.lastSeen[m.channel := m.sequence] else s.lastSeen,
       handled := s.handled + [m],
       tracks := s.tracks[m.channel := t.(handled := t.handled + [m.sequence], gaps := gaps)])
  }

  /** What `onGap` is called with when the message arrives. */
  function Reported(s: State, m: Msg): Option<Gap> {
    if m.id !in s.seenIds && m.channel in s.lastSeen && m.sequence > s.lastSeen[m.channel] + 1
    then Some(Gap(s.lastSeen[m.channel] + 1, m.sequence)) else None
  }

  function Step(o: Options, s: State, e: Event): State {
    match e
    case Receive(m) =>
      if m.id in s.seenIds then (if o.autoAck then AckStep(s, m.channel, m.sequence) else s)
      else Note(Remember(o, s, m.id), m)
    case Finish(m) => if o.autoAck then AckStep(s, m.channel, m.sequence) else s
    case Ack(channel, sequence) => AckStep(s, channel, sequence)
    case ResumeGap => s.(lastAck := map[], lastSeen := map[], tracks := map[])
    case Unsubscribe(channel) =>
      s.(lastAck := s.lastAck - {channel}, lastSeen := s.lastSeen - {channel}, tracks := s.tracks - {channel})
  }

  function Run(o: Options, events: seq<Event>): State {
    if events == [] then NEW else Step(o, Run(o, events[..|events| - 1]), events[|events| - 1])
  }

  // ---------------------------------------------------------------- the client object

  /** The eviction loop of `rememberId`. */
  method EvictOldest(ids: set<string>, order: seq<string>, window: nat)
    returns (ids': set<string>, order': seq<string>)
    requires Unrepeated(order) && ids == Elements(order)
    ensures order' == LastOf(order, window) && ids' == Elements(order')
  {
    ids', order' := ids, order;
    var k := 0;
    while |order'| > window
      invariant 0 <= k <= |order| && order' == order[k..]
      invariant k == 0 || |order'| >= window
      invariant ids' == Elements(order')
    {
      var evicted := order'[0];
      order' := order'[1..];
      assert order[k..] == [evicted] + order[k + 1..];
      ids' := ids' - {evicted};
      k := k + 1;
    }
  }

  class RelayClient {
    const options: Options
    var lastAck: map<string, int>
    var lastSeen: map<string, int>
    var seenIds: set<string>
    var seenOrder: seq<string>
    ghost var handled: seq<Msg>
    ghost var tracks: map<string, Track>

    ghost function View(): State
      reads this
    {
      State(lastAck, lastSeen, seenIds, seenOrder, handled, tracks)
    }

    constructor (options: Options)
      ensures View() == NEW && this.options == options
    {
      this.options := options;
      lastAck, lastSeen, seenIds, seenOrder, handled, tracks := map[], map[], {}, [], [], map[];
    }

    method RememberId(id: string)
      requires Elements(seenOrder) == seenIds && id !in seenIds && Unrepeated(seenOrder)
      modifies this`seenIds, this`seenOrder
      ensures View() == Remember(options, old(View()), id)
    {
      seenIds := seenIds + {id};
      seenOrder := seenOrder + [id];
      seenIds, seenOrder := EvictOldest(seenIds, seenOrder, options.window);
    }

    method SendAck(channel: string, sequence: int)
      modifies this`lastAck, this`tracks
      ensures View() == AckStep(old(View()), channel, sequence)
    {
      var current := if channel in lastAck then lastAck[channel] else 0;
      if sequence <= current {
        return;
      }
      lastAck := lastAck[channel := sequence];
      tracks := tracks[channel := TrackOf(View(), channel).(acks := TrackOf(View(), channel).acks + [sequence])];
    }

    /** `onMessage` up to the handlers; `gap` is what `onGap` is called with. */
    method OnMessage(m: Msg) returns (duplicate: bool, gap: Option<Gap>)
      requires Elements(seenOrder) == seenIds && Unrepeated(seenOrder)
      modifies this
      ensures View() == Step(options, old(View()), Receive(m))
      ensures duplicate <==> m.id in old(seenIds)
      ensures gap == Reported(old(View()), m)
    {
      gap := None;
      if m.id in seenIds {
        if options.autoAck {
          SendAck(m.channel, m.sequence);
        }
        return true, None;
      }
      RememberId(m.id);
      ghost var s := View();
      if m.channel in lastSeen && m.sequence > lastSeen[m.channel] + 1 {
        gap := Some(Gap(lastSeen[m.channel] + 1, m.sequence));
      }
      if m.channel !in lastSeen || m.sequence > lastSeen[m.channel] {
        lastSeen := lastSeen[m.channel := m.sequence];
      }
      handled, tracks := Note(s, m).handled, Note(s, m).tracks;
      return false, gap;
    }
  }

  // ---------------------------------------------------------------- invariants

  ghost predicate Unrepeated(s: seq<string>) {
    forall i, j :: 0 <= i < j < |s| ==> s[i] != s[j]
  }

  function Ids(ms: seq<Msg>): seq<string> {
    seq(|ms|, i requires 0 <= i < |ms| => ms[i].id)
  }

  /** Equal ids are more than `w` positions apart. */
  ghost predicate Spaced(ids: seq<string>, w: nat) {
    forall i, j :: 0 <= i < j < |ids| && j - i <= w ==> ids[i] != ids[j]
  }

  ghost predicate Deduped(o: Options, s: State) {
    && s.seenOrder == LastOf(Ids(s.handled), o.window)
    && s.seenIds == Elements(s.seenOrder)
    && Spaced(Ids(s.handled), o.window)
  }

  /** Every number from the first handled to the highest seen was handled or lies in a
      reported gap. */
  ghost predicate Covered(t: Track, seen: int) {
    && t.handled != []
    && seen in t.handled
    && (forall n :: n in t.handled ==> n <= seen)
    && (forall n :: t.handled[0] <= n <= seen ==> n in t.handled || InGap(t.gaps, n))
  }

  ghost predicate InGap(gaps: seq<Gap>, n: int) {
    exists i :: 0 <= i < |gaps| && gaps[i].Contains(n)
  }

  ghost predicate Acked(t: Track, last: int) {
    && t.acks != [] && t.acks[|t.acks| - 1] == last
    && (forall i :: 0 <= i < |t.acks| ==> t.acks[i] > 0)
    && (forall i, j :: 0 <= i < j < |t.acks| ==> t.acks[i] < t.acks[j])
  }

  ghost predicate ChannelInv(t: Track, seen: Option<int>, ack: Option<int>) {
    && (if seen.Some? then Covered(t, seen.value) else t.handled == [] && t.gaps == [])
    && (if ack.Some? then Acked(t, ack.value) else t.acks == [])
  }

  function Lookup(m: map<string, int>, channel: string): Option<int> {
    if channel in m then Some(m[channel]) else None
  }

  ghost predicate Tracked(s: State, channel: string) {
    ChannelInv(TrackOf(s, channel), Lookup(s.lastSeen, channel), Lookup(s.lastAck, channel))
  }

  ghost predicate Inv(o: Options, s: State) {
    Deduped(o, s) && forall channel :: Tracked(s, channel)
  }

  lemma AckTracked(s: State, channel: string, sequence: int, other: string)
    requires Tracked(s, channel) && Tracked(s, other)
    ensures Tracked(AckStep(s, channel, sequence), other)
  {
    if other != channel {
      assert TrackOf(AckStep(s, channel, sequence), other) == TrackOf(s, other);
    }
  }

  lemma NoteTracked(s: State, m: Msg, other: string)
    requires Tracked(s, m.channel) && Tracked(s, other)
    ensures Tracked(Note(s, m), other)
  {
    if other == m.channel {
      NoteCovers(s, m);
    } else {
      assert TrackOf(Note(s, m), other) == TrackOf(s, other);
    }
  }

  lemma NoteCovers(s: State, m: Msg)
    requires Tracked(s, m.channel)
    ensures Covered(TrackOf(Note(s, m), m.channel), Note(s, m).lastSeen[m.channel])
  {
    var t, t' := TrackOf(s, m.channel), TrackOf(Note(s, m), m.channel);
    var seen' := Note(s, m).lastSeen[m.channel];
    assert m.sequence == t'.handled[|t.handled|];
    if m.channel in s.lastSeen {
      var seen := s.lastSeen[m.channel];
      forall n | t'.handled[0] <= n <= seen' ensures n in t'.handled || InGap(t'.gaps, n) {
        if n <= seen {
          assert n in t.handled || InGap(t.gaps, n);
          if InGap(t.gaps, n) {
            var i :| 0 <= i < |t.gaps| && t.gaps[i].Contains(n);
            assert t'.gaps[i].Contains(n);
          }
        } else if n < m.sequence {
          assert t'.gaps[|t.gaps|].Contains(n);
        }
      }
    }
  }

  lemma SpacedSnoc(ids: seq<string>, w: nat, id: string)
    requires Spaced(ids, w) && id !in LastOf(ids, w)
    ensures Spaced(ids + [id], w)
  {
    forall i | 0 <= i < |ids| && |ids| - i <= w ensures ids[i] != id {
      InWindow(ids, w, i);
    }
  }

  lemma LastOfSnoc(ids: seq<string>, w: nat, id: string)
    ensures LastOf(LastOf(ids, w) + [id], w) == LastOf(ids + [id], w)
  {
    if |ids| > w {
      var last := ids[|ids| - w..];
      assert last + [id] == (ids + [id])[|ids| - w..];
    }
  }

  lemma WindowUnrepeated(ids: seq<string>, w: nat)
    requires Spaced(ids, w)
    ensures Unrepeated(LastOf(ids, w))
  {
    var last := LastOf(ids, w);
    forall i, j | 0 <= i < j < |last| ensures last[i] != last[j] {
      assert last[i] == ids[|ids| - |last| + i] && last[j] == ids[|ids| - |last| + j];
    }
  }

  lemma DedupedReceive(o: Options, s: State, m: Msg)
    requires Deduped(o, s) && m.id !in s.seenIds
    ensures Deduped(o, Note(Remember(o, s, m.id), m))
  {
    assert Ids(s.handled + [m]) == Ids(s.handled) + [m.id];
    SpacedSnoc(Ids(s.handled), o.window, m.id);
    LastOfSnoc(Ids(s.handled), o.window, m.id);
  }

  lemma ReceiveInv(o: Options, s: State, m: Msg)
    requires Inv(o, s) && m.id !in s.seenIds
    ensures Inv(o, Note(Remember(o, s, m.id), m))
  {
    DedupedReceive(o, s, m);
    var r := Remember(o, s, m.id);
    forall channel ensures Tracked(Note(r, m), channel) {
      assert Tracked(s, channel) && Tracked(s, m.channel);
      assert TrackOf(r, channel) == TrackOf(s, channel) && TrackOf(r, m.channel) == TrackOf(s, m.channel);
      NoteTracked(r, m, channel);
    }
  }

  lemma AckInv(o: Options, s: State, channel: string, sequence: int)
    requires Inv(o, s)
    ensures Inv(o, AckStep(s, channel, sequence))
  {
    forall other ensures Tracked(AckStep(s, channel, sequence), other) {
      AckTracked(s, channel, sequence, other);
    }
  }

  lemma InvStep(o: Options, s: State, e: Event)
    requires Inv(o, s)
    ensures Inv(o, Step(o, s, e))
  {
    match e {
      case Receive(m) =>
        if m.id in s.seenIds {
          AckInv(o, s, m.channel, m.sequence);
        } else {
          ReceiveInv(o, s, m);
        }
      case Finish(m) => AckInv(o, s, m.channel, m.sequence);
      case Ack(channel, sequence) => AckInv(o, s, channel, sequence);
      case ResumeGap =>
      case Unsubscribe(channel) =>
        forall other ensures Tracked(Step(o, s, e), other) {
          assert Tracked(s, other);
        }
    }
  }

  lemma {:induction false} ReachableInv(o: Options, events: seq<Event>)
    ensures Inv(o, Run(o, events))
  {
    if events != [] {
      ReachableInv(o, events[..|events| - 1]);
      InvStep(o, Run(o, events[..|events| - 1]), events[|events| - 1]);
    }
  }

  // ---------------------------------------------------------------- theorems

  /** Dedup window: in any run the remembered ids are the last W handled, without
      repeats; a message is handled exactly when its id is none of them; and two
      handled messages with one id are more than W positions apart. */
  lemma DedupWindow(o: Options, events: seq<Event>, m: Msg)
    ensures var s := Run(o, events);
      && s.seenOrder == LastOf(Ids(s.handled), o.window)
      && s.seenIds == Elements(s.seenOrder) && Unrepeated(s.seenOrder)
      && (Step(o, s, Receive(m)).handled == s.handled + [m] <==> m.id !in LastOf(Ids(s.handled), o.window))
      && Spaced(Ids(s.handled), o.window)
  {
    ReachableInv(o, events);
    var s := Run(o, events);
    WindowUnrepeated(Ids(s.handled), o.window);
    assert s.handled != s.handled + [m];
  }

  /** Gap coverage: since a channel's last reset, every number from the first handled up
      to the highest seen was handled or lies in a reported gap. */
  lemma GapCoverage(o: Options, events: seq<Event>, channel: string, n: int)
    requires channel in Run(o, events).lastSeen
    ensures var s := Run(o, events);
      var t := TrackOf(s, channel);
      && t.handled != []
      && (t.handled[0] <= n <= s.lastSeen[channel] ==> n in t.handled || InGap(t.gaps, n))
      && (n in t.handled ==> n <= s.lastSeen[channel])
  {
    ReachableInv(o, events);
    assert Tracked(Run(o, events), channel);
  }

  /** What lies between the highest number handled and the message. */
  ghost predicate Between(handled: seq<int>, m: Msg, gap: Gap) {
    && gap.received == m.sequence && gap.expected - 1 in handled
    && (forall n :: n in handled ==> n < gap.expected)
  }

  lemma ReportedOf(o: Options, s: State, m: Msg)
    requires Tracked(s, m.channel)
    ensures var handled := TrackOf(s, m.channel).handled;
      && (Reported(s, m).Some? <==> m.id !in s.seenIds && handled != [] && forall n :: n in handled ==> n + 1 < m.sequence)
      && (Reported(s, m).Some? ==> Between(handled, m, Reported(s, m).value))
  {
  }

  /** A gap is reported exactly when the message is not a duplicate in the window, something
      was handled on its channel since the last reset, and its number is more than one above
      everything handled since; the gap is then what lies between, and it is recorded. */
  lemma GapReportedExactly(o: Options, events: seq<Event>, m: Msg)
    ensures var s := Run(o, events);
      var t, gap := TrackOf(s, m.channel), Reported(s, m);
      && (gap.Some? <==>
            && m.id !in LastOf(Ids(s.handled), o.window)
            && t.handled != [] && forall n :: n in t.handled ==> n + 1 < m.sequence)
      && (gap.Some? ==> Between(t.handled, m, gap.value))
      && TrackOf(Step(o, s, Receive(m)), m.channel).gaps == t.gaps + if gap.Some? then [gap.value] else []
  {
    ReachableInv(o, events);
    ReportedOf(o, Run(o, events), m);
    ReportedIsRecorded(o, Run(o, events), m);
  }

  lemma ReportedIsRecorded(o: Options, s: State, m: Msg)
    ensures TrackOf(Step(o, s, Receive(m)), m.channel).gaps ==
      TrackOf(s, m.channel).gaps + if Reported(s, m).Some? then [Reported(s, m).value] else []
  {
  }

  /** A gap, when it is reported, is not empty and contains only numbers not handled
      since the channel's last reset. */
  lemma GapsAreHonest(o: Options, events: seq<Event>, m: Msg, n: int)
    requires var t, t' := TrackOf(Run(o, events), m.channel), TrackOf(Step(o, Run(o, events), Receive(m)), m.channel);
      |t'.gaps| > |t.gaps|
    ensures var t, t' := TrackOf(Run(o, events), m.channel), TrackOf(Step(o, Run(o, events), Receive(m)), m.channel);
      && |t'.gaps| == |t.gaps| + 1
      && t'.gaps[|t.gaps|].Contains(m.sequence - 1)
      && (t'.gaps[|t.gaps|].Contains(n) ==> n !in t.handled)
  {
    ReachableInv(o, events);
    assert Tracked(Run(o, events), m.channel);
  }

  ghost predicate AcksIncreasing(s: State, channel: string) {
    var acks := TrackOf(s, channel).acks;
    && StrictlyIncreasing(acks)
    && (channel in s.lastAck <==> acks != [])
    && (channel in s.lastAck ==> s.lastAck[channel] == acks[|acks| - 1] > 0)
  }

  lemma TrackedAcksIncrease(s: State, channel: string)
    requires Tracked(s, channel)
    ensures AcksIncreasing(s, channel)
  {
  }

  /** Between resets of a channel each ACK issued is higher than the one before, and the
      resume position is the last of them. */
  lemma AcksIncrease(o: Options, events: seq<Event>, channel: string)
    ensures AcksIncreasing(Run(o, events), channel)
  {
    ReachableInv(o, events);
    TrackedAcksIncrease(Run(o, events), channel);
  }

  function Position(s: State, channel: string): int {
    if channel in s.lastAck then s.lastAck[channel] else 0
  }

  /** An ACK moves the channel's position to it unless it is already there or beyond, and
      touches no other. */
  lemma AckAdvances(o: Options, events: seq<Event>, channel: string, n: int, other: string)
    ensures var s := Run(o, events);
      var s' := Step(o, s, Ack(channel, n));
      && Position(s', channel) == Max(Position(s, channel), n)
      && (other != channel ==> Lookup(s'.lastAck, other) == Lookup(s.lastAck, other))
      && s'.lastSeen == s.lastSeen && s'.handled == s.handled
  {
    ReachableInv(o, events);
    assert Tracked(Run(o, events), channel);
  }

  /** Nothing is acknowledged early or unasked: with automatic ACKs off only the application's
      own move a position, and with them on a message that is not a duplicate moves none
      until its handlers are done. */
  lemma NothingAckedEarly(o: Options, events: seq<Event>, m: Msg)
    ensures !o.autoAck ==>
      && Step(o, Run(o, events), Receive(m)).lastAck == Run(o, events).lastAck
      && Step(o, Run(o, events), Finish(m)) == Run(o, events)
    ensures m.id !in LastOf(Ids(Run(o, events).handled), o.window) ==>
      Step(o, Run(o, events), Receive(m)).lastAck == Run(o, events).lastAck
  {
    ReachableInv(o, events);
  }

  /** A gap report resets every channel: no position is left to resume from, the next message
      of any channel reports no gap, and with automatic ACKs its number becomes the
      position even below the old one.  The duplicate window is kept. */
  lemma GapReportResets(o: Options, events: seq<Event>, m: Msg)
    ensures var s := Step(o, Run(o, events), ResumeGap);
      && s.lastAck == map[] && Reported(s, m) == None
      && (o.autoAck && m.sequence > 0 ==>
            Step(o, Step(o, s, Receive(m)), Finish(m)).lastAck == map[m.channel := m.sequence])
      && s.handled == Run(o, events).handled && s.seenOrder == Run(o, events).seenOrder
  {
  }

  /** Unsubscribing resets its own channel in the same way and leaves the others alone. */
  lemma UnsubscribeResets(o: Options, events: seq<Event>, m: Msg, other: string)
    requires other != m.channel
    ensures var before := Run(o, events);
      var s := Step(o, before, Unsubscribe(m.channel));
      && m.channel !in s.lastAck && Reported(s, m) == None
      && (o.autoAck && m.sequence > 0 ==>
            Position(Step(o, Step(o, s, Receive(m)), Finish(m)), m.channel) == m.sequence)
      && Lookup(s.lastAck, other) == Lookup(before.lastAck, other)
      && Lookup(s.lastSeen, other) == Lookup(before.lastSeen, other)
      && TrackOf(s, other) == TrackOf(before, other)
      && s.handled == before.handled && s.seenOrder == before.seenOrder
  {
  }

  /** With automatic ACKs, a message whose handlers are done and a duplicate are both
      covered by the resume position. */
  lemma AutoAckCovers(o: Options, events: seq<Event>, m: Msg)
    requires o.autoAck && m.sequence > 0
    ensures var s := Step(o, Run(o, events), Finish(m));
      m.channel in s.lastAck && s.lastAck[m.channel] >= m.sequence
    ensures m.id in LastOf(Ids(Run(o, events).handled), o.window) ==>
      var s := Step(o, Run(o, events), Receive(m));
      m.channel in s.lastAck && s.lastAck[m.channel] >= m.sequence && s.handled == Run(o, events).handled
  {
    ReachableInv(o, events);
  }

  // ---------------------------------------------------------------- duplicates close together

  /** The messages received in a run, in order. */
  function Received(events: seq<Event>): seq<Msg> {
    if events == [] then []
    else
      var rest := Received(events[..|events| - 1]);
      if events[|events| - 1].Receive? then rest + [events[|events| - 1].msg] else rest
  }

  /** The first message of each id. */
  function Firsts(ms: seq<Msg>): seq<Msg> {
    if ms == [] then []
    else
      var rest, last := Firsts(ms[..|ms| - 1]), ms[|ms| - 1];
      if last.id in Ids(rest) then rest else rest + [last]
  }

  lemma IdsSnoc(ms: seq<Msg>, m: Msg)
    ensures Ids(ms + [m]) == Ids(ms) + [m.id]
  {
  }

  /** The ids are those received, each once. */
  lemma {:induction false} FirstsOnce(ms: seq<Msg>)
    ensures Unrepeated(Ids(Firsts(ms)))
    ensures forall id :: id in Ids(Firsts(ms)) <==> id in Ids(ms)
  {
    if ms != [] {
      var front, last := ms[..|ms| - 1], ms[|ms| - 1];
      FirstsOnce(front);
      IdsSnoc(front, last);
      assert ms == front + [last];
      IdsSnoc(Firsts(front), last);
    }
  }

  /** No more first messages follow one than messages do. */
  lemma {:induction false} FirstsReach(ms: seq<Msg>, id: string) returns (i: nat, k: nat)
    requires id in Ids(Firsts(ms))
    ensures i < |ms| && ms[i].id == id && k < |Firsts(ms)| && Firsts(ms)[k].id == id
    ensures |Firsts(ms)| - k <= |ms| - i
  {
    var front, last := ms[..|ms| - 1], ms[|ms| - 1];
    if id in Ids(Firsts(front)) {
      i, k := FirstsReach(front, id);
    } else {
      IdsSnoc(Firsts(front), last);
      i, k := |front|, |Firsts(front)|;
    }
  }

  /** Copies of one message are at most `w` apart. */
  ghost predicate CloseCopies(ms: seq<Msg>, w: nat) {
    forall i, j :: 0 <= i < j < |ms| && ms[i].id == ms[j].id ==> j - i <= w
  }

  ghost predicate NotHandledBefore(s: State, ms: seq<Msg>) {
    forall m :: m in ms ==> m.id !in Ids(s.handled)
  }

  lemma FirstsSnoc(ms: seq<Msg>, m: Msg)
    ensures Firsts(ms + [m]) == if m.id in Ids(Firsts(ms)) then Firsts(ms) else Firsts(ms) + [m]
  {
    assert (ms + [m])[..|ms|] == ms;
  }

  lemma IdsConcat(a: seq<Msg>, b: seq<Msg>)
    ensures Ids(a + b) == Ids(a) + Ids(b)
  {
  }

  /** A copy of a message received at most W before is still in the window. */
  lemma CopyRemembered(known: seq<Msg>, ms: seq<Msg>, m: Msg, w: nat)
    requires CloseCopies(ms + [m], w) && m.id in Ids(Firsts(ms))
    ensures m.id in LastOf(Ids(known + Firsts(ms)), w)
  {
    var i, k := FirstsReach(ms, m.id);
    assert (ms + [m])[i].id == (ms + [m])[|ms|].id;
    IdsConcat(known, Firsts(ms));
    InWindow(Ids(known + Firsts(ms)), w, |known| + k);
  }

  lemma HandledIfNew(o: Options, s: State, m: Msg)
    requires Deduped(o, s)
    ensures Step(o, s, Receive(m)).handled ==
      if m.id in LastOf(Ids(s.handled), o.window) then s.handled else s.handled + [m]
  {
  }

  /** Messages are remembered only if handled. */
  lemma Forgotten(known: seq<Msg>, later: seq<Msg>, id: string, w: nat)
    requires id !in Ids(known) && id !in Ids(later)
    ensures id !in LastOf(Ids(known + later), w)
  {
    IdsConcat(known, later);
  }

  /** One received message, when those before it were handled once each. */
  lemma ReceiveOnce(known: seq<Msg>, ms: seq<Msg>, m: Msg, w: nat)
    requires CloseCopies(ms + [m], w) && m.id !in Ids(known)
    ensures m.id in LastOf(Ids(known + Firsts(ms)), w) <==> m.id in Ids(Firsts(ms))
    ensures Firsts(ms + [m]) == if m.id in Ids(Firsts(ms)) then Firsts(ms) else Firsts(ms) + [m]
  {
    FirstsSnoc(ms, m);
    if m.id in Ids(Firsts(ms)) {
      CopyRemembered(known, ms, m, w);
    } else {
      Forgotten(known, Firsts(ms), m.id, w);
    }
  }

  lemma ReceiveNext(o: Options, s: State, known: seq<Msg>, ms: seq<Msg>, m: Msg)
    requires Deduped(o, s) && s.handled == known + Firsts(ms)
    requires CloseCopies(ms + [m], o.window) && m.id !in Ids(known)
    ensures Step(o, s, Receive(m)).handled == known + Firsts(ms + [m])
  {
    HandledIfNew(o, s, m);
    ReceiveOnce(known, ms, m, o.window);
    KnownThenNew(known, Firsts(ms), m);
  }

  lemma KnownThenNew(known: seq<Msg>, later: seq<Msg>, m: Msg)
    ensures known + (later + [m]) == known + later + [m]
  {
  }

  lemma RunSnoc(o: Options, events: seq<Event>, e: Event)
    ensures Run(o, events + [e]) == Step(o, Run(o, events), e)
  {
    assert (events + [e])[..|events|] == events;
  }

  lemma RunAfter(o: Options, before: seq<Event>, events: seq<Event>)
    requires events != []
    ensures Run(o, before + events) == Step(o, Run(o, before + events[..|events| - 1]), events[|events| - 1])
  {
    var front, e := events[..|events| - 1], events[|events| - 1];
    SnocLast(before, events);
    RunSnoc(o, before + front, e);
  }

  lemma SnocLast(before: seq<Event>, events: seq<Event>)
    requires events != []
    ensures before + events == before + events[..|events| - 1] + [events[|events| - 1]]
  {
  }

  lemma CloseFront(ms: seq<Msg>, m: Msg, w: nat)
    requires CloseCopies(ms + [m], w)
    ensures CloseCopies(ms, w)
  {
    assert forall i :: 0 <= i < |ms| ==> (ms + [m])[i] == ms[i];
  }

  lemma NotHandledFront(s: State, ms: seq<Msg>, m: Msg)
    requires NotHandledBefore(s, ms + [m])
    ensures NotHandledBefore(s, ms) && m.id !in Ids(s.handled)
  {
    assert forall x :: x in ms ==> x in ms + [m];
    assert m in ms + [m];
  }

  lemma InWindow(ids: seq<string>, w: nat, k: nat)
    requires k < |ids| && |ids| - k <= w
    ensures ids[k] in LastOf(ids, w)
  {
    var last := LastOf(ids, w);
    assert last[k - (|ids| - |last|)] == ids[k];
  }

  /** Whatever the client did before and does in between, messages new to it whose copies
      are at most W apart reach the handlers once each, in the order they first came. */
  lemma {:induction false} CloseCopiesHandledOnce(o: Options, before: seq<Event>, events: seq<Event>)
    requires CloseCopies(Received(events), o.window) && NotHandledBefore(Run(o, before), Received(events))
    ensures Run(o, before + events).handled == Run(o, before).handled + Firsts(Received(events))
  {
    if events == [] {
      assert before + events == before;
    } else {
      var front, e := events[..|events| - 1], events[|events| - 1];
      RunAfter(o, before, events);
      if e.Receive? {
        var known, ms := Run(o, before).handled, Received(front);
        CloseFront(ms, e.msg, o.window);
        NotHandledFront(Run(o, before), ms, e.msg);
        CloseCopiesHandledOnce(o, before, front);
        ReachableInv(o, before + front);
        ReceiveNext(o, Run(o, before + front), known, ms, e.msg);
      } else {
        CloseCopiesHandledOnce(o, before, front);
      }
    }
  }

  /** Each copy of a message comes while it is among the last `w` different ones. */
  ghost predicate NearCopies(ms: seq<Msg>, w: nat) {
    ms == [] ||
    (NearCopies(ms[..|ms| - 1], w) &&
     var ids, last := Ids(Firsts(ms[..|ms| - 1])), ms[|ms| - 1];
     last.id in ids ==> last.id in LastOf(ids, w))
  }

  lemma {:induction false} CloseIsNear(ms: seq<Msg>, w: nat)
    requires CloseCopies(ms, w)
    ensures NearCopies(ms, w)
  {
    if ms != [] {
      var front, last := ms[..|ms| - 1], ms[|ms| - 1];
      assert ms == front + [last];
      CloseIsNear(front, w);
      if last.id in Ids(Firsts(front)) {
        CopyRemembered([], front, last, w);
        assert [] + Firsts(front) == Firsts(front);
      }
    }
  }

  lemma LastAmong(ids: seq<string>, w: nat, id: string)
    requires id in LastOf(ids, w)
    ensures id in ids
  {
  }

  lemma NearStep(o: Options, s: State, ms: seq<Msg>, m: Msg)
    requires Deduped(o, s) && s.handled == Firsts(ms)
    ensures var handled := Step(o, s, Receive(m)).handled;
      if m.id in Ids(Firsts(ms)) && m.id !in LastOf(Ids(Firsts(ms)), o.window)
      then !Unrepeated(Ids(handled)) else handled == Firsts(ms + [m])
  {
    HandledIfNew(o, s, m);
    FirstsSnoc(ms, m);
    var ids := Ids(Firsts(ms));
    if m.id in LastOf(ids, o.window) {
      LastAmong(ids, o.window, m.id);
    } else if m.id in ids {
      IdsSnoc(Firsts(ms), m);
      RepeatedSnoc(ids, m.id);
    }
  }

  lemma RepeatedSnoc(ids: seq<string>, id: string)
    requires id in ids
    ensures !Unrepeated(ids + [id])
  {
    var i :| 0 <= i < |ids| && ids[i] == id;
    assert (ids + [id])[i] == (ids + [id])[|ids|];
  }

  lemma HandledGrows(o: Options, s: State, e: Event)
    ensures s.handled <= Step(o, s, e).handled
  {
  }

  lemma RepeatedStays(a: seq<Msg>, b: seq<Msg>)
    requires a <= b && !Unrepeated(Ids(a))
    ensures !Unrepeated(Ids(b))
  {
    var i, j :| 0 <= i < j < |Ids(a)| && Ids(a)[i] == Ids(a)[j];
    assert Ids(b)[i] == Ids(a)[i] && Ids(b)[j] == Ids(a)[j];
  }

  lemma HandledOnceStep(o: Options, s: State, ms: seq<Msg>, m: Msg)
    requires Deduped(o, s) && s.handled == Firsts(ms) && NearCopies(ms, o.window)
    ensures var handled := Step(o, s, Receive(m)).handled;
      && (Unrepeated(Ids(handled)) <==> NearCopies(ms + [m], o.window))
      && (NearCopies(ms + [m], o.window) ==> handled == Firsts(ms + [m]))
  {
    NearStep(o, s, ms, m);
    FirstsOnce(ms + [m]);
    assert (ms + [m])[..|ms|] == ms;
  }

  /** No message is handled twice if and only if each copy comes while its message is among
      the last W different ones received; then the handlers see the first copy of each, in
      order. */
  lemma {:induction false} HandledOnceExactly(o: Options, events: seq<Event>)
    ensures Unrepeated(Ids(Run(o, events).handled)) <==> NearCopies(Received(events), o.window)
    ensures NearCopies(Received(events), o.window) ==> Run(o, events).handled == Firsts(Received(events))
  {
    if events != [] {
      var front, e := events[..|events| - 1], events[|events| - 1];
      HandledOnceExactly(o, front);
      if e.Receive? && NearCopies(Received(front), o.window) {
        ReachableInv(o, front);
        HandledOnceStep(o, Run(o, front), Received(front), e.msg);
      } else if e.Receive? {
        FarStays(Received(front), e.msg, o.window);
        HandledGrows(o, Run(o, front), e);
        RepeatedStays(Run(o, front).handled, Run(o, events).handled);
      } else {
        NothingHandled(o, Run(o, front), e);
      }
    }
  }

  lemma FarStays(ms: seq<Msg>, m: Msg, w: nat)
    requires !NearCopies(ms, w)
    ensures !NearCopies(ms + [m], w)
  {
    assert (ms + [m])[..|ms|] == ms;
  }

  lemma NothingHandled(o: Options, s: State, e: Event)
    requires !e.Receive?
    ensures Step(o, s, e).handled == s.handled
  {
  }

  // ---------------------------------------------------------------- stretches of a log

  ghost predicate OwnIds(log: seq<Msg>) {
    forall i, j :: 0 <= i < j < |log| ==> log[i].id != log[j].id
  }

  lemma IdInStretch(log: seq<Msg>, a: nat, b: nat, q: nat)
    requires OwnIds(log) && a <= b <= |log| && q < |log|
    ensures log[q].id in Ids(log[a..b]) <==> a <= q < b
  {
    var ids := Ids(log[a..b]);
    if a <= q < b {
      assert ids[q - a] == log[q].id;
    }
    forall i | 0 <= i < |ids| && ids[i] == log[q].id ensures q == a + i {
      assert ids[i] == log[a + i].id;
    }
  }

  lemma StretchSnoc(log: seq<Msg>, a: nat, m: nat)
    requires a <= m < |log|
    ensures log[a..m] + [log[m]] == log[a..m + 1]
  {
  }

  /** One more message of the log: new if it is the next, a copy if not. */
  lemma FirstsNext(ms: seq<Msg>, log: seq<Msg>, a: nat, m: nat, q: nat)
    requires OwnIds(log) && a <= q <= m <= |log| && q < |log| && Firsts(ms) == log[a..m]
    ensures Firsts(ms + [log[q]]) == log[a..Max(m, q + 1)]
  {
    FirstsSnoc(ms, log[q]);
    IdInStretch(log, a, m, q);
    if q == m {
      StretchSnoc(log, a, m);
    }
  }

  lemma StretchHead(ms: seq<Msg>, log: seq<Msg>, p: nat, r: nat)
    requires p < r <= |log|
    ensures ms + log[p..r] == ms + [log[p]] + log[p + 1..r]
  {
    assert log[p..r] == [log[p]] + log[p + 1..r];
  }

  /** A stretch of the log that starts in what was received already: the first copies are
      the log as far as either goes. */
  lemma {:induction false} FirstsExtend(ms: seq<Msg>, log: seq<Msg>, a: nat, m: nat, p: nat, r: nat)
    requires OwnIds(log) && a <= p <= m <= |log| && p <= r <= |log| && Firsts(ms) == log[a..m]
    ensures Firsts(ms + log[p..r]) == log[a..Max(m, r)]
    decreases r - p
  {
    if p == r {
      assert ms + log[p..r] == ms;
    } else {
      FirstsNext(ms, log, a, m, p);
      StretchHead(ms, log, p, r);
      FirstsExtend(ms + [log[p]], log, a, Max(m, p + 1), p + 1, r);
    }
  }

  /** Two stretches after what was received. */
  lemma FirstsExtendTwice(ms: seq<Msg>, log: seq<Msg>, a: nat, k: nat, n: nat, read: nat, at: nat, cursor: nat)
    requires OwnIds(log) && a <= n <= k <= |log| && n <= read <= |log| && a <= at <= read && at <= cursor <= |log|
    requires Firsts(ms) == log[a..k]
    ensures Firsts(ms + (log[n..read] + log[at..cursor])) == log[a..Max(k, Max(read, cursor))]
  {
    FirstsExtend(ms, log, a, k, n, read);
    FirstsExtend(ms + log[n..read], log, a, Max(k, read), at, cursor);
    Associates(ms, log[n..read], log[at..cursor]);
  }

  lemma Associates(a: seq<Msg>, b: seq<Msg>, c: seq<Msg>)
    ensures a + (b + c) == a + b + c
  {
  }

  // ---------------------------------------------------------------- one channel of several

  function Only(channel: string, ms: seq<Msg>): seq<Msg> {
    if ms == [] then []
    else
      var rest := Only(channel, ms[..|ms| - 1]);
      if ms[|ms| - 1].channel == channel then rest + [ms[|ms| - 1]] else rest
  }

  lemma {:induction false} OnlyConcat(channel: string, a: seq<Msg>, b: seq<Msg>)
    ensures Only(channel, a + b) == Only(channel, a) + Only(channel, b)
  {
    if b == [] {
      assert a + b == a;
    } else {
      OnlyConcat(channel, a, b[..|b| - 1]);
      assert (a + b)[..|a + b| - 1] == a + b[..|b| - 1];
    }
  }

  lemma {:induction false} OnlyMembers(channel: string, ms: seq<Msg>)
    ensures forall m :: m in Only(channel, ms) <==> m in ms && m.channel == channel
  {
    if ms != [] {
      OnlyMembers(channel, ms[..|ms| - 1]);
      assert ms == ms[..|ms| - 1] + [ms[|ms| - 1]];
    }
  }

  lemma {:induction false} ReceivedConcat(a: seq<Event>, b: seq<Event>)
    ensures Received(a + b) == Received(a) + Received(b)
  {
    if b == [] {
      assert a + b == a;
    } else {
      ReceivedConcat(a, b[..|b| - 1]);
      assert (a + b)[..|a + b| - 1] == a + b[..|b| - 1];
    }
  }

  /** Messages of different channels have different ids. */
  ghost predicate IdsPerChannel(ms: seq<Msg>) {
    forall m, m' :: m in ms && m' in ms && m.id == m'.id ==> m.channel == m'.channel
  }

  lemma IdAmong(ms: seq<Msg>, id: string)
    ensures id in Ids(ms) <==> exists m :: m in ms && m.id == id
  {
    if id in Ids(ms) {
      var i :| 0 <= i < |Ids(ms)| && Ids(ms)[i] == id;
      assert ms[i] in ms;
    }
    if m :| m in ms && m.id == id {
      var i :| 0 <= i < |ms| && ms[i] == m;
      assert Ids(ms)[i] == id;
    }
  }

  lemma {:induction false} FirstsAmong(ms: seq<Msg>)
    ensures forall m :: m in Firsts(ms) ==> m in ms
  {
    if ms != [] {
      FirstsAmong(ms[..|ms| - 1]);
    }
  }

  /** An id is among the firsts of its channel if it is among the firsts. */
  lemma IdOfChannel(channel: string, ms: seq<Msg>, m: Msg)
    requires IdsPerChannel(ms + [m]) && m.channel == channel
    ensures m.id in Ids(Firsts(ms)) <==> m.id in Ids(Only(channel, Firsts(ms)))
  {
    FirstsAmong(ms);
    OnlyMembers(channel, Firsts(ms));
    IdAmong(Firsts(ms), m.id);
    IdAmong(Only(channel, Firsts(ms)), m.id);
    forall f | f in Firsts(ms) && f.id == m.id ensures f.channel == channel {
      assert f in ms + [m] && m in ms + [m];
    }
  }

  /** The first copies on a channel are the first copies of the channel. */
  lemma {:induction false} FirstsOfChannel(channel: string, ms: seq<Msg>)
    requires IdsPerChannel(ms)
    ensures Only(channel, Firsts(ms)) == Firsts(Only(channel, ms))
  {
    if ms != [] {
      var front, last := ms[..|ms| - 1], ms[|ms| - 1];
      assert ms == front + [last];
      assert IdsPerChannel(front);
      FirstsOfChannel(channel, front);
      FirstsSnoc(front, last);
      OnlySnoc(channel, front, last);
      OnlySnoc(channel, Firsts(front), last);
      if last.channel == channel {
        FirstsSnoc(Only(channel, front), last);
        IdOfChannel(channel, front, last);
      }
    }
  }

  lemma OnlySnoc(channel: string, ms: seq<Msg>, m: Msg)
    ensures Only(channel, ms + [m]) == if m.channel == channel then Only(channel, ms) + [m] else Only(channel, ms)
  {
    assert (ms + [m])[..|ms|] == ms;
  }

  // ---------------------------------------------------------------- the resume position

  ghost predicate Number(ms: seq<Msg>, channel: string, n: int) {
    exists m :: m in ms && m.channel == channel && m.sequence == n
  }

  /** Handlers finish, and the application acknowledges, only what was received. */
  ghost predicate AcksOnlyReceived(events: seq<Event>) {
    events == [] ||
    (AcksOnlyReceived(events[..|events| - 1]) &&
     var e, ms := events[|events| - 1], Received(events[..|events| - 1]);
     && (e.Finish? ==> e.msg in ms)
     && (e.Ack? ==> Number(ms, e.channel, e.sequence)))
  }

  /** The resume position is then the number of a received message. */
  lemma {:induction false} PositionWasReceived(o: Options, events: seq<Event>, channel: string)
    requires AcksOnlyReceived(events) && channel in Run(o, events).lastAck
    ensures Number(Received(events), channel, Run(o, events).lastAck[channel])
  {
    if events != [] {
      var front, e := events[..|events| - 1], events[|events| - 1];
      var s, s' := Run(o, front), Run(o, events);
      assert Received(front) <= Received(events);
      if channel in s.lastAck && s'.lastAck[channel] == s.lastAck[channel] {
        PositionWasReceived(o, front, channel);
        StillReceived(Received(front), Received(events), channel, s.lastAck[channel]);
      } else if e.Ack? {
        StillReceived(Received(front), Received(events), channel, e.sequence);
      } else {
        assert e.msg in Received(events);
      }
    }
  }

  lemma StillReceived(ms: seq<Msg>, more: seq<Msg>, channel: string, n: int)
    requires ms <= more && Number(ms, channel, n)
    ensures Number(more, channel, n)
  {
  }
}
