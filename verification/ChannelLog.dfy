/**
 The state Redis keeps for one channel, and the publishers working on it.

 A publish is separate commands: INCR hands out a sequence number, XADD appends to
 the recovery stream and trims it to an exact length, an age trim may drop more of
 the oldest entries, and PUBLISH announces the message.  Any number of publishers
 interleave; one may fail between two commands.
 */
module ChannelLog {
  import opened Prelude

  /** A publisher between INCR and XADD, or between XADD and PUBLISH. */
  datatype Publisher = Allocated(entry: Entry) | Buffered(entry: Entry)

  /** `counter` and `stream` are in Redis; `publishers` are tasks on any node;
      `appended`, `announced` and `abandoned` are logs. */
  datatype Channel = Channel(
    counter: nat,
    stream: seq<Entry>,
    publishers: map<nat, Publisher>,
    appended: seq<Entry>,
    announced: seq<Entry>,
    abandoned: set<nat>)

  datatype Event =
    | Allocate(task: nat, id: string, payload: string)
    | Append(task: nat)
    | AgeTrim(count: nat)
    | Announce(task: nat)
    | Fail(task: nat)

  const EMPTY := Channel(0, [], map[], [], [], {})

  function Newest(s: seq<Entry>, maxlen: nat): seq<Entry> {
    if |s| > maxlen then s[|s| - maxlen..] else s
  }

  function AppendStep(maxlen: nat, c: Channel, task: nat): Channel
    requires task in c.publishers && c.publishers[task].Allocated?
  {
    var e := c.publishers[task].entry;
    c.(stream := Newest(c.stream + [e], maxlen),
       appended := c.appended + [e],
       publishers := c.publishers[task := Buffered(e)])
  }

  /** One command.  The age trim never reaches the newest entry. */
  function Step(maxlen: nat, c: Channel, e: Event): Channel {
    match e
    case Allocate(t, id, payload) =>
      if t in c.publishers then c
      else c.(counter := c.counter + 1,
              publishers := c.publishers[t := Allocated(Entry(id, c.counter + 1, payload))])
    case Append(t) =>
      if t in c.publishers && c.publishers[t].Allocated? then AppendStep(maxlen, c, t) else c
    case AgeTrim(n) => if n < |c.stream| then c.(stream := c.stream[n..]) else c
    case Announce(t) =>
      if t in c.publishers && c.publishers[t].Buffered? then
        c.(announced := c.announced + [c.publishers[t].entry], publishers := c.publishers - {t})
      else c
    case Fail(t) =>
      if t !in c.publishers then c
      else c.(publishers := c.publishers - {t},
              abandoned := if c.publishers[t].Allocated? then c.abandoned + {c.publishers[t].entry.sequence}
                           else c.abandoned)
  }

  function Run(maxlen: nat, events: seq<Event>): Channel {
    if events == [] then EMPTY
    else Step(maxlen, Run(maxlen, events[..|events| - 1]), events[|events| - 1])
  }

  // ---------------------------------------------------------------- any interleaving

  ghost function Numbers(s: seq<Entry>): set<nat> {
    set e | e in s :: e.sequence
  }

  /** Sequence numbers handed out to publishers that have not appended yet. */
  ghost function Unwritten(ps: map<nat, Publisher>): set<nat> {
    set t | t in ps && ps[t].Allocated? :: ps[t].entry.sequence
  }

  ghost predicate Distinct(s: seq<Entry>) {
    forall i, j :: 0 <= i < j < |s| ==> s[i].sequence != s[j].sequence
  }

  ghost predicate OneEach(ps: map<nat, Publisher>) {
    forall t, u :: t in ps && u in ps && t != u ==> ps[t].entry.sequence != ps[u].entry.sequence
  }

  /** 1..counter splits into the numbers appended, still unwritten, and abandoned. */
  ghost predicate Partitioned(c: Channel) {
    && (forall n: nat :: 1 <= n <= c.counter <==>
          n in Numbers(c.appended) || n in Unwritten(c.publishers) || n in c.abandoned)
    && Numbers(c.appended) !! Unwritten(c.publishers) !! c.abandoned
    && Distinct(c.appended)
    && OneEach(c.publishers)
    && (forall t :: t in c.publishers ==> c.publishers[t].entry.sequence <= c.counter)
  }

  ghost predicate Retained(maxlen: nat, c: Channel) {
    && IsSuffix(c.stream, c.appended)
    && |c.stream| <= maxlen
    && (maxlen >= 1 && c.appended != [] ==> c.stream != [])
  }

  /** Each announcement is of an appended entry, made once. */
  ghost predicate AnnouncedOnce(c: Channel) {
    && Distinct(c.announced)
    && (forall e :: e in c.announced ==> e in c.appended)
    && (forall t :: t in c.publishers && c.publishers[t].Buffered? ==>
          c.publishers[t].entry in c.appended && c.publishers[t].entry.sequence !in Numbers(c.announced))
  }

  ghost predicate Inv(maxlen: nat, c: Channel) {
    Partitioned(c) && Retained(maxlen, c) && AnnouncedOnce(c)
  }

  lemma NumbersConcat(s: seq<Entry>, e: Entry)
    ensures Numbers(s + [e]) == Numbers(s) + {e.sequence}
  {
    assert forall x :: x in s + [e] <==> x in s || x == e;
    assert e in s + [e];
    assert Numbers(s + [e]) >= Numbers(s) by {
      forall n | n in Numbers(s) ensures n in Numbers(s + [e]) {
        var x :| x in s && x.sequence == n;
        assert x in s + [e];
      }
    }
  }

  lemma UnwrittenAfterAllocate(ps: map<nat, Publisher>, t: nat, e: Entry)
    requires t !in ps
    ensures Unwritten(ps[t := Allocated(e)]) == Unwritten(ps) + {e.sequence}
  {
    var ps' := ps[t := Allocated(e)];
    assert t in ps' && ps'[t].Allocated?;
    forall n | n in Unwritten(ps) ensures n in Unwritten(ps') {
      var u :| u in ps && ps[u].Allocated? && ps[u].entry.sequence == n;
      assert u in ps' && ps'[u] == ps[u];
    }
  }

  /** A publisher that moves on or leaves takes just its own number out. */
  lemma UnwrittenWithout(ps: map<nat, Publisher>, t: nat, ps': map<nat, Publisher>)
    requires t in ps && OneEach(ps)
    requires ps' == ps - {t} || ps' == ps[t := Buffered(ps[t].entry)]
    ensures Unwritten(ps') == Unwritten(ps) - {ps[t].entry.sequence}
    ensures ps[t].Buffered? ==> Unwritten(ps') == Unwritten(ps)
  {
    forall n | n in Unwritten(ps) && n != ps[t].entry.sequence ensures n in Unwritten(ps') {
      var u :| u in ps && ps[u].Allocated? && ps[u].entry.sequence == n;
      assert u in ps' && ps'[u] == ps[u];
    }
    forall n | n in Unwritten(ps') ensures n in Unwritten(ps) && n != ps[t].entry.sequence {
      var u :| u in ps' && ps'[u].Allocated? && ps'[u].entry.sequence == n;
      assert u in ps && u != t;
    }
  }

  lemma PartitionedAllocate(c: Channel, t: nat, e: Entry)
    requires Partitioned(c) && t !in c.publishers && e.sequence == c.counter + 1
    ensures Partitioned(c.(counter := c.counter + 1, publishers := c.publishers[t := Allocated(e)]))
  {
    UnwrittenAfterAllocate(c.publishers, t, e);
  }

  lemma PartitionedAppend(maxlen: nat, c: Channel, t: nat)
    requires Partitioned(c) && t in c.publishers && c.publishers[t].Allocated?
    ensures Partitioned(AppendStep(maxlen, c, t))
  {
    var entry := c.publishers[t].entry;
    NumbersConcat(c.appended, entry);
    UnwrittenWithout(c.publishers, t, c.publishers[t := Buffered(entry)]);
    assert entry.sequence in Unwritten(c.publishers);
    forall i | 0 <= i < |c.appended| ensures c.appended[i].sequence != entry.sequence {
      assert c.appended[i] in c.appended;
    }
  }

  lemma PartitionedLeave(maxlen: nat, c: Channel, e: Event)
    requires Partitioned(c) && (e.Announce? || e.Fail?)
    ensures Partitioned(Step(maxlen, c, e))
  {
    if e.task in c.publishers && (e.Fail? || c.publishers[e.task].Buffered?) {
      UnwrittenWithout(c.publishers, e.task, c.publishers - {e.task});
    }
  }

  lemma PartitionedStep(maxlen: nat, c: Channel, e: Event)
    requires Partitioned(c)
    ensures Partitioned(Step(maxlen, c, e))
  {
    match e {
      case Allocate(t, id, payload) =>
        if t !in c.publishers {
          PartitionedAllocate(c, t, Entry(id, c.counter + 1, payload));
        }
      case Append(t) =>
        if t in c.publishers && c.publishers[t].Allocated? {
          PartitionedAppend(maxlen, c, t);
        }
      case AgeTrim(_) =>
      case _ => PartitionedLeave(maxlen, c, e);
    }
  }

  lemma SuffixOfSuffix(s: seq<Entry>, whole: seq<Entry>, n: nat)
    requires IsSuffix(s, whole) && n <= |s|
    ensures IsSuffix(s[n..], whole)
  {
    assert s[n..] == whole[|whole| - |s| + n..];
  }

  lemma SuffixSnoc(s: seq<Entry>, whole: seq<Entry>, e: Entry)
    requires IsSuffix(s, whole)
    ensures IsSuffix(s + [e], whole + [e])
  {
    assert (whole + [e])[|whole| - |s|..] == whole[|whole| - |s|..] + [e];
  }

  lemma NewestIsSuffix(s: seq<Entry>, whole: seq<Entry>, maxlen: nat)
    requires IsSuffix(s, whole)
    ensures IsSuffix(Newest(s, maxlen), whole) && |Newest(s, maxlen)| == if |s| > maxlen then maxlen else |s|
  {
    if |s| > maxlen {
      SuffixOfSuffix(s, whole, |s| - maxlen);
    }
  }

  lemma RetainedAppend(maxlen: nat, c: Channel, t: nat)
    requires Retained(maxlen, c) && t in c.publishers && c.publishers[t].Allocated?
    ensures Retained(maxlen, AppendStep(maxlen, c, t))
  {
    var e := c.publishers[t].entry;
    SuffixSnoc(c.stream, c.appended, e);
    NewestIsSuffix(c.stream + [e], c.appended + [e], maxlen);
  }

  lemma RetainedStep(maxlen: nat, c: Channel, e: Event)
    requires Retained(maxlen, c)
    ensures Retained(maxlen, Step(maxlen, c, e))
  {
    match e {
      case Append(t) =>
        if t in c.publishers && c.publishers[t].Allocated? {
          RetainedAppend(maxlen, c, t);
        }
      case AgeTrim(n) =>
        if n < |c.stream| {
          SuffixOfSuffix(c.stream, c.appended, n);
        }
      case _ =>
    }
  }

  lemma AnnouncedOnceStep(maxlen: nat, c: Channel, e: Event)
    requires Partitioned(c) && AnnouncedOnce(c)
    ensures AnnouncedOnce(Step(maxlen, c, e))
  {
    var c' := Step(maxlen, c, e);
    match e {
      case Append(t) =>
        if t in c.publishers && c.publishers[t].Allocated? {
          var entry := c.publishers[t].entry;
          assert c'.appended[|c.appended|] == entry;
          assert entry.sequence in Unwritten(c.publishers);
          forall n | n in Numbers(c.announced) ensures n in Numbers(c.appended) {
          }
        }
      case Announce(t) =>
        if t in c.publishers && c.publishers[t].Buffered? {
          NumbersConcat(c.announced, c.publishers[t].entry);
          forall i | 0 <= i < |c.announced| ensures c.announced[i].sequence in Numbers(c.announced) {
            assert c.announced[i] in c.announced;
          }
        }
      case _ =>
    }
  }

  lemma InvStep(maxlen: nat, c: Channel, e: Event)
    requires Inv(maxlen, c)
    ensures Inv(maxlen, Step(maxlen, c, e))
  {
    PartitionedStep(maxlen, c, e);
    RetainedStep(maxlen, c, e);
    AnnouncedOnceStep(maxlen, c, e);
  }

  /** Any interleaving of publishers: numbers are never reused, 1..counter splits into
      appended, unwritten and abandoned, the stream is a bounded suffix of the append
      order, and every announcement is of an appended entry and made once. */
  lemma {:induction false} AnyInterleaving(maxlen: nat, events: seq<Event>)
    ensures Inv(maxlen, Run(maxlen, events))
  {
    if events != [] {
      AnyInterleaving(maxlen, events[..|events| - 1]);
      InvStep(maxlen, Run(maxlen, events[..|events| - 1]), events[|events| - 1]);
    }
  }

  /** How a command changes the stream, after any run: XADD adds the publisher's entry at the
      end and keeps as many of the newest entries as the length bound allows, an age trim
      of n takes the n oldest, and nothing else touches it. */
  lemma KeptExactly(maxlen: nat, events: seq<Event>, e: Event)
    ensures var c := Run(maxlen, events);
      Kept(maxlen, c, e, Step(maxlen, c, e).stream)
  {
    AnyInterleaving(maxlen, events);
    KeptStep(maxlen, Run(maxlen, events), e);
  }

  ghost predicate Kept(maxlen: nat, c: Channel, e: Event, stream: seq<Entry>) {
    match e
    case Append(t) =>
      if t in c.publishers && c.publishers[t].Allocated? then
        IsSuffix(stream, c.stream + [c.publishers[t].entry]) && |stream| == Min(maxlen, |c.stream| + 1)
      else stream == c.stream
    case AgeTrim(n) => IsSuffix(stream, c.stream) && |stream| == |c.stream| - if n < |c.stream| then n else 0
    case _ => stream == c.stream
  }

  lemma KeptStep(maxlen: nat, c: Channel, e: Event)
    requires |c.stream| <= maxlen
    ensures Kept(maxlen, c, e, Step(maxlen, c, e).stream)
  {
    match e {
      case Append(t) =>
        if t in c.publishers && c.publishers[t].Allocated? {
          var all := c.stream + [c.publishers[t].entry];
          NewestIsSuffix(all, all, maxlen);
        }
      case AgeTrim(n) =>
        if n < |c.stream| {
          SuffixOfSuffix(c.stream, c.stream, n);
        }
      case _ =>
    }
  }

  /** The commands of a run go on after those before it. */
  lemma {:induction false} RunSnoc(maxlen: nat, events: seq<Event>, e: Event)
    ensures Run(maxlen, events + [e]) == Step(maxlen, Run(maxlen, events), e)
  {
  }

  /** Publishers under way, and announcements beyond the log `known`, have numbers above `n`. */
  ghost predicate Newer(c: Channel, known: seq<Entry>, n: nat) {
    && n <= c.counter && known <= c.announced
    && (forall i :: |known| <= i < |c.announced| ==> c.announced[i].sequence > n)
    && (forall t :: t in c.publishers ==> c.publishers[t].entry.sequence > n)
  }

  lemma NewerStep(maxlen: nat, c: Channel, known: seq<Entry>, n: nat, e: Event)
    requires Newer(c, known, n)
    ensures Newer(Step(maxlen, c, e), known, n)
  {
  }

  /** Once no publish is under way, whatever is announced later has a higher number than
      everything before. */
  lemma {:induction false} LaterNumbersAreHigher(maxlen: nat, past: seq<Event>, more: seq<Event>)
    requires Run(maxlen, past).publishers == map[]
    ensures Newer(Run(maxlen, past + more), Run(maxlen, past).announced, Run(maxlen, past).counter)
  {
    if more == [] {
      assert past + more == past;
    } else {
      var before, e := past + more[..|more| - 1], more[|more| - 1];
      LaterNumbersAreHigher(maxlen, past, more[..|more| - 1]);
      assert past + more == before + [e];
      RunSnoc(maxlen, before, e);
      NewerStep(maxlen, Run(maxlen, before), Run(maxlen, past).announced, Run(maxlen, past).counter, e);
    }
  }

  predicate Unfailing(events: seq<Event>) {
    forall e :: e in events ==> !e.Fail?
  }

  lemma RoomForOne(s: seq<Entry>, e: Entry, maxlen: nat)
    requires |s| < maxlen
    ensures Newest(s + [e], maxlen) == s + [e]
  {
  }

  /** The number belongs to no publisher, and is not announced. */
  ghost predicate Unclaimed(c: Channel, n: nat) {
    && n <= c.counter
    && (forall t :: t in c.publishers ==> c.publishers[t].entry.sequence != n)
    && (forall e :: e in c.announced ==> e.sequence != n)
  }

  lemma UnclaimedStep(maxlen: nat, c: Channel, e: Event, n: nat)
    requires Unclaimed(c, n)
    ensures Unclaimed(Step(maxlen, c, e), n)
    ensures n !in Numbers(c.appended) ==> n !in Numbers(Step(maxlen, c, e).appended)
  {
    if e.Append? && e.task in c.publishers && c.publishers[e.task].Allocated? {
      NumbersConcat(c.appended, c.publishers[e.task].entry);
    }
  }

  /** A publish that failed stays failed: its number is never announced, nor appended if it
      was not yet, whatever the other publishers do. */
  lemma {:induction false} FailedIsNeverAnnounced(maxlen: nat, events: seq<Event>, t: nat, more: seq<Event>)
    requires t in Run(maxlen, events).publishers
    ensures var c0, c := Run(maxlen, events), Run(maxlen, events + [Fail(t)] + more);
      var p := c0.publishers[t];
      && Unclaimed(c, p.entry.sequence)
      && (p.Allocated? ==> p.entry.sequence !in Numbers(c.appended))
  {
    var failed := events + [Fail(t)];
    if more == [] {
      assert failed + more == failed;
      RunSnoc(maxlen, events, Fail(t));
      AnyInterleaving(maxlen, events);
      FailUnclaims(maxlen, Run(maxlen, events), t);
    } else {
      var front, e := more[..|more| - 1], more[|more| - 1];
      FailedIsNeverAnnounced(maxlen, events, t, front);
      assert failed + more == failed + front + [e];
      RunSnoc(maxlen, failed + front, e);
      UnclaimedStep(maxlen, Run(maxlen, failed + front), e, Run(maxlen, events).publishers[t].entry.sequence);
    }
  }

  lemma FailUnclaims(maxlen: nat, c: Channel, t: nat)
    requires Inv(maxlen, c) && t in c.publishers
    ensures Unclaimed(Step(maxlen, c, Fail(t)), c.publishers[t].entry.sequence)
    ensures c.publishers[t].Allocated? ==>
      c.publishers[t].entry.sequence !in Numbers(Step(maxlen, c, Fail(t)).appended)
  {
    var n := c.publishers[t].entry.sequence;
    if c.publishers[t].Allocated? {
      assert n in Unwritten(c.publishers);
      forall e | e in c.announced ensures e.sequence != n {
        assert e in c.appended;
        assert e.sequence in Numbers(c.appended);
      }
    } else {
      forall e | e in c.announced ensures e.sequence != n {
        assert e.sequence in Numbers(c.announced);
      }
    }
  }

  // ---------------------------------------------------------------- announcement order

  ghost predicate Increasing(s: seq<Entry>) {
    forall i, j :: 0 <= i < j < |s| ==> s[i].sequence < s[j].sequence
  }

  /** The command announces a number after a higher one. */
  ghost predicate Late(c: Channel, e: Event) {
    && e.Announce? && e.task in c.publishers && c.publishers[e.task].Buffered?
    && exists a :: a in c.announced && a.sequence > c.publishers[e.task].entry.sequence
  }

  ghost predicate NeverLate(maxlen: nat, events: seq<Event>) {
    events == [] ||
    (NeverLate(maxlen, events[..|events| - 1]) &&
     !Late(Run(maxlen, events[..|events| - 1]), events[|events| - 1]))
  }

  lemma IncreasingSnoc(s: seq<Entry>, e: Entry)
    ensures Increasing(s + [e]) <==> Increasing(s) && forall a :: a in s ==> a.sequence < e.sequence
  {
    if Increasing(s + [e]) {
      assert forall i :: 0 <= i < |s| ==> (s + [e])[i] == s[i];
      assert (s + [e])[|s|] == e;
    }
  }

  lemma AnnounceOrder(maxlen: nat, c: Channel, e: Event)
    requires AnnouncedOnce(c)
    ensures Increasing(Step(maxlen, c, e).announced) <==> Increasing(c.announced) && !Late(c, e)
  {
    if e.Announce? && e.task in c.publishers && c.publishers[e.task].Buffered? {
      var entry := c.publishers[e.task].entry;
      IncreasingSnoc(c.announced, entry);
      forall a | a in c.announced ensures a.sequence != entry.sequence {
        assert a.sequence in Numbers(c.announced);
      }
    }
  }

  /** The announcement log is in sequence order exactly when no command of the run
      announced a number after a higher one. */
  lemma {:induction false} SequenceOrderExactly(maxlen: nat, events: seq<Event>)
    ensures Increasing(Run(maxlen, events).announced) <==> NeverLate(maxlen, events)
  {
    if events != [] {
      var front := events[..|events| - 1];
      SequenceOrderExactly(maxlen, front);
      AnyInterleaving(maxlen, front);
      AnnounceOrder(maxlen, Run(maxlen, front), events[|events| - 1]);
    }
  }

  /** Two publishers that have taken numbers 1 and 2. */
  lemma TwoAllocated(maxlen: nat) returns (events: seq<Event>, one: Entry, two: Entry)
    ensures one == Entry("a", 1, "") && two == Entry("b", 2, "")
    ensures Run(maxlen, events) == Channel(2, [], map[1 := Allocated(one), 2 := Allocated(two)], [], [], {})
  {
    one, two := Entry("a", 1, ""), Entry("b", 2, "");
    var first := [] + [Allocate(1, "a", "")];
    RunSnoc(maxlen, [], Allocate(1, "a", ""));
    RunSnoc(maxlen, first, Allocate(2, "b", ""));
    events := first + [Allocate(2, "b", "")];
  }

  /** Both append, in order, */
  lemma AppendBoth(maxlen: nat, c: Channel, one: Entry, two: Entry)
    requires c.publishers == map[1 := Allocated(one), 2 := Allocated(two)] && c.stream == []
    ensures var c' := Step(maxlen, Step(maxlen, c, Append(1)), Append(2));
      && c'.publishers == map[1 := Buffered(one), 2 := Buffered(two)] && c'.announced == c.announced
      && (maxlen >= 2 ==> c'.stream == [one, two])
  {
    var c1 := Step(maxlen, c, Append(1));
    assert c1.publishers == map[1 := Buffered(one), 2 := Allocated(two)];
    if maxlen >= 2 {
      RoomForOne([], one, maxlen);
      RoomForOne([one], two, maxlen);
    }
  }

  /** and announce out of order. */
  lemma AnnounceSwapped(maxlen: nat, c: Channel, one: Entry, two: Entry)
    requires c.publishers == map[1 := Buffered(one), 2 := Buffered(two)] && c.announced == []
    ensures var c' := Step(maxlen, Step(maxlen, c, Announce(2)), Announce(1));
      c'.announced == [two, one] && c'.stream == c.stream
  {
    var c1 := Step(maxlen, c, Announce(2));
    assert c1.publishers == map[1 := Buffered(one)] && c1.announced == [two];
  }

  /** Two publishers, of which the one with the higher number announces first. */
  lemma AnnouncedOutOfOrder(maxlen: nat) returns (events: seq<Event>)
    ensures Run(maxlen, events).announced == [Entry("b", 2, ""), Entry("a", 1, "")]
    ensures maxlen >= 2 ==> Run(maxlen, events).stream == [Entry("a", 1, ""), Entry("b", 2, "")]
    ensures !NeverLate(maxlen, events)
  {
    var start, one, two := TwoAllocated(maxlen);
    var appended := start + [Append(1)] + [Append(2)];
    RunSnoc(maxlen, start, Append(1));
    RunSnoc(maxlen, start + [Append(1)], Append(2));
    AppendBoth(maxlen, Run(maxlen, start), one, two);
    events := appended + [Announce(2)] + [Announce(1)];
    RunSnoc(maxlen, appended, Announce(2));
    RunSnoc(maxlen, appended + [Announce(2)], Announce(1));
    AnnounceSwapped(maxlen, Run(maxlen, appended), one, two);
    SequenceOrderExactly(maxlen, events);
  }

  // ---------------------------------------------------------------- one publish at a time

  /** No publish starts while another is under way. */
  predicate OneAtATime(c: Channel, e: Event) {
    e.Allocate? ==> c.publishers == map[]
  }

  ghost predicate Serialised(maxlen: nat, events: seq<Event>) {
    events == [] ||
    (Serialised(maxlen, events[..|events| - 1]) &&
     OneAtATime(Run(maxlen, events[..|events| - 1]), events[|events| - 1]))
  }

  ghost predicate Numbered(s: seq<Entry>) {
    forall i :: 0 <= i < |s| ==> s[i].sequence == i + 1
  }

  ghost predicate Bounded(s: seq<Entry>, n: int) {
    forall e :: e in s ==> e.sequence <= n
  }

  lemma {:induction false} SerialisedPrefix(maxlen: nat, first: seq<Event>, rest: seq<Event>)
    requires Serialised(maxlen, first + rest)
    ensures Serialised(maxlen, first)
  {
    if rest == [] {
      assert first + rest == first;
    } else {
      assert (first + rest)[..|first + rest| - 1] == first + rest[..|rest| - 1];
      SerialisedPrefix(maxlen, first, rest[..|rest| - 1]);
    }
  }

  /** The only publisher has the highest number; both logs are in number order. */
  ghost predicate Orderly(c: Channel) {
    && (forall t, u :: t in c.publishers && u in c.publishers ==> t == u)
    && Increasing(c.appended) && Bounded(c.appended, c.counter)
    && Increasing(c.announced) && Bounded(c.announced, c.counter)
    && (forall t :: t in c.publishers ==> Leads(c, c.publishers[t]))
  }

  ghost predicate Leads(c: Channel, p: Publisher) {
    && p.entry.sequence == c.counter
    && Bounded(c.announced, c.counter - 1)
    && (p.Allocated? ==> Bounded(c.appended, c.counter - 1))
  }

  lemma OrderlyStep(maxlen: nat, c: Channel, e: Event)
    requires Orderly(c) && OneAtATime(c, e)
    ensures Orderly(Step(maxlen, c, e))
  {
    if !e.Allocate? && !e.AgeTrim? && e.task in c.publishers {
      var p := c.publishers[e.task];
      assert Leads(c, p);
      if e.Append? && p.Allocated? {
        IncreasingSnoc(c.appended, p.entry);
      }
      if e.Announce? && p.Buffered? {
        IncreasingSnoc(c.announced, p.entry);
      }
    }
  }

  /** As long as no number is abandoned, number i+1 is at index i. */
  ghost predicate Dense(c: Channel) {
    c.abandoned == {} ==>
      && Numbered(c.appended)
      && (if AnyAllocated(c) then c.counter == |c.appended| + 1 else c.counter == |c.appended|)
  }

  ghost predicate AnyAllocated(c: Channel) {
    exists t :: t in c.publishers && c.publishers[t].Allocated?
  }

  lemma DenseStep(maxlen: nat, c: Channel, e: Event)
    requires Orderly(c) && Dense(c) && OneAtATime(c, e)
    ensures Dense(Step(maxlen, c, e))
  {
    var c' := Step(maxlen, c, e);
    match e {
      case Allocate(t, _, _) =>
        if t !in c.publishers {
          assert c'.publishers[t].Allocated?;
        }
      case Append(t) =>
        if t in c.publishers && c.publishers[t].Allocated? {
          assert Leads(c, c.publishers[t]);
          assert !AnyAllocated(c');
        }
      case AgeTrim(_) =>
      case Announce(t) =>
        if t in c.publishers && c.publishers[t].Buffered? {
          assert !AnyAllocated(c) && !AnyAllocated(c');
        }
      case Fail(t) =>
        if t in c.publishers {
          assert !AnyAllocated(c');
          if c.publishers[t].Allocated? {
            assert c.publishers[t].entry.sequence in c'.abandoned;
          } else {
            assert !AnyAllocated(c);
          }
        }
    }
  }

  lemma {:induction false} SerialisedOrderly(maxlen: nat, events: seq<Event>)
    requires Serialised(maxlen, events)
    ensures Orderly(Run(maxlen, events)) && Dense(Run(maxlen, events))
  {
    if events != [] {
      var before := events[..|events| - 1];
      SerialisedOrderly(maxlen, before);
      OrderlyStep(maxlen, Run(maxlen, before), events[|events| - 1]);
      DenseStep(maxlen, Run(maxlen, before), events[|events| - 1]);
    }
  }

  lemma SerialisedSnoc(maxlen: nat, events: seq<Event>, e: Event)
    requires Serialised(maxlen, events) && OneAtATime(Run(maxlen, events), e)
    ensures Serialised(maxlen, events + [e])
    ensures Run(maxlen, events + [e]) == Step(maxlen, Run(maxlen, events), e)
  {
    assert (events + [e])[..|events|] == events;
  }

  /** What INCR and XADD do when nobody is in between. */
  lemma AppendAlone(maxlen: nat, events: seq<Event>, id: string) returns (after: seq<Event>)
    requires Serialised(maxlen, events) && Run(maxlen, events).publishers == map[]
    ensures after == events + [Allocate(0, id, "")] + [Append(0)] && Serialised(maxlen, after)
    ensures var c := Run(maxlen, events);
      var e := Entry(id, c.counter + 1, "");
      Run(maxlen, after) == Channel(c.counter + 1, Newest(c.stream + [e], maxlen), map[0 := Buffered(e)],
                                    c.appended + [e], c.announced, c.abandoned)
  {
    SerialisedSnoc(maxlen, events, Allocate(0, id, ""));
    SerialisedSnoc(maxlen, events + [Allocate(0, id, "")], Append(0));
    after := events + [Allocate(0, id, "")] + [Append(0)];
  }

  /** What a whole publish does when nobody is in between. */
  lemma PublishAlone(maxlen: nat, events: seq<Event>, id: string) returns (after: seq<Event>)
    requires Serialised(maxlen, events) && Run(maxlen, events).publishers == map[]
    ensures after == events + [Allocate(0, id, "")] + [Append(0)] + [Announce(0)] && Serialised(maxlen, after)
    ensures var c := Run(maxlen, events);
      var e := Entry(id, c.counter + 1, "");
      Run(maxlen, after) == Channel(c.counter + 1, Newest(c.stream + [e], maxlen), map[],
                                    c.appended + [e], c.announced + [e], c.abandoned)
  {
    var appended := AppendAlone(maxlen, events, id);
    SerialisedSnoc(maxlen, appended, Announce(0));
    after := appended + [Announce(0)];
  }

  /** Serialised publishes, failed or not, are announced in sequence order. */
  lemma SerialisedNeverLate(maxlen: nat, events: seq<Event>)
    requires Serialised(maxlen, events)
    ensures NeverLate(maxlen, events)
  {
    SerialisedOrderly(maxlen, events);
    SequenceOrderExactly(maxlen, events);
  }

  lemma SuffixIncreasing(s: seq<Entry>, whole: seq<Entry>)
    requires IsSuffix(s, whole) && Increasing(whole)
    ensures Increasing(s)
  {
  }

  /** The number is in the buffer, or its publish failed before XADD or has yet to
      reach it. */
  ghost predicate AccountedFor(c: Channel, n: nat) {
    n in Numbers(c.stream) <==> n !in c.abandoned && n !in Unwritten(c.publishers)
  }

  lemma BufferAccounts(c: Channel, n: nat)
    requires Partitioned(c) && Increasing(c.appended) && IsSuffix(c.stream, c.appended)
    requires c.stream != [] && c.stream[0].sequence <= n <= c.counter
    ensures AccountedFor(c, n)
  {
  }

  /** With serialised publishes the buffer is in number order and, from its first entry
      on, lacks only the numbers of publishes that failed before XADD or have yet to reach
      it; with a positive length bound it is empty only before the first append. */
  lemma BufferIsContiguous(maxlen: nat, events: seq<Event>)
    requires Serialised(maxlen, events)
    ensures var c := Run(maxlen, events);
      && Increasing(c.stream)
      && (forall n :: c.stream != [] && c.stream[0].sequence <= n <= c.counter ==> AccountedFor(c, n))
      && (maxlen >= 1 && c.stream == [] ==> c.appended == [])
  {
    SerialisedOrderly(maxlen, events);
    AnyInterleaving(maxlen, events);
    var c := Run(maxlen, events);
    SuffixIncreasing(c.stream, c.appended);
    forall n | c.stream != [] && c.stream[0].sequence <= n <= c.counter ensures AccountedFor(c, n) {
      BufferAccounts(c, n);
    }
  }

  // ---------------------------------------------------------------- no failures either

  /** Number i+1 is at index i; what is announced is what is appended, less the last
      entry while its publisher has yet to announce it. */
  ghost predicate InOrder(c: Channel) {
    && Numbered(c.appended)
    && (c.publishers == map[] ==> c.counter == |c.appended| && c.announced == c.appended)
    && (c.publishers != map[] ==> exists t :: Sole(c, t))
  }

  ghost predicate Sole(c: Channel, t: nat) {
    && c.publishers.Keys == {t}
    && match c.publishers[t]
       case Allocated(e) =>
         c.counter == |c.appended| + 1 == e.sequence && c.announced == c.appended
       case Buffered(e) =>
         c.counter == |c.appended| && c.appended == c.announced + [e]
  }

  lemma InOrderStep(maxlen: nat, c: Channel, e: Event)
    requires InOrder(c) && OneAtATime(c, e) && !e.Fail?
    ensures InOrder(Step(maxlen, c, e))
  {
    var c' := Step(maxlen, c, e);
    if c.publishers == map[] {
      if e.Allocate? {
        assert Sole(c', e.task);
      }
    } else {
      var t :| Sole(c, t);
      if e.Announce? && e.task == t && c.publishers[t].Buffered? {
        assert c'.publishers == map[];
      } else {
        assert Sole(c', t);
      }
    }
  }

  lemma {:induction false} SerialisedInOrder(maxlen: nat, events: seq<Event>)
    requires Serialised(maxlen, events) && Unfailing(events)
    ensures InOrder(Run(maxlen, events)) && Run(maxlen, events).announced <= Run(maxlen, events).appended
  {
    if events != [] {
      var before := events[..|events| - 1];
      SerialisedInOrder(maxlen, before);
      InOrderStep(maxlen, Run(maxlen, before), events[|events| - 1]);
    }
  }
}
