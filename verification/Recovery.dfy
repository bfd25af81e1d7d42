/** Replay from the recovery stream, and when its gap flag tells the truth. */
module Recovery {
  import opened Prelude
  import opened ChannelLog

  datatype ReplayResult = ReplayResult(messages: seq<Entry>, gap: bool)

  // ---------------------------------------------------------------- the operation

  /** Stable insertion by sequence number. */
  function Insert(sorted: seq<Entry>, e: Entry): seq<Entry> {
    if sorted == [] || sorted[|sorted| - 1].sequence <= e.sequence then sorted + [e]
    else Insert(sorted[..|sorted| - 1], e) + [sorted[|sorted| - 1]]
  }

  function SortBySequence(s: seq<Entry>): seq<Entry> {
    if s == [] then [] else Insert(SortBySequence(s[..|s| - 1]), s[|s| - 1])
  }

  function Above(s: seq<Entry>, ack: int): seq<Entry> {
    if s == [] then []
    else
      var rest := Above(s[..|s| - 1], ack);
      if s[|s| - 1].sequence > ack then rest + [s[|s| - 1]] else rest
  }

  function Replay(stream: seq<Entry>, ack: int): ReplayResult {
    if stream == [] then ReplayResult([], false)
    else
      var parsed := SortBySequence(stream);
      SortPermutes(stream);
      ReplayResult(Above(parsed, ack), ack + 1 < parsed[0].sequence && ack != 0)
  }

  /** The list comprehension that ends `replay_channel`. */
  method KeepAbove(parsed: seq<Entry>, lastAck: int) returns (messages: seq<Entry>)
    ensures messages == Above(parsed, lastAck)
  {
    messages := [];
    for i := 0 to |parsed|
      invariant messages == Above(parsed[..i], lastAck)
    {
      assert parsed[..i + 1][..i] == parsed[..i];
      if parsed[i].sequence > lastAck {
        messages := messages + [parsed[i]];
      }
    }
    assert parsed[..|parsed|] == parsed;
  }

  method ReplayChannel(stream: seq<Entry>, lastAck: int) returns (messages: seq<Entry>, gap: bool)
    ensures ReplayResult(messages, gap) == Replay(stream, lastAck)
    ensures lastAck == 0 ==> !gap
    ensures forall e :: e in messages <==> e in stream && e.sequence > lastAck
  {
    if stream == [] {
      return [], false;
    }
    SortPermutes(stream);
    var parsed := SortBySequence(stream);
    var oldestAvailable := parsed[0].sequence;
    gap := lastAck + 1 < oldestAvailable && lastAck != 0;
    messages := KeepAbove(parsed, lastAck);
    AboveMembers(parsed, lastAck);
    SameMembers(parsed, stream);
  }

  // ---------------------------------------------------------------- sorting

  ghost predicate Sorted(s: seq<Entry>) {
    forall i, j :: 0 <= i < j < |s| ==> s[i].sequence <= s[j].sequence
  }

  lemma {:induction false} InsertPermutes(s: seq<Entry>, e: Entry)
    ensures multiset(Insert(s, e)) == multiset(s) + multiset{e}
    ensures |Insert(s, e)| == |s| + 1
  {
    if s != [] && s[|s| - 1].sequence > e.sequence {
      InsertPermutes(s[..|s| - 1], e);
      assert s == s[..|s| - 1] + [s[|s| - 1]];
    }
  }

  lemma InsertMembers(s: seq<Entry>, e: Entry)
    ensures forall x :: x in Insert(s, e) <==> x in s || x == e
  {
    InsertPermutes(s, e);
    forall x ensures x in Insert(s, e) <==> x in s || x == e {
      assert x in Insert(s, e) <==> x in multiset(Insert(s, e));
    }
  }

  lemma {:induction false} SortPermutes(s: seq<Entry>)
    ensures multiset(SortBySequence(s)) == multiset(s)
    ensures |SortBySequence(s)| == |s|
  {
    if s != [] {
      SortPermutes(s[..|s| - 1]);
      InsertPermutes(SortBySequence(s[..|s| - 1]), s[|s| - 1]);
      assert s == s[..|s| - 1] + [s[|s| - 1]];
    }
  }

  lemma {:induction false} InsertSorts(s: seq<Entry>, e: Entry)
    requires Sorted(s)
    ensures Sorted(Insert(s, e))
  {
    if s != [] && s[|s| - 1].sequence > e.sequence {
      var front, last := s[..|s| - 1], s[|s| - 1];
      InsertSorts(front, e);
      InsertMembers(front, e);
      assert forall x :: x in Insert(front, e) ==> x.sequence <= last.sequence;
    }
  }

  lemma {:induction false} SortSorts(s: seq<Entry>)
    ensures Sorted(SortBySequence(s))
  {
    if s != [] {
      SortSorts(s[..|s| - 1]);
      InsertSorts(SortBySequence(s[..|s| - 1]), s[|s| - 1]);
    }
  }

  lemma SameMembers(a: seq<Entry>, b: seq<Entry>)
    requires multiset(a) == multiset(b)
    ensures forall e :: e in a <==> e in b
  {
    forall e ensures e in a <==> e in b {
      assert e in a <==> e in multiset(a);
      assert e in b <==> e in multiset(b);
    }
  }

  lemma {:induction false} AboveMembers(s: seq<Entry>, ack: int)
    ensures forall e :: e in Above(s, ack) <==> e in s && e.sequence > ack
  {
    if s != [] {
      AboveMembers(s[..|s| - 1], ack);
      assert s == s[..|s| - 1] + [s[|s| - 1]];
    }
  }

  lemma {:induction false} AboveIncreasing(s: seq<Entry>, ack: int)
    requires Increasing(s)
    ensures Increasing(Above(s, ack))
  {
    if s != [] {
      AboveIncreasing(s[..|s| - 1], ack);
      AboveMembers(s[..|s| - 1], ack);
    }
  }

  /** Distinct entries have no repeats, so their sorted form is strictly increasing. */
  lemma {:induction false} SortIncreasing(s: seq<Entry>)
    requires Distinct(s)
    ensures Increasing(SortBySequence(s))
  {
    SortSorts(s);
    SortDistinct(s);
  }

  lemma {:induction false} InsertDistinct(s: seq<Entry>, e: Entry)
    requires Distinct(s) && e.sequence !in Numbers(s)
    ensures Distinct(Insert(s, e))
  {
    if s == [] || s[|s| - 1].sequence <= e.sequence {
      forall i | 0 <= i < |s| ensures s[i].sequence != e.sequence {
        assert s[i] in s;
      }
    } else {
      var front, last := s[..|s| - 1], s[|s| - 1];
      assert e.sequence !in Numbers(front) by {
        forall x | x in front ensures x in s {
        }
      }
      InsertDistinct(front, e);
      InsertMembers(front, e);
      assert forall x :: x in Insert(front, e) ==> x.sequence != last.sequence;
    }
  }

  lemma {:induction false} SortDistinct(s: seq<Entry>)
    requires Distinct(s)
    ensures Distinct(SortBySequence(s))
  {
    if s != [] {
      var front, last := s[..|s| - 1], s[|s| - 1];
      SortDistinct(front);
      SortPermutes(front);
      SameMembers(SortBySequence(front), front);
      InsertDistinct(SortBySequence(front), last);
    }
  }

  /** What replay returns for a stream without repeated numbers. */
  lemma ReplayOfDistinct(stream: seq<Entry>, ack: int)
    requires Distinct(stream)
    ensures var r := Replay(stream, ack);
      && Increasing(r.messages)
      && (forall e :: e in r.messages <==> e in stream && e.sequence > ack)
      && (r.gap <==> ack != 0 && stream != [] && forall e :: e in stream ==> ack + 1 < e.sequence)
  {
    if stream != [] {
      var parsed := SortBySequence(stream);
      SortPermutes(stream);
      SortSorts(stream);
      SameMembers(parsed, stream);
      SortIncreasing(stream);
      AboveIncreasing(parsed, ack);
      AboveMembers(parsed, ack);
      assert parsed[0] in stream;
      forall e | e in stream ensures parsed[0].sequence <= e.sequence {
        var i :| 0 <= i < |parsed| && parsed[i] == e;
      }
    }
  }

  lemma SuffixDistinct(s: seq<Entry>, whole: seq<Entry>)
    requires IsSuffix(s, whole) && Distinct(whole)
    ensures Distinct(s)
  {
    forall i, j | 0 <= i < j < |s| ensures s[i].sequence != s[j].sequence {
      assert s[i] == whole[|whole| - |s| + i] && s[j] == whole[|whole| - |s| + j];
    }
  }

  // ---------------------------------------------------------------- over runs

  ghost function Evicted(c: Channel): seq<Entry>
    requires |c.stream| <= |c.appended|
  {
    c.appended[..|c.appended| - |c.stream|]
  }

  /** After any interleaving of publishers and for any position: replay is strictly
      increasing and is exactly the retained entries above the position. */
  lemma ReplayIsRetainedAbove(maxlen: nat, events: seq<Event>, ack: int)
    ensures var c := Run(maxlen, events);
      var r := Replay(c.stream, ack);
      && Increasing(r.messages)
      && (forall e :: e in r.messages <==> e in c.stream && e.sequence > ack)
  {
    AnyInterleaving(maxlen, events);
    var c := Run(maxlen, events);
    SuffixDistinct(c.stream, c.appended);
    ReplayOfDistinct(c.stream, ack);
  }

  lemma InsertLast(s: seq<Entry>, e: Entry)
    requires s == [] || s[|s| - 1].sequence <= e.sequence
    ensures Insert(s, e) == s + [e]
  {
  }

  lemma {:induction false} SortOfIncreasing(s: seq<Entry>)
    requires Increasing(s)
    ensures SortBySequence(s) == s
  {
    if s != [] {
      var front, last := s[..|s| - 1], s[|s| - 1];
      SortOfIncreasing(front);
      InsertLast(front, last);
      assert s == front + [last];
    }
  }

  lemma ReplayOfIncreasing(stream: seq<Entry>, ack: int)
    requires Increasing(stream)
    ensures Replay(stream, ack).messages == Above(stream, ack)
  {
    SortOfIncreasing(stream);
  }

  lemma {:induction false} AboveConcat(a: seq<Entry>, b: seq<Entry>, ack: int)
    ensures Above(a + b, ack) == Above(a, ack) + Above(b, ack)
  {
    if b == [] {
      assert a + b == a;
    } else {
      AboveConcat(a, b[..|b| - 1], ack);
      assert (a + b)[..|a + b| - 1] == a + b[..|b| - 1];
    }
  }

  lemma {:induction false} NoneAbove(s: seq<Entry>, ack: int)
    requires forall e :: e in s ==> e.sequence <= ack
    ensures Above(s, ack) == []
  {
    if s != [] {
      NoneAbove(s[..|s| - 1], ack);
    }
  }

  lemma TailSnoc(s: seq<Entry>, k: nat)
    requires k < |s|
    ensures s[..|s| - 1][k..] + [s[|s| - 1]] == s[k..]
  {
  }

  lemma {:induction false} AboveOfNumbered(s: seq<Entry>, ack: nat)
    requires Numbered(s)
    ensures Above(s, ack) == s[Min(ack, |s|)..]
  {
    if |s| <= ack {
      NoneAbove(s, ack);
    } else {
      AboveOfNumbered(s[..|s| - 1], ack);
      TailSnoc(s, ack);
    }
  }

  /** Replay of a stream that starts at number 1. */
  lemma ReplayOfNumbered(stream: seq<Entry>, ack: nat)
    requires Numbered(stream)
    ensures Replay(stream, ack) == ReplayResult(stream[Min(ack, |stream|)..], false)
  {
    SortOfIncreasing(stream);
    AboveOfNumbered(stream, ack);
  }

  /** A number below everything retained. */
  ghost predicate BelowRetained(c: Channel, n: int) {
    c.stream != [] && forall r :: r in c.stream ==> n < r.sequence
  }

  /** A number below everything retained whose entry was evicted. */
  ghost predicate WasEvicted(c: Channel, n: int)
    requires |c.stream| <= |c.appended|
  {
    BelowRetained(c, n) && exists e :: e in Evicted(c) && e.sequence == n
  }

  /** A number below everything retained that was never written, or not yet. */
  ghost predicate NotWritten(c: Channel, n: int) {
    BelowRetained(c, n) && n >= 0 && (n in c.abandoned || n in Unwritten(c.publishers))
  }

  /** What the gap flag says, for any interleaving and failure of publishers: a position
      of at least one is told of a gap exactly when a number above it and below
      everything retained was evicted, abandoned by its publisher or not yet written. */
  lemma GapExactly(maxlen: nat, events: seq<Event>, ack: int)
    requires ack >= 1
    ensures var c := Run(maxlen, events);
      && |c.stream| <= |c.appended|
      && (Replay(c.stream, ack).gap <==> exists n: int :: n > ack && (WasEvicted(c, n) || NotWritten(c, n)))
  {
    AnyInterleaving(maxlen, events);
    GapOfState(Run(maxlen, events), ack);
  }

  lemma GapOfState(c: Channel, ack: int)
    requires Partitioned(c) && IsSuffix(c.stream, c.appended) && ack >= 1
    ensures Replay(c.stream, ack).gap <==> exists n: int :: n > ack && (WasEvicted(c, n) || NotWritten(c, n))
  {
    SuffixDistinct(c.stream, c.appended);
    ReplayOfDistinct(c.stream, ack);
    if Replay(c.stream, ack).gap {
      NextNumberIsMissing(c, ack);
    }
  }

  lemma NextNumberIsMissing(c: Channel, ack: int)
    requires Partitioned(c) && IsSuffix(c.stream, c.appended)
    requires ack >= 1 && BelowRetained(c, ack + 1)
    ensures WasEvicted(c, ack + 1) || NotWritten(c, ack + 1)
  {
    var n: nat := ack + 1;
    assert c.appended == Evicted(c) + c.stream;
    assert c.stream[0].sequence in Numbers(c.appended) by {
      assert c.stream[0] in c.appended;
    }
    if n in Numbers(c.appended) {
      var e :| e in c.appended && e.sequence == n;
      assert e in Evicted(c);
    }
  }

  /** A number below everything retained that its publisher abandoned. */
  ghost predicate WasAbandoned(c: Channel, n: int) {
    BelowRetained(c, n) && n >= 0 && n in c.abandoned
  }

  ghost predicate Honest(c: Channel, ack: int)
    requires |c.stream| <= |c.appended|
  {
    var r := Replay(c.stream, ack);
    && (r.gap <==> exists n: int :: n > ack && (WasEvicted(c, n) || WasAbandoned(c, n)))
    && ((exists e :: e in Evicted(c) && e.sequence > ack) ==> r.gap)
    && (!r.gap ==> r.messages == Above(c.appended, ack) && Increasing(c.appended))
  }

  /** Gap honesty: in every run of serialised publishes, failed or not and with any
      eviction, a position of at least one is told of a gap exactly when a number above it
      and below everything retained was evicted or abandoned; so always when an entry
      above it was evicted.  If not told, it gets every entry ever appended above it, in
      order. */
  lemma GapHonesty(maxlen: nat, events: seq<Event>, ack: int)
    requires Serialised(maxlen, events) && maxlen >= 1 && ack >= 1
    ensures |Run(maxlen, events).stream| <= |Run(maxlen, events).appended| && Honest(Run(maxlen, events), ack)
  {
    SerialisedOrderly(maxlen, events);
    AnyInterleaving(maxlen, events);
    HonestWhenOrderly(Run(maxlen, events), ack);
  }

  lemma HonestWhenOrderly(c: Channel, ack: int)
    requires Partitioned(c) && Orderly(c) && IsSuffix(c.stream, c.appended) && (c.appended != [] ==> c.stream != [])
    requires ack >= 1
    ensures Honest(c, ack)
  {
    GapOfState(c, ack);
    forall n: int ensures NotWritten(c, n) <==> WasAbandoned(c, n) {
      if NotWritten(c, n) {
        NothingUnwrittenBelow(c, n);
      }
    }
    forall e | e in Evicted(c) && e.sequence > ack ensures WasEvicted(c, e.sequence) {
      EvictedIsBelow(c, e);
    }
    if !Replay(c.stream, ack).gap {
      WholeReplay(c, ack);
    }
  }

  lemma NothingUnwrittenBelow(c: Channel, n: int)
    requires Orderly(c) && IsSuffix(c.stream, c.appended) && NotWritten(c, n)
    ensures n in c.abandoned
  {
    assert c.stream[0] in c.appended;
    assert forall t :: t in c.publishers ==> Leads(c, c.publishers[t]);
  }

  lemma EvictedIsBelow(c: Channel, e: Entry)
    requires Increasing(c.appended) && IsSuffix(c.stream, c.appended)
    requires c.appended != [] ==> c.stream != []
    requires e in Evicted(c)
    ensures BelowRetained(c, e.sequence)
  {
    var i :| 0 <= i < |Evicted(c)| && Evicted(c)[i] == e;
    forall r | r in c.stream ensures e.sequence < r.sequence {
      var j :| 0 <= j < |c.stream| && c.stream[j] == r;
      assert c.appended[i] == e && c.appended[|c.appended| - |c.stream| + j] == r;
    }
  }

  /** If nothing above the position was evicted, the replay is all there was. */
  lemma WholeReplay(c: Channel, ack: int)
    requires Increasing(c.appended) && IsSuffix(c.stream, c.appended)
    requires forall e :: e in Evicted(c) ==> e.sequence <= ack
    ensures Replay(c.stream, ack).messages == Above(c.appended, ack)
  {
    assert c.appended == Evicted(c) + c.stream;
    AboveSuffix(Evicted(c), c.stream, ack);
    SuffixIncreasing(c.stream, c.appended);
    ReplayOfIncreasing(c.stream, ack);
  }

  lemma AboveSuffix(a: seq<Entry>, b: seq<Entry>, ack: int)
    requires forall e :: e in a ==> e.sequence <= ack
    ensures Above(a + b, ack) == Above(b, ack)
  {
    AboveConcat(a, b, ack);
    NoneAbove(a, ack);
  }

  /** While no number has been abandoned, a gap is reported exactly when an entry above the
      position was evicted, and otherwise the replay is the tail of the append log. */
  lemma GapHonestyUnfailed(maxlen: nat, events: seq<Event>, ack: int)
    requires Serialised(maxlen, events) && maxlen >= 1 && ack >= 1 && Run(maxlen, events).abandoned == {}
    ensures var c := Run(maxlen, events);
      var r := Replay(c.stream, ack);
      && |c.stream| <= |c.appended|
      && (r.gap <==> exists e :: e in Evicted(c) && e.sequence > ack)
      && (!r.gap ==> r.messages == c.appended[Min(ack, |c.appended|)..])
  {
    GapHonesty(maxlen, events, ack);
    SerialisedOrderly(maxlen, events);
    AboveOfNumbered(Run(maxlen, events).appended, ack);
  }

  /** A gap is reported to the position and everything appended above it is retained. */
  ghost predicate FalseGap(c: Channel, ack: int) {
    Replay(c.stream, ack).gap && forall e :: e in c.appended && e.sequence > ack ==> e in c.stream
  }

  /** A publish that takes number 2 and fails before XADD: with room for one entry, the
      client that has seen number 1 is told of a gap, and nothing above 1 was evicted. */
  lemma FailedPublishLooksLikeAGap()
    ensures exists events :: Serialised(1, events) && FalseGap(Run(1, events), 1)
  {
    var first := PublishAlone(1, [], "a");
    SerialisedSnoc(1, first, Allocate(0, "b", ""));
    SerialisedSnoc(1, first + [Allocate(0, "b", "")], Fail(0));
    var failed := first + [Allocate(0, "b", "")] + [Fail(0)];
    var c := Run(1, failed);
    assert c.publishers == map[];
    var events := PublishAlone(1, failed, "c");
    var last := Entry("c", 3, "");
    assert c.stream == c.appended == [Entry("a", 1, "")];
    assert Run(1, events).stream == [last] && Run(1, events).appended == c.appended + [last];
    ReplayOfDistinct([last], 1);
  }

  /** No position of at least one is left without a gap report while something above
      it is missing from its replay. */
  ghost predicate NoSilentLoss(c: Channel) {
    forall ack: int :: ack >= 1 && !Replay(c.stream, ack).gap ==> Complete(c, ack)
  }

  ghost predicate Complete(c: Channel, ack: int) {
    forall e :: e in c.appended && e.sequence > ack ==> e in Replay(c.stream, ack).messages
  }

  ghost predicate EvictedBelowRetained(c: Channel)
    requires |c.stream| <= |c.appended|
  {
    forall e, r :: e in Evicted(c) && r in c.stream ==> e.sequence < r.sequence
  }

  /** When publishers interleave, the gap flag protects every position from losing what is
      above it exactly when each evicted number is below each retained one. */
  lemma NoSilentLossExactly(maxlen: nat, events: seq<Event>)
    requires maxlen >= 1
    ensures var c := Run(maxlen, events);
      && |c.stream| <= |c.appended|
      && (NoSilentLoss(c) <==> EvictedBelowRetained(c))
  {
    AnyInterleaving(maxlen, events);
    NoSilentLossOfState(Run(maxlen, events));
  }

  lemma NoSilentLossOfState(c: Channel)
    requires Partitioned(c) && IsSuffix(c.stream, c.appended) && (c.appended != [] ==> c.stream != [])
    ensures NoSilentLoss(c) <==> EvictedBelowRetained(c)
  {
    if EvictedBelowRetained(c) {
      forall ack: int | ack >= 1 && !Replay(c.stream, ack).gap ensures Complete(c, ack) {
        CompleteWhenBelow(c, ack);
      }
    } else {
      var e, r :| e in Evicted(c) && r in c.stream && e.sequence >= r.sequence;
      EvictedAboveIsLost(c, e, r);
    }
  }

  lemma CompleteWhenBelow(c: Channel, ack: int)
    requires Partitioned(c) && IsSuffix(c.stream, c.appended) && (c.appended != [] ==> c.stream != [])
    requires EvictedBelowRetained(c) && ack >= 1 && !Replay(c.stream, ack).gap
    ensures Complete(c, ack)
  {
    SuffixDistinct(c.stream, c.appended);
    ReplayOfDistinct(c.stream, ack);
    if c.stream != [] {
      var r :| r in c.stream && r.sequence <= ack + 1;
      forall e | e in c.appended && e.sequence > ack ensures e in Replay(c.stream, ack).messages {
        EvictedOrRetained(c, e);
        assert e in Evicted(c) ==> e.sequence < r.sequence;
      }
    }
  }

  lemma EvictedOrRetained(c: Channel, e: Entry)
    requires IsSuffix(c.stream, c.appended) && e in c.appended
    ensures e in Evicted(c) || e in c.stream
  {
    var i :| 0 <= i < |c.appended| && c.appended[i] == e;
    var k := |c.appended| - |c.stream|;
    if i < k {
      assert Evicted(c)[i] == e;
    } else {
      assert c.stream[i - k] == e;
    }
  }

  /** A position just below an evicted number that exceeds a retained one loses it. */
  lemma EvictedAboveIsLost(c: Channel, e: Entry, r: Entry)
    requires Partitioned(c) && IsSuffix(c.stream, c.appended)
    requires e in Evicted(c) && r in c.stream && e.sequence >= r.sequence
    ensures !NoSilentLoss(c)
  {
    SuffixDistinct(c.stream, c.appended);
    var i :| 0 <= i < |Evicted(c)| && Evicted(c)[i] == e;
    var j :| 0 <= j < |c.stream| && c.stream[j] == r;
    assert c.appended[i] == e && c.appended[|c.appended| - |c.stream| + j] == r;
    assert e.sequence != r.sequence;
    assert r.sequence in Numbers(c.appended);
    var ack := e.sequence - 1;
    ReplayOfDistinct(c.stream, ack);
    forall m | 0 <= m < |c.stream| ensures c.stream[m] != e {
      assert c.stream[m] == c.appended[|c.appended| - |c.stream| + m];
    }
    assert e in c.appended && !Complete(c, ack);
  }

  /** Two publishers append out of number order, and the first entry is evicted, by the length
      bound or by its age: the client that has seen number 1 is told there is no gap and
      never gets number 2. */
  lemma InterleavedPublishersLoseSilently(maxlen: nat) returns (events: seq<Event>)
    requires maxlen >= 1
    ensures !NoSilentLoss(Run(maxlen, events))
  {
    var start, one, two := TwoAllocated(maxlen);
    RunSnoc(maxlen, start, Append(2));
    RunSnoc(maxlen, start + [Append(2)], Append(1));
    RunSnoc(maxlen, start + [Append(2)] + [Append(1)], AgeTrim(1));
    events := start + [Append(2)] + [Append(1)] + [AgeTrim(1)];
    OutOfOrderAppend(maxlen, Run(maxlen, start), one, two);
    EvictedTwo(maxlen, events, one, two);
  }

  lemma OutOfOrderAppend(maxlen: nat, c: Channel, one: Entry, two: Entry)
    requires maxlen >= 1 && c.publishers == map[1 := Allocated(one), 2 := Allocated(two)]
    requires c.stream == c.appended == []
    ensures var c' := Step(maxlen, Step(maxlen, Step(maxlen, c, Append(2)), Append(1)), AgeTrim(1));
      c'.appended == [two, one] && c'.stream == [one]
  {
    var c1 := Step(maxlen, c, Append(2));
    assert c1.stream == c1.appended == [two] && c1.publishers[1] == Allocated(one);
    var c2 := Step(maxlen, c1, Append(1));
    assert c2.stream == if maxlen == 1 then [one] else [two, one];
  }

  lemma EvictedTwo(maxlen: nat, events: seq<Event>, one: Entry, two: Entry)
    requires Run(maxlen, events).appended == [two, one] && Run(maxlen, events).stream == [one]
    requires one.sequence == 1 && two.sequence == 2
    ensures !NoSilentLoss(Run(maxlen, events))
  {
    AnyInterleaving(maxlen, events);
    assert Evicted(Run(maxlen, events)) == [two];
    EvictedAboveIsLost(Run(maxlen, events), two, one);
  }

  /** A position of zero never hears of a gap; a negative one always does, unless the
      stream is empty. */
  lemma UnusualPositions(maxlen: nat, events: seq<Event>, ack: int)
    requires ack <= 0
    ensures Replay(Run(maxlen, events).stream, ack).gap <==> ack < 0 && Run(maxlen, events).stream != []
  {
    AnyInterleaving(maxlen, events);
    var c := Run(maxlen, events);
    SuffixDistinct(c.stream, c.appended);
    ReplayOfDistinct(c.stream, ack);
    forall e | e in c.stream ensures e.sequence >= 1 {
      assert e in c.appended;
      assert e.sequence in Numbers(c.appended);
    }
  }

  /** With a length bound of zero nothing is ever retained and no gap is ever told. */
  lemma {:induction false} ZeroBoundIsBlind(events: seq<Event>, ack: int)
    ensures Replay(Run(0, events).stream, ack) == ReplayResult([], false)
  {
    AnyInterleaving(0, events);
  }
}
