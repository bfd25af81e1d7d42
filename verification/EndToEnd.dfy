/** A resumed connection and the client behind it: what its handlers see. */
module EndToEnd {
  import opened Prelude
  import FC = FlowControl
  import CL = ChannelLog
  import opened Resume
  import C = Client

  function Msgs(channel: string, entries: seq<Entry>): seq<C.Msg> {
    seq(|entries|, i requires 0 <= i < |entries| => C.Msg(entries[i].id, channel, entries[i].sequence))
  }

  /** Publishers give every message its own id. */
  ghost predicate OwnIds(log: seq<Entry>) {
    forall i, j :: 0 <= i < j < |log| ==> log[i].id != log[j].id
  }

  lemma MsgsConcat(channel: string, s: seq<Entry>, t: seq<Entry>)
    ensures Msgs(channel, s + t) == Msgs(channel, s) + Msgs(channel, t)
  {
  }

  lemma MsgsSlice(channel: string, log: seq<Entry>, a: nat, b: nat)
    requires a <= b <= |log|
    ensures Msgs(channel, log[a..b]) == Msgs(channel, log)[a..b]
  {
  }

  lemma MsgsOwnIds(channel: string, log: seq<Entry>)
    requires OwnIds(log)
    ensures C.OwnIds(Msgs(channel, log))
  {
  }

  /** What was received before, the replay, and the announcements of a listener that did not
      attach ahead of the read. */
  lemma FirstsOfResume(channel: string, log: seq<Entry>, before: seq<C.Msg>, a: nat, k: nat, n: nat, read: nat, at: nat, cursor: nat)
    requires OwnIds(log) && a <= n <= k <= |log| && n <= read <= |log| && a <= at <= read && at <= cursor <= |log|
    requires C.Firsts(before) == Msgs(channel, log[a..k])
    ensures C.Firsts(before + Msgs(channel, log[n..read] + log[at..cursor])) ==
      Msgs(channel, log[a..Max(k, Max(read, cursor))])
  {
    MsgsOwnIds(channel, log);
    MsgsSlice(channel, log, a, k);
    MsgsSlice(channel, log, n, read);
    MsgsSlice(channel, log, at, cursor);
    MsgsSlice(channel, log, a, Max(k, Max(read, cursor)));
    MsgsConcat(channel, log[n..read], log[at..cursor]);
    C.FirstsExtendTwice(before, Msgs(channel, log), a, k, n, read, at, cursor);
  }

  /** What the connection has sent is a prefix of what it has accepted. */
  lemma SentPrefix(x: Scenario, events: seq<Event>)
    requires x.Survives(events)
    ensures MessagesOn(x.channel, x.After(events).conn.sent) <= x.Got(events)
  {
    ResumeDelivers(x, events);
    var c := x.After(events).conn;
    MessagesPrefix(x.channel, c.sent, FC.HeldBy(c.sender), c.queue);
  }

  lemma MessagesPrefix(channel: string, sent: seq<FC.Frame>, held: seq<FC.Frame>, queue: seq<FC.Frame>)
    ensures MessagesOn(channel, sent) <= MessagesOn(channel, sent + held + queue)
  {
    MessagesOnConcat(channel, sent, held);
    MessagesOnConcat(channel, sent + held, queue);
  }

  /** A client with any number of channels that resumes one of them.  Before, it received
      the log from `a` to `k` on it, with any repeats, and after the resume everything the
      connection accepted.  If each copy reaches it while its message is among the last
      W different ones, over all channels, its handlers have seen the log from `a` as far as
      it goes, once each and in order; and so it can go on to the next resume. */
  lemma HandlersSeeTheLog(x: Scenario, events: seq<Event>, o: C.Options, before: seq<C.Event>, after: seq<C.Event>, a: nat, k: nat)
    requires x.Survives(events) && Steady(x, events) && x.After(events).listener.Attached?
    requires var log := x.After(events).chan.appended;
      && OwnIds(log)
      && a <= ReadFrom(x) <= k <= |log| && a <= x.After(events).listener.at <= ReadTo(x)
      && C.Firsts(C.Only(x.channel, C.Received(before))) == Msgs(x.channel, log[a..k])
    requires C.Only(x.channel, C.Received(after)) == Msgs(x.channel, x.Got(events))
    requires C.IdsPerChannel(C.Received(before + after)) && C.NearCopies(C.Received(before + after), o.window)
    ensures var s := x.After(events);
      var end := Max(k, Max(ReadTo(x), s.listener.cursor));
      && a <= end <= |s.chan.appended|
      && C.Only(x.channel, C.Run(o, before + after).handled) == Msgs(x.channel, s.chan.appended[a..end])
      && C.Firsts(C.Only(x.channel, C.Received(before + after))) == Msgs(x.channel, s.chan.appended[a..end])
  {
    var s := x.After(events);
    SteadyResumeDelivers(x, events);
    FirstsOfResume(x.channel, s.chan.appended, C.Only(x.channel, C.Received(before)), a, k,
                   ReadFrom(x), ReadTo(x), s.listener.at, s.listener.cursor);
    C.ReceivedConcat(before, after);
    C.OnlyConcat(x.channel, C.Received(before), C.Received(after));
    C.FirstsOfChannel(x.channel, C.Received(before + after));
    C.HandledOnceExactly(o, before + after);
  }

  /** What a resume from the client's own position needs of it: the client acknowledged only
      what it received, which was what had been published. */
  lemma PositionInTheLog(log: seq<Entry>, channel: string, o: C.Options, before: seq<C.Event>, a: nat, k: nat)
    requires OwnIds(log) && CL.Numbered(log) && a <= k <= |log|
    requires C.AcksOnlyReceived(before) && channel in C.Run(o, before).lastAck
    requires forall m :: m in C.Only(channel, C.Received(before)) ==> m in Msgs(channel, log)
    requires C.Firsts(C.Only(channel, C.Received(before))) == Msgs(channel, log[a..k])
    ensures a < C.Run(o, before).lastAck[channel] <= k
  {
    var n, ms := C.Run(o, before).lastAck[channel], C.Only(channel, C.Received(before));
    C.PositionWasReceived(o, before, channel);
    var m :| m in C.Received(before) && m.channel == channel && m.sequence == n;
    C.OnlyMembers(channel, C.Received(before));
    var q :| 0 <= q < |log| && Msgs(channel, log)[q] == m;
    C.FirstsOnce(ms);
    C.IdAmong(ms, m.id);
    MsgsOwnIds(channel, log);
    MsgsSlice(channel, log, a, k);
    C.IdInStretch(Msgs(channel, log), a, k, q);
  }

  /** Exactly once for the handlers: a client that resumes from its own position, and
      whatever it handled beyond it.  What it received before had been appended by the time
      of the read. */
  lemma ExactlyOnceForTheHandlers(x: Scenario, events: seq<Event>, o: C.Options, before: seq<C.Event>, after: seq<C.Event>, a: nat, k: nat)
    requires x.Survives(events) && Steady(x, events) && x.After(events).listener.Attached?
    requires C.AcksOnlyReceived(before) && x.channel in C.Run(o, before).lastAck
    requires x.position == C.Run(o, before).lastAck[x.channel]
    requires var log := x.After(events).chan.appended;
      && OwnIds(log)
      && a <= k <= ReadTo(x) <= |log| && a <= x.After(events).listener.at <= ReadTo(x)
      && (forall m :: m in C.Only(x.channel, C.Received(before)) ==> m in Msgs(x.channel, log))
      && C.Firsts(C.Only(x.channel, C.Received(before))) == Msgs(x.channel, log[a..k])
    requires C.Only(x.channel, C.Received(after)) == Msgs(x.channel, x.Got(events))
    requires C.IdsPerChannel(C.Received(before + after)) && C.NearCopies(C.Received(before + after), o.window)
    ensures var s := x.After(events);
      var end := Max(ReadTo(x), s.listener.cursor);
      && a <= end <= |s.chan.appended|
      && C.Only(x.channel, C.Run(o, before + after).handled) == Msgs(x.channel, s.chan.appended[a..end])
  {
    SteadyResumeDelivers(x, events);
    PositionInTheLog(x.After(events).chan.appended, x.channel, o, before, a, k);
    HandlersSeeTheLog(x, events, o, before, after, a, k);
  }

  /** How far apart copies are on one channel: at most what was received beyond the position
      and what the listener was behind the read together. */
  lemma CopiesApart(channel: string, log: seq<Entry>, a: nat, k: nat, n: nat, read: nat, at: nat, cursor: nat, w: nat)
    requires OwnIds(log) && a <= k <= |log| && n <= read <= |log| && at <= cursor <= |log|
    requires n <= k && at <= read && (k - n) + (read - at) <= w
    ensures C.CloseCopies(Msgs(channel, log[a..k] + (log[n..read] + log[at..cursor])), w)
  {
    var all := log[a..k] + (log[n..read] + log[at..cursor]);
    var ms := Msgs(channel, all);
    forall i, j | 0 <= i < j < |ms| && ms[i].id == ms[j].id ensures j - i <= w {
      assert all[i] == log[Source(a, k, n, read, at, i)] && all[j] == log[Source(a, k, n, read, at, j)];
      assert Source(a, k, n, read, at, i) == Source(a, k, n, read, at, j);
    }
  }

  /** Where in the log message i of the three stretches comes from. */
  function Source(a: nat, k: nat, n: nat, read: nat, at: nat, i: int): int {
    if i < k - a then a + i
    else if i < k - a + (read - n) then n + (i - (k - a))
    else at + (i - (k - a) - (read - n))
  }

  lemma ClosePrefix(ms: seq<C.Msg>, all: seq<C.Msg>, w: nat)
    requires ms <= all && C.CloseCopies(all, w)
    ensures C.CloseCopies(ms, w)
  {
    assert forall i :: 0 <= i < |ms| ==> ms[i] == all[i];
  }

  /** At every moment of a resume, for a client of one channel that received the log from
      `a` to `k` before: if what it had received beyond its position and what the listener
      was behind the read come to at most W, each message sent and received has reached
      the handlers once. */
  lemma OverlapHandledOnce(x: Scenario, events: seq<Event>, o: C.Options, before: seq<C.Event>, after: seq<C.Event>, a: nat, k: nat)
    requires x.Survives(events) && Steady(x, events) && x.After(events).listener.Attached?
    requires var log := x.After(events).chan.appended;
      OwnIds(log) && a <= k <= |log| && C.Received(before) == Msgs(x.channel, log[a..k])
    requires C.Received(after) <= Msgs(x.channel, MessagesOn(x.channel, x.After(events).conn.sent))
    requires ReadFrom(x) <= k && x.After(events).listener.at <= ReadTo(x)
    requires (k - ReadFrom(x)) + (ReadTo(x) - x.After(events).listener.at) <= o.window
    ensures var handled := C.Run(o, before + after).handled;
      && handled == C.Firsts(C.Received(before + after)) && C.Unrepeated(C.Ids(handled))
      && (forall id :: id in C.Ids(handled) <==> id in C.Ids(C.Received(before + after)))
  {
    var s := x.After(events);
    SteadyResumeDelivers(x, events);
    SentPrefix(x, events);
    CopiesApart(x.channel, s.chan.appended, a, k, ReadFrom(x), ReadTo(x), s.listener.at, s.listener.cursor, o.window);
    ReceivedSoFar(x.channel, s.chan.appended[a..k], C.Received(after), MessagesOn(x.channel, s.conn.sent), x.Got(events));
    C.ReceivedConcat(before, after);
    ClosePrefix(C.Received(before + after), Msgs(x.channel, s.chan.appended[a..k] + x.Got(events)), o.window);
    C.CloseIsNear(C.Received(before + after), o.window);
    C.HandledOnceExactly(o, before + after);
    C.FirstsOnce(C.Received(before + after));
  }

  lemma ReceivedSoFar(channel: string, known: seq<Entry>, ms: seq<C.Msg>, sent: seq<Entry>, got: seq<Entry>)
    requires ms <= Msgs(channel, sent) && sent <= got
    ensures Msgs(channel, known) + ms <= Msgs(channel, known + got)
  {
    MsgsConcat(channel, known, got);
    assert Msgs(channel, sent) <= Msgs(channel, got);
  }
}
