/**
 The reference-counted Pub/Sub listeners of a node.

 `on_local_subscribe` counts the subscriber, suspends on Redis, and only then looks
 for a listener; `on_local_unsubscribe` changes everything before it suspends.  A
 `Room` is one channel's share of the manager together with the connections using
 it; its steps are the atomic segments, in any interleaving.
 */
module Listeners {
  import opened Prelude

  /** One channel's row: the subscriber count (0 when absent) and the listener task. */
  datatype Row = Row(count: nat, listener: Option<nat>)

  function Counted(row: Row): Row {
    row.(count := row.count + 1)
  }

  /** `running` are the tasks neither cancelled nor done. */
  function Listening(row: Row, running: set<nat>, task: nat): Row {
    if row.listener.None? || row.listener.value !in running then row.(listener := Some(task)) else row
  }

  function Uncounted(row: Row): Row {
    if row.count <= 1 then Row(0, None) else row.(count := row.count - 1)
  }

  function CancelledBy(row: Row): set<nat> {
    if row.count <= 1 && row.listener.Some? then {row.listener.value} else {}
  }

  // ---------------------------------------------------------------- the manager object

  class ChannelSubscriptionManager {
    var counts: map<string, nat>
    var listeners: map<string, nat>
    var running: set<nat>
    var nextTask: nat

    ghost predicate Valid()
      reads this
    {
      && (forall t :: t in running ==> t < nextTask)
      && (forall c, d :: c in listeners && d in listeners && c != d ==> listeners[c] != listeners[d])
      && (forall c :: c in listeners ==> listeners[c] < nextTask)
    }

    function At(channel: string): Row
      reads this
    {
      Row(if channel in counts then counts[channel] else 0,
          if channel in listeners then Some(listeners[channel]) else None)
    }

    constructor ()
      ensures Valid() && forall channel :: At(channel) == Row(0, None)
    {
      counts, listeners, running, nextTask := map[], map[], {}, 0;
    }

    /** `on_local_subscribe` up to its first suspension. */
    method CountSubscriber(channel: string)
      requires Valid()
      modifies this`counts
      ensures Valid()
      ensures At(channel) == Counted(old(At(channel)))
      ensures forall other :: other != channel ==> At(other) == old(At(other))
    {
      counts := counts[channel := (if channel in counts then counts[channel] else 0) + 1];
    }

    /** `on_local_subscribe` after its last suspension. */
    method EnsureListener(channel: string)
      requires Valid()
      modifies this`listeners, this`running, this`nextTask
      ensures Valid()
      ensures At(channel) == Listening(old(At(channel)), old(running), old(nextTask))
      ensures running == old(running) + if At(channel) == old(At(channel)) then {} else {old(nextTask)}
      ensures forall other :: other != channel ==> At(other) == old(At(other))
    {
      if channel !in listeners || listeners[channel] !in running {
        listeners := listeners[channel := nextTask];
        running := running + {nextTask};
        nextTask := nextTask + 1;
      }
    }

    method OnLocalUnsubscribe(channel: string)
      requires Valid()
      modifies this`counts, this`listeners, this`running
      ensures Valid()
      ensures At(channel) == Uncounted(old(At(channel)))
      ensures running == old(running) - CancelledBy(old(At(channel)))
      ensures forall other :: other != channel ==> At(other) == old(At(other))
    {
      var before: int := if channel in counts then counts[channel] else 0;
      var count := before - 1;
      if count <= 0 {
        counts := counts - {channel};
        if channel in listeners {
          running := running - {listeners[channel]};
          listeners := listeners - {channel};
        }
      } else {
        counts := counts[channel := count];
      }
    }

    /** The end of `_cleanup_connection`'s loop: every subscription released once, and
        exactly the listeners of channels nobody else counts on cancelled. */
    method ReleaseAll(channels: set<string>)
      requires Valid()
      modifies this`counts, this`listeners, this`running
      ensures Valid()
      ensures forall c :: At(c) == if c in channels then Uncounted(old(At(c))) else old(At(c))
      ensures forall t :: t in running <==>
        t in old(running) && forall c :: c in channels ==> t !in CancelledBy(old(At(c)))
    {
      var left := channels;
      while left != {}
        invariant Valid() && left <= channels
        invariant forall c :: At(c) == if c in channels - left then Uncounted(old(At(c))) else old(At(c))
        invariant forall t :: t in running <==>
          t in old(running) && forall c :: c in channels - left ==> t !in CancelledBy(old(At(c)))
      {
        var channel :| channel in left;
        OnLocalUnsubscribe(channel);
        left := left - {channel};
      }
    }
  }

  // ---------------------------------------------------------------- one channel under interleaving

  /** `holders` have the channel and have not released it; `joining` are suspended
      inside `on_local_subscribe`; `served` have come out of it; `redundant` counts
      subscribes to a channel already held. */
  datatype Room = Room(row: Row, running: set<nat>, nextTask: nat,
                       holders: set<string>, joining: set<string>, served: set<string>, redundant: nat)

  datatype Event =
    | SubscribeStarts(conn: string)
    | SubscribeEnds(conn: string)
    | SubscribeFails(conn: string)
    | Leaves(conn: string)
    | TaskEnds(task: nat)

  const VACANT := Room(Row(0, None), {}, 0, {}, {}, {}, 0)

  function Step(r: Room, e: Event): Room {
    match e
    case SubscribeStarts(c) =>
      if c in r.joining then r
      else r.(row := Counted(r.row), holders := r.holders + {c}, joining := r.joining + {c},
              redundant := if c in r.holders then r.redundant + 1 else r.redundant)
    case SubscribeEnds(c) =>
      if c !in r.joining then r
      else
        var row := Listening(r.row, r.running, r.nextTask);
        r.(row := row, joining := r.joining - {c}, served := r.served + {c},
           running := if row == r.row then r.running else r.running + {r.nextTask},
           nextTask := if row == r.row then r.nextTask else r.nextTask + 1)
    case SubscribeFails(c) => r.(joining := r.joining - {c})
    case Leaves(c) =>
      if c in r.joining then r
      else r.(row := Uncounted(r.row), running := r.running - CancelledBy(r.row),
              holders := r.holders - {c}, served := r.served - {c})
    case TaskEnds(t) => r.(running := r.running - {t})
  }

  function Run(events: seq<Event>): Room {
    if events == [] then VACANT else Step(Run(events[..|events| - 1]), events[|events| - 1])
  }

  /** Every UNSUBSCRIBE and every cleanup release names a channel the connection holds. */
  ghost predicate HeldOnly(events: seq<Event>) {
    events == [] ||
    (HeldOnly(events[..|events| - 1]) &&
     var e := events[|events| - 1];
     e.Leaves? ==> e.conn in Run(events[..|events| - 1]).holders)
  }

  ghost predicate Inv(r: Room) {
    && r.row.count == |r.holders| + r.redundant
    && r.joining <= r.holders && r.served <= r.holders
    && (r.served != {} ==> r.row.listener.Some?)
    && (r.row.listener.Some? ==> r.row.count > 0 && r.row.listener.value < r.nextTask)
    && (forall t :: t in r.running ==> r.row.listener == Some(t))
  }

  lemma InvLeaves(r: Room, c: string)
    requires Inv(r) && c in r.holders && c !in r.joining
    ensures Inv(Step(r, Leaves(c)))
  {
    assert |r.holders - {c}| == |r.holders| - 1;
    if r.row.count <= 1 {
      assert r.holders - {c} == {};
    }
  }

  lemma InvSubscribe(r: Room, e: Event)
    requires Inv(r) && (e.SubscribeStarts? || e.SubscribeEnds?)
    ensures Inv(Step(r, e))
  {
    if e.SubscribeStarts? && e.conn in r.holders {
      assert r.holders + {e.conn} == r.holders;
    }
    if e.SubscribeEnds? && e.conn in r.joining {
      assert e.conn in r.holders;
      assert |r.holders| > 0;
    }
  }

  lemma InvStep(r: Room, e: Event)
    requires Inv(r) && (e.Leaves? ==> e.conn in r.holders)
    ensures Inv(Step(r, e))
  {
    match e {
      case Leaves(c) =>
        if c !in r.joining {
          InvLeaves(r, c);
        }
      case SubscribeFails(_) =>
      case TaskEnds(_) =>
      case _ => InvSubscribe(r, e);
    }
  }

  lemma {:induction false} HeldOnlyInv(events: seq<Event>)
    requires HeldOnly(events)
    ensures Inv(Run(events))
  {
    if events != [] {
      HeldOnlyInv(events[..|events| - 1]);
      InvStep(Run(events[..|events| - 1]), events[|events| - 1]);
    }
  }

  // ---------------------------------------------------------------- theorems

  /** Listener reference count: in every such run, across suspension points, the count
      is the unreleased holders plus the redundant subscribes, and whoever has finished
      subscribing is served by the listener in the table. */
  lemma ReferenceCount(events: seq<Event>)
    requires HeldOnly(events)
    ensures var r := Run(events);
      r.row.count == |r.holders| + r.redundant && (r.served != {} ==> r.row.listener.Some?)
  {
    HeldOnlyInv(events);
  }

  /** What every run keeps, whatever its UNSUBSCRIBEs name. */
  ghost predicate Tidy(r: Room) {
    && r.joining <= r.holders
    && (r.holders == {} && r.row.count == 0 ==> r.row.listener.None?)
    && (r.row.listener.Some? ==> r.row.listener.value < r.nextTask)
    && (forall t :: t in r.running ==> r.row.listener == Some(t))
  }

  lemma TidyStep(r: Room, e: Event)
    requires Tidy(r)
    ensures Tidy(Step(r, e))
  {
  }

  lemma {:induction false} AlwaysTidy(events: seq<Event>)
    ensures Tidy(Run(events))
  {
    if events != [] {
      AlwaysTidy(events[..|events| - 1]);
      TidyStep(Run(events[..|events| - 1]), events[|events| - 1]);
    }
  }

  /** In every run at most one listener of the channel is running: the one in the table. */
  lemma OneListener(events: seq<Event>)
    ensures var r := Run(events);
      r.running == {} || (r.row.listener.Some? && r.running == {r.row.listener.value})
  {
    AlwaysTidy(events);
  }

  /** In every run, whoever comes out of `on_local_subscribe` leaves a running listener
      behind, even if the previous one had died. */
  lemma SubscribeRevives(events: seq<Event>, c: string)
    requires c in Run(events).joining
    ensures var r := Step(Run(events), SubscribeEnds(c));
      r.row.listener.Some? && r.running == {r.row.listener.value}
  {
    AlwaysTidy(events);
    TidyStep(Run(events), SubscribeEnds(c));
    var r := Step(Run(events), SubscribeEnds(c));
    assert r.row.listener.value in r.running;
  }

  /** A listener that dies stays in the table and nothing runs, until someone comes out of
      `on_local_subscribe`: then a new one is in its place and running. */
  lemma DeadListenerIsReplaced(events: seq<Event>, t: nat, c: string)
    requires Run(events).row.listener == Some(t) && c in Run(events).joining
    ensures var dead := Step(Run(events), TaskEnds(t));
      var r := Step(dead, SubscribeEnds(c));
      && dead.running == {} && dead.row == Run(events).row
      && r.row.listener.Some? && r.row.listener.value != t && r.running == {r.row.listener.value}
  {
    AlwaysTidy(events);
    assert Step(Run(events), TaskEnds(t)).running == {};
  }

  /** Whoever comes out of `on_local_subscribe` has a listener in the table until it leaves,
      whatever the others do meanwhile. */
  lemma {:induction false} SubscribedStaysServed(events: seq<Event>, c: string, more: seq<Event>)
    requires c in Run(events).joining && HeldOnly(events + [SubscribeEnds(c)] + more)
    requires Leaves(c) !in more
    ensures c in Run(events + [SubscribeEnds(c)] + more).served
    ensures Run(events + [SubscribeEnds(c)] + more).row.listener.Some?
  {
    var first := events + [SubscribeEnds(c)];
    if more == [] {
      assert first + more == first;
      RunSnoc(events, SubscribeEnds(c));
    } else {
      var front, e := more[..|more| - 1], more[|more| - 1];
      assert first + more == first + front + [e];
      RunSnoc(first + front, e);
      SubscribedStaysServed(events, c, front);
      ServedStep(Run(first + front), c, e);
    }
    HeldOnlyInv(first + more);
    ServedHasAListener(Run(first + more), c);
  }

  lemma ServedStep(r: Room, c: string, e: Event)
    requires c in r.served && e != Leaves(c)
    ensures c in Step(r, e).served
  {
  }

  lemma ServedHasAListener(r: Room, c: string)
    requires Inv(r) && c in r.served
    ensures r.row.listener.Some?
  {
  }

  /** The listener disappears in a step only if nobody holds the channel after it. */
  lemma NeverTornDownUnderAHolder(events: seq<Event>, e: Event)
    requires HeldOnly(events + [e])
    ensures var r, r' := Run(events), Run(events + [e]);
      r.row.listener.Some? && r'.row.listener.None? ==> r'.holders == {} && r'.redundant == 0
  {
    assert (events + [e])[..|events|] == events;
    HeldOnlyInv(events);
    HeldOnlyInv(events + [e]);
  }

  // ---------------------------------------------------------------- stray UNSUBSCRIBEs

  ghost predicate TornDown(r: Room, r': Room) {
    r.row.listener.Some? && r'.row.listener.None? && r'.holders != {}
  }

  /** Nothing checks that an UNSUBSCRIBE names a held channel.  In any state, leaving tears
      the listener down under a live subscriber exactly when the listener is up, the count
      is at most one and someone else holds the channel; no other step does. */
  lemma TearsDownExactly(r: Room, e: Event)
    ensures TornDown(r, Step(r, e)) ==> e.Leaves? && e.conn !in r.joining
    ensures e.Leaves? && e.conn !in r.joining ==>
      (TornDown(r, Step(r, e)) <==> r.row.listener.Some? && r.row.count <= 1 && r.holders - {e.conn} != {})
  {
  }

  /** What the count should be: one for each unreleased holder and redundant subscribe. */
  function Owed(r: Room): nat {
    |r.holders| + r.redundant
  }

  /** How far stray UNSUBSCRIBEs have pushed the count below what it should be.  Each adds
      one unless the count is already at zero; a holder that leaves at zero takes one
      off. */
  function Deficit(events: seq<Event>): int {
    if events == [] then 0
    else
      var d, r, e := Deficit(events[..|events| - 1]), Run(events[..|events| - 1]), events[|events| - 1];
      if !e.Leaves? || e.conn in r.joining then d
      else if e.conn in r.holders then (if d == Owed(r) then d - 1 else d)
      else (if d == Owed(r) then d else d + 1)
  }

  lemma OwedStep(r: Room, e: Event)
    requires e.Leaves? ==> e.conn !in r.joining
    ensures Owed(Step(r, e)) == Owed(r) +
      if e.SubscribeStarts? && e.conn !in r.joining then 1 else if e.Leaves? && e.conn in r.holders then -1 else 0
  {
    match e {
      case SubscribeStarts(c) =>
        if c in r.holders {
          assert r.holders + {c} == r.holders;
        }
      case Leaves(c) =>
        if c in r.holders {
          assert |r.holders - {c}| == |r.holders| - 1;
        } else {
          assert r.holders - {c} == r.holders;
        }
      case _ =>
    }
  }

  /** In every run, with any number of strays, the count is what it should be less the
      deficit. */
  lemma {:induction false} CountIsShort(events: seq<Event>)
    ensures 0 <= Deficit(events) && Run(events).row.count == Owed(Run(events)) - Deficit(events)
  {
    if events != [] {
      CountIsShort(events[..|events| - 1]);
      var r, e := Run(events[..|events| - 1]), events[|events| - 1];
      if !e.Leaves? || e.conn !in r.joining {
        OwedStep(r, e);
      }
    }
  }

  ghost predicate NeverTornDown(events: seq<Event>) {
    events == [] ||
    (NeverTornDown(events[..|events| - 1]) && !TornDown(Run(events[..|events| - 1]), Run(events)))
  }

  /** Whenever someone leaves others behind with the listener up, the deficit leaves at
      least two of the count. */
  ghost predicate Covered(events: seq<Event>) {
    events == [] ||
    (Covered(events[..|events| - 1]) &&
     var r, e := Run(events[..|events| - 1]), events[|events| - 1];
     e.Leaves? && e.conn !in r.joining && r.row.listener.Some? && r.holders - {e.conn} != {} ==>
       Deficit(events[..|events| - 1]) + 2 <= Owed(r))
  }

  /** A run, with any number of stray UNSUBSCRIBEs, never tears the listener down under a
      holder exactly when it is covered. */
  lemma {:induction false} NeverTornDownExactly(events: seq<Event>)
    ensures NeverTornDown(events) <==> Covered(events)
  {
    if events != [] {
      NeverTornDownExactly(events[..|events| - 1]);
      CountIsShort(events[..|events| - 1]);
      TearsDownExactly(Run(events[..|events| - 1]), events[|events| - 1]);
    }
  }

  /** The first stray of a run tears down exactly when its sender does not hold the
      channel, someone does, the listener is up and the count is one. */
  lemma FirstStrayExactly(events: seq<Event>, c: string)
    requires HeldOnly(events) && c !in Run(events).joining
    ensures var r := Run(events);
      TornDown(r, Step(r, Leaves(c))) <==>
        c !in r.holders && r.holders != {} && r.row.listener.Some? && r.row.count == 1
  {
    HeldOnlyInv(events);
    var r := Run(events);
    TearsDownExactly(r, Leaves(c));
    if c in r.holders && r.row.count <= 1 {
      assert |r.holders - {c}| == |r.holders| - 1;
    }
  }

  lemma RunSnoc(events: seq<Event>, e: Event)
    ensures Run(events + [e]) == Step(Run(events), e)
    ensures HeldOnly(events + [e]) <==> HeldOnly(events) && (e.Leaves? ==> e.conn in Run(events).holders)
  {
  }

  /** A subscribe from start to end. */
  lemma SubscribeWholly(events: seq<Event>, c: string) returns (after: seq<Event>)
    requires HeldOnly(events) && c !in Run(events).joining
    ensures after == events + [SubscribeStarts(c)] + [SubscribeEnds(c)] && HeldOnly(after)
    ensures var r := Run(events);
      var row := Listening(Counted(r.row), r.running, r.nextTask);
      && Run(after).row == row && Run(after).holders == r.holders + {c} && Run(after).joining == r.joining
      && Run(after).running == (if row == Counted(r.row) then r.running else r.running + {r.nextTask})
      && Run(after).redundant == r.redundant + if c in r.holders then 1 else 0
  {
    RunSnoc(events, SubscribeStarts(c));
    RunSnoc(events + [SubscribeStarts(c)], SubscribeEnds(c));
    after := events + [SubscribeStarts(c)] + [SubscribeEnds(c)];
    assert (Run(events).joining + {c}) - {c} == Run(events).joining;
  }

  lemma StrayUnsubscribeTearsDown(a: string, b: string) returns (events: seq<Event>)
    requires a != b
    ensures HeldOnly(events) && TornDown(Run(events), Step(Run(events), Leaves(b)))
  {
    events := SubscribeWholly([], a);
    assert a in Step(Run(events), Leaves(b)).holders;
  }

  /** After a stray, a connection that holds the channel tears the listener down under
      another one by leaving. */
  lemma HolderTearsDownAfterAStray(a: string, b: string, c: string) returns (events: seq<Event>)
    requires a != b && a != c && b != c
    ensures a in Run(events).holders && TornDown(Run(events), Step(Run(events), Leaves(a)))
  {
    var one := SubscribeWholly([], a);
    var two := SubscribeWholly(one, b);
    assert Run(two).row.count == 2 && Run(two).row.listener.Some?;
    RunSnoc(two, Leaves(c));
    events := two + [Leaves(c)];
    assert b in Step(Run(events), Leaves(a)).holders;
  }

  // ---------------------------------------------------------------- redundant subscribes

  /** When everyone has left, what remains counted is the redundant subscribes less the
      deficit of stray UNSUBSCRIBEs: the channel is released exactly when they are equal. */
  lemma ReleasedExactly(events: seq<Event>)
    requires Run(events).holders == {}
    ensures Run(events).row.count == Run(events).redundant - Deficit(events)
    ensures Run(events).row == Row(0, None) && Run(events).running == {} <==> Deficit(events) == Run(events).redundant
  {
    CountIsShort(events);
    AlwaysTidy(events);
  }

  /** Without strays there is no deficit. */
  lemma HeldOnlyHasNoDeficit(events: seq<Event>)
    requires HeldOnly(events)
    ensures Deficit(events) == 0
  {
    HeldOnlyInv(events);
    CountIsShort(events);
  }

  /** No UNSUBSCRIBE in `rest`, coming after `first`, names a channel not held. */
  ghost predicate NoStrays(first: seq<Event>, rest: seq<Event>) {
    rest == [] ||
    (NoStrays(first, rest[..|rest| - 1]) &&
     var e := rest[|rest| - 1];
     e.Leaves? ==> e.conn in Run(first + rest[..|rest| - 1]).holders)
  }

  /** From any state in which redundant subscribes outnumber the deficit, the channel is
      never released without further strays: however the connections go on to subscribe
      and leave, the count stays above zero and a listener in the table stays in it. */
  lemma {:induction false} NeverReleasedAgain(first: seq<Event>, rest: seq<Event>)
    requires NoStrays(first, rest) && Run(first).redundant > Deficit(first)
    ensures Run(first + rest).redundant > Deficit(first + rest) && Run(first + rest).row.count > 0
    ensures Run(first).row.listener.Some? ==> Run(first + rest).row.listener.Some?
  {
    CountIsShort(first + rest);
    if rest == [] {
      assert first + rest == first;
    } else {
      var front, e := first + rest[..|rest| - 1], rest[|rest| - 1];
      assert first + rest == front + [e];
      NeverReleasedAgain(first, rest[..|rest| - 1]);
      CountIsShort(front);
      RunSnoc(front, e);
      DeficitWithoutStray(front, e);
      StillCounted(Run(front), e, Deficit(front));
    }
  }

  lemma DeficitWithoutStray(events: seq<Event>, e: Event)
    requires e.Leaves? ==> e.conn in Run(events).holders
    ensures Deficit(events + [e]) <= Deficit(events)
  {
    assert (events + [e])[..|events|] == events;
  }

  lemma StillCounted(r: Room, e: Event, deficit: nat)
    requires r.row.count == Owed(r) - deficit && deficit < r.redundant && (e.Leaves? ==> e.conn in r.holders)
    ensures r.row.listener.Some? ==> Step(r, e).row.listener.Some?
    ensures Step(r, e).redundant >= r.redundant
  {
    if e.Leaves? {
      assert |r.holders| >= 1;
    }
  }

  /** Subscribing twice and leaving once: nobody is left, and the listener runs on. */
  lemma SubscribedTwiceLeftOnce(a: string) returns (events: seq<Event>)
    ensures HeldOnly(events) && Run(events).holders == {} && Run(events).redundant == 1
    ensures Run(events).row == Row(1, Some(0)) && Run(events).running == {0} && Run(events).joining == {}
  {
    var once := SubscribeWholly([], a);
    assert Run(once).row == Row(1, Some(0));
    var twice := SubscribeWholly(once, a);
    RunSnoc(twice, Leaves(a));
    events := twice + [Leaves(a)];
    assert {a} - {a} == {};
  }

  /** Subscribing twice and leaving twice: the second UNSUBSCRIBE is a stray, and makes up
      for the redundant subscribe. */
  lemma SubscribedTwiceLeftTwice(a: string) returns (events: seq<Event>)
    ensures Run(events).holders == {} && Run(events).redundant == 1
    ensures Run(events).row == Row(0, None) && Run(events).running == {}
  {
    var once := SubscribedTwiceLeftOnce(a);
    RunSnoc(once, Leaves(a));
    events := once + [Leaves(a)];
  }
}
