/**
 The heartbeat of one connection as a timed machine with exact sleeps, and the
 presence key it keeps alive.
 */
module Heartbeat {
  datatype Config = Config(interval: real, timeout: real, poll: real)
  {
    ghost predicate Sensible() {
      interval >= 0.0 && timeout > 0.0 && poll > 0.0
    }

    function Horizon(): real {
      interval + timeout + 2.0 * poll
    }
  }

  /** `silentSince` is the last PONG when the connection was declared dead. */
  datatype Phase =
    | Sleeping(until: real)
    | Polling(sentAt: real, wake: real)
    | DeclaredDead(ping: real, at: real, silentSince: real)

  /** `pongs` and `pings` are logs. */
  datatype Beat = Beat(now: real, phase: Phase, lastPong: real, pongs: seq<real>, pings: seq<real>)

  datatype Event = Pong(time: real) | Wake

  /** A PONG may arrive at any time up to the next wake-up, or after the end. */
  predicate CanArrive(b: Beat, t: real) {
    b.now <= t &&
    match b.phase
    case Sleeping(u) => t <= u
    case Polling(_, w) => t <= w
    case DeclaredDead(_, _, _) => true
  }

  /** What the task does when its sleep ends. */
  function WakeStep(g: Config, b: Beat): Beat {
    match b.phase
    case Sleeping(u) =>
      b.(now := u, pings := b.pings + [u],
         phase := if g.timeout > 0.0 then Polling(u, u + g.poll) else DeclaredDead(u, u, b.lastPong))
    case Polling(s, w) =>
      b.(now := w,
         phase := if b.lastPong >= s then Sleeping(w + g.interval)
                  else if w < s + g.timeout then Polling(s, w + g.poll)
                  else DeclaredDead(s, w, b.lastPong))
    case DeclaredDead(_, _, _) => b
  }

  function Step(g: Config, b: Beat, e: Event): Beat {
    match e
    case Pong(t) => if CanArrive(b, t) then b.(now := t, lastPong := t, pongs := b.pongs + [t]) else b
    case Wake => WakeStep(g, b)
  }

  /** The task starts at `started`, on a connection created at `created`. */
  function Start(g: Config, created: real, started: real): Beat {
    Beat(started, Sleeping(started + g.interval), created, [], [])
  }

  function Run(g: Config, b: Beat, events: seq<Event>): Beat {
    if events == [] then b else Step(g, Run(g, b, events[..|events| - 1]), events[|events| - 1])
  }

  // ---------------------------------------------------------------- the polling loop

  datatype Verdict = Alive | TimedOut | NoLongerActive

  /** When the inner loop polls for the k-th time. */
  function PollAt(g: Config, sentAt: real, k: nat): real {
    if k == 0 then sentAt else PollAt(g, sentAt, k - 1) + g.poll
  }

  /** The poll finds the connection ACTIVE and no PONG since the PING. */
  ghost predicate StillWaiting(g: Config, sentAt: real, active: real -> bool, lastPongAt: real -> real, k: nat) {
    active(PollAt(g, sentAt, k)) && lastPongAt(PollAt(g, sentAt, k)) < sentAt
  }

  /** The inner loop of `run_heartbeat`, reading the connection's state and
      `last_pong_at` as they stand at each poll.  It ends at the first poll that is not
      still waiting, or at the first one at or after the deadline. */
  method AwaitPong(g: Config, sentAt: real, active: real -> bool, lastPongAt: real -> real)
    returns (verdict: Verdict, at: real, polls: nat)
    requires g.poll > 0.0
    ensures at == PollAt(g, sentAt, polls)
    ensures forall k :: 1 <= k < polls ==> StillWaiting(g, sentAt, active, lastPongAt, k)
    ensures polls >= 1 ==> PollAt(g, sentAt, polls - 1) < sentAt + g.timeout
    ensures verdict.NoLongerActive? <==> polls >= 1 && !active(at)
    ensures verdict.Alive? <==> polls >= 1 && active(at) && lastPongAt(at) >= sentAt
    ensures verdict.TimedOut? ==> sentAt + g.timeout <= at
  {
    var deadline := sentAt + g.timeout;
    at, polls := sentAt, 0;
    while at < deadline
      invariant at == PollAt(g, sentAt, polls)
      invariant forall k :: 1 <= k <= polls ==> StillWaiting(g, sentAt, active, lastPongAt, k)
      invariant polls >= 1 ==> PollAt(g, sentAt, polls - 1) < deadline
      decreases ((deadline - at) / g.poll).Floor + 1
    {
      PollsRunOut(deadline - at, g.poll);
      at, polls := at + g.poll, polls + 1;
      if !active(at) {
        return NoLongerActive, at, polls;
      }
      if lastPongAt(at) >= sentAt {
        return Alive, at, polls;
      }
    }
    assert polls >= 1 ==> StillWaiting(g, sentAt, active, lastPongAt, polls);
    verdict := TimedOut;
  }

  lemma ScaleUp(a: real, b: real, p: real)
    requires a < b && p > 0.0
    ensures a * p < b * p
  {
  }

  lemma PollsRunOut(left: real, poll: real)
    requires poll > 0.0 && left > 0.0
    ensures ((left - poll) / poll).Floor + 1 == (left / poll).Floor >= 0
  {
    var polls, fewer := left / poll, (left - poll) / poll;
    assert polls * poll == left && fewer * poll == left - poll;
    var target := polls - 1.0;
    assert target * poll == left - poll;
    if fewer < target {
      ScaleUp(fewer, target, poll);
    } else if fewer > target {
      ScaleUp(target, fewer, poll);
    }
    assert fewer == target;
  }

  // ---------------------------------------------------------------- invariant

  ghost predicate Recorded(b: Beat) {
    && b.lastPong <= b.now
    && (forall i :: 0 <= i < |b.pongs| ==> b.pongs[i] <= b.lastPong)
  }

  /** When the client was last known to be there: its last PONG, or the task's start. */
  function Known(b: Beat, started: real): real {
    if b.lastPong >= started then b.lastPong else started
  }

  ghost predicate Timely(g: Config, started: real, b: Beat) {
    match b.phase
    case Sleeping(u) => started <= b.now <= u <= Known(b, started) + g.interval + g.poll
    case Polling(s, w) =>
      && started <= s <= w - g.poll <= b.now <= w && w - g.poll < s + g.timeout
      && (if b.lastPong >= s then b.lastPong >= w - g.poll else s <= Known(b, started) + g.interval + g.poll)
    case DeclaredDead(s, a, silent) =>
      && s + g.timeout <= a < (if silent >= started then silent else started) + g.Horizon()
      && silent < s && started <= a <= b.now
      && (forall i :: 0 <= i < |b.pongs| ==> b.pongs[i] <= silent || b.pongs[i] >= a)
  }

  lemma PongKeeps(g: Config, started: real, b: Beat, t: real)
    requires g.Sensible() && Recorded(b) && Timely(g, started, b)
    ensures Recorded(Step(g, b, Pong(t))) && Timely(g, started, Step(g, b, Pong(t)))
  {
  }

  lemma WakeKeeps(g: Config, started: real, b: Beat)
    requires g.Sensible() && Recorded(b) && Timely(g, started, b)
    ensures Recorded(WakeStep(g, b)) && Timely(g, started, WakeStep(g, b))
  {
  }

  lemma StepKeeps(g: Config, started: real, b: Beat, e: Event)
    requires g.Sensible() && Recorded(b) && Timely(g, started, b)
    ensures Recorded(Step(g, b, e)) && Timely(g, started, Step(g, b, e))
  {
    match e {
      case Pong(t) => PongKeeps(g, started, b, t);
      case Wake => WakeKeeps(g, started, b);
    }
  }

  lemma {:induction false} RunKeeps(g: Config, created: real, started: real, events: seq<Event>)
    requires g.Sensible() && created <= started
    ensures Recorded(Run(g, Start(g, created, started), events))
    ensures Timely(g, started, Run(g, Start(g, created, started), events))
  {
    if events != [] {
      RunKeeps(g, created, started, events[..|events| - 1]);
      StepKeeps(g, started, Run(g, Start(g, created, started), events[..|events| - 1]), events[|events| - 1]);
    }
  }

  lemma {:induction false} LastPongIsLast(g: Config, created: real, started: real, events: seq<Event>)
    requires g.Sensible() && created <= started
    ensures var b := Run(g, Start(g, created, started), events);
      && b.lastPong == (if b.pongs == [] then created else b.pongs[|b.pongs| - 1])
      && (b.pongs != [] ==> started <= b.lastPong)
  {
    if events != [] {
      LastPongIsLast(g, created, started, events[..|events| - 1]);
      RunKeeps(g, created, started, events[..|events| - 1]);
    }
  }

  // ---------------------------------------------------------------- theorems

  /** No false timeout: when a connection has been declared dead over a PING, no PONG
      was recorded within the timeout after that PING. */
  lemma NoFalseTimeout(g: Config, created: real, started: real, events: seq<Event>, i: int)
    requires g.Sensible() && created <= started
    requires var b := Run(g, Start(g, created, started), events);
      b.phase.DeclaredDead? && 0 <= i < |b.pongs|
    ensures var b := Run(g, Start(g, created, started), events);
      !(b.phase.ping <= b.pongs[i] < b.phase.ping + g.timeout)
  {
    RunKeeps(g, created, started, events);
  }

  /** A silent client is declared dead in time: while the heartbeat has not given up, less
      than interval + timeout + two polls have passed since the last PONG, or since the
      task started if there was none; and when it does give up, less than that had. */
  lemma SilenceIsDetected(g: Config, created: real, started: real, events: seq<Event>)
    requires g.Sensible() && created <= started
    ensures var b := Run(g, Start(g, created, started), events);
      && (!b.phase.DeclaredDead? ==>
            b.now < (if b.pongs == [] then started else b.pongs[|b.pongs| - 1]) + g.Horizon())
      && (b.phase.DeclaredDead? ==>
            && b.phase.ping + g.timeout <= b.phase.at
            && b.phase.at < (if b.phase.silentSince >= started then b.phase.silentSince else started) + g.Horizon())
  {
    RunKeeps(g, created, started, events);
    LastPongIsLast(g, created, started, events);
  }

  /** The next PING is due, or the last is being waited for, as the source paces them. */
  ghost predicate Paced(g: Config, started: real, b: Beat) {
    && (b.pings != [] ==> b.pings[0] == started + g.interval)
    && (forall i :: 0 <= i < |b.pings| - 1 ==> Follows(g, b.pings[i], b.pings[i + 1]))
    && match b.phase
       case Sleeping(u) =>
         b.now <= u && if b.pings == [] then u == started + g.interval else Follows(g, b.pings[|b.pings| - 1], u)
       case Polling(s, w) =>
         && b.pings != [] && b.pings[|b.pings| - 1] == s
         && b.now <= w && s + g.poll <= w < s + g.timeout + g.poll && AtAPoll(g, s, w)
       case DeclaredDead(s, a, _) => b.pings != [] && b.pings[|b.pings| - 1] == s && AtAPoll(g, s, a)
  }

  ghost predicate AtAPoll(g: Config, sentAt: real, t: real) {
    exists k: nat :: t == PollAt(g, sentAt, k)
  }

  lemma NextPoll(g: Config, sentAt: real, t: real)
    requires AtAPoll(g, sentAt, t)
    ensures AtAPoll(g, sentAt, t + g.poll)
  {
    var k: nat :| t == PollAt(g, sentAt, k);
    assert t + g.poll == PollAt(g, sentAt, k + 1);
  }

  /** A PING after one that was answered: the answer is seen at a poll within the timeout, and
      the interval runs from there. */
  ghost predicate Follows(g: Config, ping: real, next: real) {
    ping + g.poll + g.interval <= next < ping + g.timeout + g.poll + g.interval
  }

  lemma PacedStep(g: Config, started: real, b: Beat, e: Event)
    requires g.Sensible() && Paced(g, started, b)
    ensures Paced(g, started, Step(g, b, e))
  {
    if e.Wake? && b.phase.Polling? {
      NextPoll(g, b.phase.sentAt, b.phase.wake);
    }
    if e.Wake? && b.phase.Sleeping? {
      assert b.phase.until == PollAt(g, b.phase.until, 0);
      NextPoll(g, b.phase.until, b.phase.until);
    }
  }

  /** A PONG is recorded whenever it comes, and one that comes while a PING is waited for keeps
      the connection: at the next poll the interval starts again. */
  lemma PongKeepsAlive(g: Config, created: real, started: real, events: seq<Event>, t: real)
    requires g.Sensible() && created <= started && CanArrive(Run(g, Start(g, created, started), events), t)
    ensures var b := Run(g, Start(g, created, started), events);
      var b' := Step(g, b, Pong(t));
      && b'.lastPong == t == b'.now && b'.pongs == b.pongs + [t] && b'.phase == b.phase
      && (b.phase.Polling? ==> Step(g, b', Wake).phase == Sleeping(b.phase.wake + g.interval))
  {
    RunKeeps(g, created, started, events);
  }

  /** PINGs are sent one interval after the start and then one interval after each answered
      one: never closer than interval + poll, never further than interval + timeout + poll;
      a dead connection is declared over the last of them. */
  lemma {:induction false} Cadence(g: Config, created: real, started: real, events: seq<Event>)
    requires g.Sensible()
    ensures Paced(g, started, Run(g, Start(g, created, started), events))
  {
    if events != [] {
      Cadence(g, created, started, events[..|events| - 1]);
      PacedStep(g, started, Run(g, Start(g, created, started), events[..|events| - 1]), events[|events| - 1]);
    }
  }

  // ---------------------------------------------------------------- presence

  /** When the presence key expires: its TTL is set when the connection goes online and
      extended by every PONG; another connection of the user may extend it further. */
  function ExpiresAt(online: real, pongs: seq<real>, ttl: real): real {
    if pongs == [] then online + ttl else pongs[|pongs| - 1] + ttl
  }

  /** If the TTL is at least interval + timeout + two polls and the time from going online
      to the start of the task, the key never expires under a connection the heartbeat
      keeps alive. */
  lemma PresenceOutlivesHeartbeat(g: Config, ttl: real, created: real, online: real, started: real, events: seq<Event>)
    requires g.Sensible() && created <= online <= started && ttl >= g.Horizon() + (started - online)
    requires !Run(g, Start(g, created, started), events).phase.DeclaredDead?
    ensures var b := Run(g, Start(g, created, started), events);
      b.now < ExpiresAt(online, b.pongs, ttl)
  {
    SilenceIsDetected(g, created, started, events);
  }
}
