/**
 Handshake admission: a semaphore bounds the handshakes in flight, and each one tests
 the tenant's connection count before it suspends and registers only afterwards.
 */
module Admission {

  datatype Stage = Entered | Admitted | Registered

  datatype Handshake = Handshake(tenant: string, stage: Stage)

  /** `inside` hold the semaphore; `live` are the registered connections. */
  datatype Gate = Gate(inside: map<nat, Handshake>, live: map<nat, string>)

  datatype Limits = Limits(perTenant: nat, inFlight: nat)

  datatype Event =
    | Enter(task: nat, tenant: string)
    | Test(task: nat)
    | Register(task: nat)
    | Exit(task: nat)
    | Disconnect(task: nat)

  const OPEN := Gate(map[], map[])

  function Connections(g: Gate, tenant: string): set<nat> {
    set t | t in g.live && g.live[t] == tenant
  }

  /** Handshakes of the tenant that passed the test and have yet to register. */
  function Waiting(g: Gate, tenant: string): set<nat> {
    set t | t in g.inside && g.inside[t] == Handshake(tenant, Admitted)
  }

  function Step(l: Limits, g: Gate, e: Event): Gate {
    match e
    case Enter(t, tenant) =>
      if t in g.inside || t in g.live || |g.inside| >= l.inFlight then g
      else g.(inside := g.inside[t := Handshake(tenant, Entered)])
    case Test(t) =>
      if !(t in g.inside && g.inside[t].stage.Entered?) then g
      else if |Connections(g, g.inside[t].tenant)| >= l.perTenant then g.(inside := g.inside - {t})
      else g.(inside := g.inside[t := Handshake(g.inside[t].tenant, Admitted)])
    case Register(t) =>
      if !(t in g.inside && g.inside[t].stage.Admitted?) then g
      else Gate(g.inside[t := Handshake(g.inside[t].tenant, Registered)], g.live[t := g.inside[t].tenant])
    case Exit(t) => g.(inside := g.inside - {t})
    case Disconnect(t) => g.(live := g.live - {t})
  }

  function Run(l: Limits, events: seq<Event>): Gate {
    if events == [] then OPEN else Step(l, Run(l, events[..|events| - 1]), events[|events| - 1])
  }

  // ---------------------------------------------------------------- the bound

  ghost predicate Inv(l: Limits, g: Gate, tenant: string) {
    && |g.inside| <= l.inFlight
    && |Connections(g, tenant)| + |Waiting(g, tenant)| <= l.perTenant + l.inFlight - 1
  }

  lemma Subset(a: set<nat>, b: set<nat>)
    requires a <= b
    ensures |a| <= |b|
  {
    if a != b {
      assert |b - a| + |a| == |b| by {
        assert (b - a) + a == b;
      }
    }
  }

  lemma InsideSize(g: Gate, g': Gate, t: nat)
    requires t in g.inside && (g'.inside == g.inside - {t} || g'.inside.Keys == g.inside.Keys)
    ensures |g'.inside| <= |g.inside|
  {
  }

  lemma InvTest(l: Limits, g: Gate, t: nat, tenant: string)
    requires Inv(l, g, tenant) && t in g.inside && g.inside[t].stage.Entered?
    ensures Inv(l, Step(l, g, Test(t)), tenant)
  {
    var g' := Step(l, g, Test(t));
    assert Connections(g', tenant) == Connections(g, tenant);
    if g.inside[t].tenant == tenant && |Connections(g, tenant)| < l.perTenant {
      assert g'.inside.Keys == g.inside.Keys;
      Subset(Waiting(g', tenant), g'.inside.Keys);
      InsideSize(g, g', t);
    } else {
      assert Waiting(g', tenant) == Waiting(g, tenant);
      InsideSize(g, g', t);
    }
  }

  lemma WaitingLosesOne(g: Gate, g': Gate, t: nat, tenant: string)
    requires t in g.inside && g.inside[t] == Handshake(tenant, Admitted)
    requires g'.inside == g.inside[t := Handshake(tenant, Registered)]
    ensures |Waiting(g', tenant)| == |Waiting(g, tenant)| - 1
  {
    var a, b := Waiting(g, tenant), Waiting(g', tenant);
    assert t in a && t !in b;
    forall u | u != t ensures u in a <==> u in b {
      assert u in g.inside <==> u in g'.inside;
    }
    assert a == b + {t};
  }

  lemma ConnectionsGainOne(g: Gate, g': Gate, t: nat, tenant: string)
    requires g'.live == g.live[t := tenant]
    ensures |Connections(g', tenant)| <= |Connections(g, tenant)| + 1
  {
    assert Connections(g', tenant) == Connections(g, tenant) + {t};
  }

  lemma RegisterElsewhere(g: Gate, t: nat, other: string, tenant: string)
    requires t in g.inside && g.inside[t] == Handshake(other, Admitted) && other != tenant
    ensures var g' := Gate(g.inside[t := Handshake(other, Registered)], g.live[t := other]);
      |Connections(g', tenant)| <= |Connections(g, tenant)| && |Waiting(g', tenant)| == |Waiting(g, tenant)|
  {
    var g' := Gate(g.inside[t := Handshake(other, Registered)], g.live[t := other]);
    Subset(Connections(g', tenant), Connections(g, tenant));
    assert Waiting(g', tenant) == Waiting(g, tenant);
  }

  lemma InvRegister(l: Limits, g: Gate, t: nat, tenant: string)
    requires Inv(l, g, tenant) && t in g.inside && g.inside[t].stage.Admitted?
    ensures Inv(l, Step(l, g, Register(t)), tenant)
  {
    InsideSize(g, Step(l, g, Register(t)), t);
    if g.inside[t].tenant == tenant {
      WaitingLosesOne(g, Step(l, g, Register(t)), t, tenant);
      ConnectionsGainOne(g, Step(l, g, Register(t)), t, tenant);
    } else {
      RegisterElsewhere(g, t, g.inside[t].tenant, tenant);
    }
  }

  lemma InvEnter(l: Limits, g: Gate, t: nat, other: string, tenant: string)
    requires Inv(l, g, tenant) && t !in g.inside && |g.inside| < l.inFlight
    ensures Inv(l, g.(inside := g.inside[t := Handshake(other, Entered)]), tenant)
  {
    var g' := g.(inside := g.inside[t := Handshake(other, Entered)]);
    assert g'.inside.Keys == g.inside.Keys + {t} && |g'.inside.Keys| == |g'.inside|;
    assert Waiting(g', tenant) == Waiting(g, tenant) && Connections(g', tenant) == Connections(g, tenant);
  }

  lemma InvLeave(l: Limits, g: Gate, t: nat, tenant: string)
    requires Inv(l, g, tenant)
    ensures Inv(l, g.(inside := g.inside - {t}), tenant)
    ensures Inv(l, g.(live := g.live - {t}), tenant)
  {
    var g1, g2 := g.(inside := g.inside - {t}), g.(live := g.live - {t});
    Subset(g1.inside.Keys, g.inside.Keys);
    Subset(Waiting(g1, tenant), Waiting(g, tenant));
    assert Connections(g1, tenant) == Connections(g, tenant);
    Subset(Connections(g2, tenant), Connections(g, tenant));
    assert Waiting(g2, tenant) == Waiting(g, tenant);
  }

  lemma InvStep(l: Limits, g: Gate, e: Event, tenant: string)
    requires Inv(l, g, tenant)
    ensures Inv(l, Step(l, g, e), tenant)
  {
    match e {
      case Enter(t, other) =>
        if t !in g.inside && t !in g.live && |g.inside| < l.inFlight {
          InvEnter(l, g, t, other, tenant);
        }
      case Test(t) =>
        if t in g.inside && g.inside[t].stage.Entered? {
          InvTest(l, g, t, tenant);
        }
      case Register(t) =>
        if t in g.inside && g.inside[t].stage.Admitted? {
          InvRegister(l, g, t, tenant);
        }
      case Exit(t) => InvLeave(l, g, t, tenant);
      case Disconnect(t) => InvLeave(l, g, t, tenant);
    }
  }

  /** Admission bound: over all interleavings of handshakes and disconnects, a node never
      holds more than perTenant + inFlight - 1 connections of a tenant. */
  lemma {:induction false} AdmissionBound(l: Limits, events: seq<Event>, tenant: string)
    requires l.perTenant + l.inFlight >= 1
    ensures Inv(l, Run(l, events), tenant)
    ensures |Connections(Run(l, events), tenant)| <= l.perTenant + l.inFlight - 1
  {
    if events == [] {
      assert Connections(OPEN, tenant) == {} && Waiting(OPEN, tenant) == {};
    } else {
      AdmissionBound(l, events[..|events| - 1], tenant);
      InvStep(l, Run(l, events[..|events| - 1]), events[|events| - 1], tenant);
    }
  }

  // ---------------------------------------------------------------- who is admitted

  /** The test looks at the tenant's own registered connections and at nothing else: the
      handshake goes on exactly when they are below the limit, and is gone if not. */
  lemma AdmittedExactly(l: Limits, g: Gate, t: nat)
    requires t in g.inside && g.inside[t].stage.Entered?
    ensures var g', tenant := Step(l, g, Test(t)), g.inside[t].tenant;
      && (if |set u | u in g.live && g.live[u] == tenant| < l.perTenant
          then g'.inside == g.inside[t := Handshake(tenant, Admitted)] else g'.inside == g.inside - {t})
      && g'.live == g.live
  {
    assert Connections(g, g.inside[t].tenant) == set u | u in g.live && g.live[u] == g.inside[t].tenant;
  }

  /** A disconnect gives its place back: at a full tenant a handshake is refused, and once any
      one of the tenant's connections has gone it is admitted. */
  lemma DisconnectFreesAPlace(l: Limits, g: Gate, t: nat, gone: nat)
    requires t in g.inside && g.inside[t].stage.Entered?
    requires |Connections(g, g.inside[t].tenant)| == l.perTenant && gone in Connections(g, g.inside[t].tenant)
    ensures t !in Step(l, g, Test(t)).inside
    ensures var g' := Step(l, Step(l, g, Disconnect(gone)), Test(t));
      t in g'.inside && g'.inside[t].stage.Admitted? && gone !in g'.live
  {
    var tenant := g.inside[t].tenant;
    assert Connections(Step(l, g, Disconnect(gone)), tenant) == Connections(g, tenant) - {gone};
  }

  // ---------------------------------------------------------------- the bound is reached

  function Range(low: nat, high: nat): (r: set<nat>)
    ensures forall t :: t in r <==> low <= t < high
    ensures low <= high ==> |r| == high - low
  {
    if low >= high then {} else Range(low, high - 1) + {high - 1}
  }

  /** Connections 0..n-1 are registered, all of one tenant. */
  ghost predicate Line(live: map<nat, string>, tenant: string, n: nat) {
    && (forall t: nat :: t in live <==> t < n)
    && (forall t: nat :: t in live ==> live[t] == tenant)
  }

  /** Handshakes low..high-1 are inside, those below mid at one stage, the rest at another. */
  ghost predicate Queue(inside: map<nat, Handshake>, tenant: string, low: nat, mid: nat, high: nat,
                        ahead: Stage, behind: Stage) {
    && (forall t: nat :: t in inside <==> low <= t < high)
    && (forall t: nat :: t in inside ==> inside[t] == Handshake(tenant, if t < mid then ahead else behind))
  }

  lemma LineSize(g: Gate, tenant: string, n: nat)
    requires Line(g.live, tenant, n)
    ensures |Connections(g, tenant)| == n
  {
    assert Connections(g, tenant) == Range(0, n);
  }

  ghost predicate Reachable(l: Limits, g: Gate) {
    exists events :: Run(l, events) == g
  }

  lemma ReachableStep(l: Limits, g: Gate, e: Event)
    requires Reachable(l, g)
    ensures Reachable(l, Step(l, g, e))
  {
    var events :| Run(l, events) == g;
    assert (events + [e])[..|events|] == events;
    assert Run(l, events + [e]) == Step(l, g, e);
  }

  lemma LineGrows(live: map<nat, string>, tenant: string, n: nat)
    requires Line(live, tenant, n)
    ensures Line(live[n := tenant], tenant, n + 1) && n !in live
  {
  }

  lemma QueueGrows(inside: map<nat, Handshake>, tenant: string, low: nat, high: nat, ahead: Stage, behind: Stage)
    requires Queue(inside, tenant, low, low, high, ahead, behind) && low <= high
    ensures Queue(inside[high := Handshake(tenant, behind)], tenant, low, low, high + 1, ahead, behind)
    ensures high !in inside
  {
  }

  lemma QueueSize(inside: map<nat, Handshake>, tenant: string, low: nat, high: nat, ahead: Stage, behind: Stage)
    requires Queue(inside, tenant, low, low, high, ahead, behind) && low <= high
    ensures |inside| == high - low
  {
    assert inside.Keys == Range(low, high);
  }

  lemma QueueAdvances(inside: map<nat, Handshake>, tenant: string, low: nat, mid: nat, high: nat, ahead: Stage, behind: Stage)
    requires Queue(inside, tenant, low, mid, high, ahead, behind) && low <= mid < high
    ensures Queue(inside[mid := Handshake(tenant, ahead)], tenant, low, mid + 1, high, ahead, behind)
    ensures mid in inside && inside[mid] == Handshake(tenant, behind)
  {
  }

  /** A whole handshake with the gate to itself. */
  lemma OneHandshake(l: Limits, g: Gate, t: nat, tenant: string) returns (g': Gate)
    requires Reachable(l, g) && g.inside == map[] && t !in g.live && l.inFlight >= 1
    requires |Connections(g, tenant)| < l.perTenant
    ensures Reachable(l, g') && g' == Gate(map[], g.live[t := tenant])
  {
    var g1 := Enters(l, g, t, tenant);
    assert Connections(g1, tenant) == Connections(g, tenant);
    var g2 := Passes(l, g1, t, tenant);
    var g3 := Registers(l, g2, t, tenant);
    ReachableStep(l, g3, Exit(t));
    g' := Step(l, g3, Exit(t));
    assert g3.inside - {t} == map[];
  }

  lemma Enters(l: Limits, g: Gate, t: nat, tenant: string) returns (g': Gate)
    requires Reachable(l, g) && t !in g.inside && t !in g.live && |g.inside| < l.inFlight
    ensures Reachable(l, g') && g' == Gate(g.inside[t := Handshake(tenant, Entered)], g.live)
  {
    ReachableStep(l, g, Enter(t, tenant));
    g' := Step(l, g, Enter(t, tenant));
  }

  lemma Passes(l: Limits, g: Gate, t: nat, tenant: string) returns (g': Gate)
    requires Reachable(l, g) && t in g.inside && g.inside[t] == Handshake(tenant, Entered)
    requires |Connections(g, tenant)| < l.perTenant
    ensures Reachable(l, g') && g' == Gate(g.inside[t := Handshake(tenant, Admitted)], g.live)
  {
    ReachableStep(l, g, Test(t));
    g' := Step(l, g, Test(t));
  }

  lemma Registers(l: Limits, g: Gate, t: nat, tenant: string) returns (g': Gate)
    requires Reachable(l, g) && t in g.inside && g.inside[t] == Handshake(tenant, Admitted)
    ensures Reachable(l, g') && g' == Gate(g.inside[t := Handshake(tenant, Registered)], g.live[t := tenant])
  {
    ReachableStep(l, g, Register(t));
    g' := Step(l, g, Register(t));
  }

  lemma EnterNext(l: Limits, g: Gate, tenant: string, n: nat, m: nat) returns (g': Gate)
    requires Reachable(l, g) && m < l.inFlight
    requires Queue(g.inside, tenant, n, n, n + m, Admitted, Entered) && Line(g.live, tenant, n)
    ensures Reachable(l, g')
    ensures Queue(g'.inside, tenant, n, n, n + m + 1, Admitted, Entered) && Line(g'.live, tenant, n)
  {
    QueueGrows(g.inside, tenant, n, n + m, Admitted, Entered);
    QueueSize(g.inside, tenant, n, n + m, Admitted, Entered);
    g' := Enters(l, g, n + m, tenant);
  }

  lemma TestNext(l: Limits, g: Gate, tenant: string, n: nat, k: nat, m: nat) returns (g': Gate)
    requires Reachable(l, g) && k < m && n < l.perTenant
    requires Queue(g.inside, tenant, n, n + k, n + m, Admitted, Entered) && Line(g.live, tenant, n)
    ensures Reachable(l, g')
    ensures Queue(g'.inside, tenant, n, n + k + 1, n + m, Admitted, Entered) && Line(g'.live, tenant, n)
  {
    QueueAdvances(g.inside, tenant, n, n + k, n + m, Admitted, Entered);
    LineSize(g, tenant, n);
    g' := Passes(l, g, n + k, tenant);
  }

  lemma RegisterNext(l: Limits, g: Gate, tenant: string, n: nat, k: nat, m: nat) returns (g': Gate)
    requires Reachable(l, g) && k < m
    requires Queue(g.inside, tenant, n, n + k, n + m, Registered, Admitted) && Line(g.live, tenant, n + k)
    ensures Reachable(l, g')
    ensures Queue(g'.inside, tenant, n, n + k + 1, n + m, Registered, Admitted) && Line(g'.live, tenant, n + k + 1)
  {
    QueueAdvances(g.inside, tenant, n, n + k, n + m, Registered, Admitted);
    LineGrows(g.live, tenant, n + k);
    g' := Registers(l, g, n + k, tenant);
  }

  /** One handshake after another, up to one below the tenant's limit. */
  lemma {:induction false} FillSerially(l: Limits, tenant: string, n: nat) returns (g: Gate)
    requires n < l.perTenant && l.inFlight >= 1
    ensures Reachable(l, g) && g.inside == map[] && Line(g.live, tenant, n)
  {
    if n == 0 {
      g := OPEN;
      assert Run(l, []) == OPEN;
    } else {
      var before := FillSerially(l, tenant, n - 1);
      LineSize(before, tenant, n - 1);
      LineGrows(before.live, tenant, n - 1);
      g := OneHandshake(l, before, n - 1, tenant);
    }
  }

  /** One below the limit is registered, and `m` handshakes are inside, not yet tested. */
  lemma {:induction false} EnterTogether(l: Limits, tenant: string, m: nat) returns (g: Gate)
    requires l.perTenant >= 1 && m <= l.inFlight && l.inFlight >= 1
    ensures var n := l.perTenant - 1;
      Reachable(l, g) && Queue(g.inside, tenant, n, n, n + m, Admitted, Entered) && Line(g.live, tenant, n)
  {
    var n := l.perTenant - 1;
    if m == 0 {
      g := FillSerially(l, tenant, n);
    } else {
      var before := EnterTogether(l, tenant, m - 1);
      g := EnterNext(l, before, tenant, n, m - 1);
    }
  }

  /** All are inside, and `k` of them have passed the test. */
  lemma {:induction false} TestTogether(l: Limits, tenant: string, k: nat) returns (g: Gate)
    requires l.perTenant >= 1 && k <= l.inFlight && l.inFlight >= 1
    ensures var n := l.perTenant - 1;
      Reachable(l, g) && Queue(g.inside, tenant, n, n + k, n + l.inFlight, Admitted, Entered) && Line(g.live, tenant, n)
  {
    var n := l.perTenant - 1;
    if k == 0 {
      g := EnterTogether(l, tenant, l.inFlight);
    } else {
      var before := TestTogether(l, tenant, k - 1);
      g := TestNext(l, before, tenant, n, k - 1, l.inFlight);
    }
  }

  /** All have passed the test, and `k` of them have registered. */
  lemma {:induction false} RegisterTogether(l: Limits, tenant: string, k: nat) returns (g: Gate)
    requires l.perTenant >= 1 && k <= l.inFlight && l.inFlight >= 1
    ensures var n := l.perTenant - 1;
      Reachable(l, g) && Queue(g.inside, tenant, n, n + k, n + l.inFlight, Registered, Admitted) && Line(g.live, tenant, n + k)
  {
    var n := l.perTenant - 1;
    if k == 0 {
      g := TestTogether(l, tenant, l.inFlight);
    } else {
      var before := RegisterTogether(l, tenant, k - 1);
      g := RegisterNext(l, before, tenant, n, k - 1, l.inFlight);
    }
  }

  /** For all positive limits some interleaving reaches the bound. */
  lemma BoundIsReached(l: Limits, tenant: string)
    requires l.perTenant >= 1 && l.inFlight >= 1
    ensures exists events :: |Connections(Run(l, events), tenant)| == l.perTenant + l.inFlight - 1
  {
    var g := RegisterTogether(l, tenant, l.inFlight);
    LineSize(g, tenant, l.perTenant - 1 + l.inFlight);
    var events :| Run(l, events) == g;
    assert |Connections(Run(l, events), tenant)| == l.perTenant + l.inFlight - 1;
  }
}
