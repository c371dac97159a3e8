/**
 Fairness of weighted round robin as the manager's users see it: over any stretch of a run that leaves the backends
 of a service, their weights and their health alone, new connections are shared out exactly by weight.
 */
module FairLeases {
  import opened Balancer
  import opened ServicePool
  import opened PoolInvariant
  import opened PoolSteps
  import opened PoolRuns
  import Breaker

  /** A round of maintenance brings an unhealthy backend back. */
  predicate Recovers(b: Backend, recovery: int, now: int) {
    !b.healthy && (recovery == 0 || now - b.lastFailure >= recovery)
  }

  /** A report on an address changes neither the health nor the current weight of a backend of the service. */
  predicate Harmless(s: Service, host: string, port: nat, success: bool, threshold: nat) {
    var k := FindBackend(s.backends, host, port);
    k < |s.backends| ==>
      var b := s.backends[k];
      if success then b.healthy && b.current == 0
      else b.failures + 1 < threshold || (!b.healthy && b.current == 0)
  }

  /**
   Operations that leave the backends, health, weights and strategy of a service alone: lease traffic, execution
   reports, whatever is done to other services, reports that change nothing about the health of a backend, and
   rounds of maintenance that bring no backend back.
   */
  predicate Traffic(p: Pool, cfg: Config, op: Op, at: int, name: string)
    requires name in p.services
  {
    var s, threshold := p.services[name], cfg.policy.threshold;
    match op
    case AcquireOp(_, _, _) => true
    case ReleaseOp(_) => true
    case CloseOp(_) => true
    case ExecutionOp(_, _) => true
    case ExecutionAllOp(_) => true
    case AddOp(service, _, _, _) => service != name
    case RemoveOp(service, _, _) => service != name
    case WeightOp(service, _, _, _) => service != name
    case StrategyOp(service, _) => service != name
    case StatusOp(service, host, port, success) => service != name || Harmless(s, host, port, success, threshold)
    case StatusAllOp(host, port, success) => Harmless(s, host, port, success, threshold)
    case MaintainOp => forall b :: b in s.backends ==> !Recovers(b, cfg.policy.recovery, at)
    case ClearOp => false
  }

  /** Whether a step of the run opens a new connection for a service. */
  ghost predicate Opens(p: Pool, cfg: Config, op: Op, at: int, name: string) {
    op.AcquireOp? && op.service == name && Step(p, cfg, op, at).1 == p.nextId
  }

  lemma SameSharesTransitive(a: seq<Backend>, b: seq<Backend>, c: seq<Backend>)
    requires SameShares(a, b) && SameShares(b, c)
    ensures SameShares(a, c)
  {
  }

  // ---------------------------------------------------------------- one step

  predicate SameAddresses(a: seq<Backend>, b: seq<Backend>) {
    |a| == |b| && forall i :: 0 <= i < |a| ==> At(b[i], a[i].host, a[i].port)
  }

  ghost predicate KeepsShares(p: Pool, after: Pool, name: string) {
    && name in p.services && name in after.services
    && SameAddresses(p.services[name].backends, after.services[name].backends)
    && SameShares(p.services[name].backends, after.services[name].backends)
    && after.services[name].strategy == p.services[name].strategy
  }

  /** A connection was opened to the backend that the balancer's next turn picks, and the turn was taken. */
  ghost predicate TakesTurn(p: Pool, after: Pool, id: Id, name: string) {
    && name in p.services && name in after.services
    && after.services[name].strategy == WeightedRoundRobin
    && var bs := p.services[name].backends;
    && SameAddresses(bs, after.services[name].backends)
    && Turn(bs).1 < |bs| && SameShares(Turn(bs).0, after.services[name].backends)
    && id in after.connections && At(bs[Turn(bs).1], after.connections[id].host, after.connections[id].port)
  }

  lemma RemovalKeepsShares(p: Pool, id: Id, name: string)
    requires id in p.connections && name in p.services
    ensures KeepsShares(p, RemoveConnection(p, id), name)
  {
  }

  lemma {:induction false} SearchKeepsShares(p: Pool, name: string, other: string, timeout: int, now: int)
    requires name in p.services && other in p.services
    ensures KeepsShares(p, TakeIdle(p, name, timeout, now).0, other)
    decreases |p.services[name].idle|, 1
  {
    hide RemoveConnection;
    var s := p.services[name];
    if s.idle != [] {
      var id := s.idle[0];
      var popped := SetService(p, name, s.(idle := s.idle[1..]));
      if id !in p.connections || p.connections[id].active {
        SearchKeepsShares(popped, name, other, timeout, now);
      } else {
        var taken := popped.(connections := p.connections[id := p.connections[id].(active := true, lastUsed := now)]);
        SearchPast(popped, id, name, other, timeout, now);
        SearchPast(taken, id, name, other, timeout, now);
        hide Without; hide FindBackend;
      }
    }
  }

  /** A connection is discarded and the search goes on. */
  lemma SearchPast(p: Pool, id: Id, name: string, other: string, timeout: int, now: int)
    requires id in p.connections && name in p.services && other in p.services
    ensures name in RemoveConnection(p, id).services
    ensures KeepsShares(p, TakeIdle(RemoveConnection(p, id), name, timeout, now).0, other)
    decreases |p.services[name].idle|, 2
  {
    RemovedShrinksIdle(p, id, name);
    RemovalKeepsShares(p, id, other);
    hide RemoveConnection; hide TakeIdle;
    SearchKeepsShares(RemoveConnection(p, id), name, other, timeout, now);
  }

  lemma RemovedShrinksIdle(p: Pool, id: Id, name: string)
    requires id in p.connections && name in p.services
    ensures name in RemoveConnection(p, id).services
    ensures |RemoveConnection(p, id).services[name].idle| <= |p.services[name].idle|
  {
  }

  lemma LeasedStep(p: Pool, name: string, other: string, timeout: int, keyed: bool, draw: nat, now: int)
    requires Invariant(p) && name in p.services && other in p.services
    ensures var (after, id) := Lease(p, name, timeout, keyed, draw, now);
      if id == p.nextId && other == name then
        p.services[name].strategy == WeightedRoundRobin ==> TakesTurn(p, after, id, name)
      else KeepsShares(p, after, other)
  {
    hide TakeIdle; hide HealthyIndices; hide Leader;
    InvariantReusable(p, name);
    SearchFinds(p, name, timeout, now);
    SearchKeepsShares(p, name, other, timeout, now);
    TakeIdleEvolves(p, name, timeout, now);
    var idle := p.services[name].idle;
    var k := FirstUsable(p.connections, idle, timeout, now);
    assert k < |idle| ==> Reusable(p, name, idle[k]) && 0 < idle[k] < p.nextId;
    hide Invariant; hide Reusable; hide FirstUsable; hide ActiveSum;
    if k == |idle| {
      var after := TakeIdle(p, name, timeout, now).0;
      GrownStep(after, name, other, keyed, draw, now);
      hide Grow;
    }
  }

  lemma GrownStep(p: Pool, name: string, other: string, keyed: bool, draw: nat, now: int)
    requires name in p.services && other in p.services && 0 < p.nextId
    ensures var (after, id) := Grow(p, name, keyed, draw, now);
      if id == p.nextId && other == name then
        p.services[name].strategy == WeightedRoundRobin ==> TakesTurn(p, after, id, name)
      else KeepsShares(p, after, other)
  {
    hide Leader; hide HealthyIndices; hide LeastLoaded; hide TotalWeight;
  }

  /** Lease traffic moves a service's shares only when it opens a connection, and then by one turn of the balancer. */
  lemma TrafficStep(p: Pool, cfg: Config, op: Op, at: int, name: string)
    requires Invariant(p) && ValidConfig(cfg) && name in p.services && Traffic(p, cfg, op, at, name)
    requires p.services[name].strategy == WeightedRoundRobin
    ensures var (after, id) := Step(p, cfg, op, at);
      if Opens(p, cfg, op, at, name) then
        TakesTurn(p, after, id, name)
      else KeepsShares(p, after, name)
  {
    hide Acquire; hide Invariant; hide RemoveConnection; hide Turn; hide ReportStatus; hide Maintain; hide Purge;
    hide KeepsShares; hide TakesTurn;
    match op
    case ReleaseOp(id) => ReleaseKeepsShares(p, id, at, name);
    case CloseOp(id) => CloseKeepsShares(p, id, name);
    case AcquireOp(n, keyed, draw) => AcquireStep(p, cfg, n, keyed, draw, at, name);
    case StatusOp(n, host, port, success) =>
      ReportKeepsShares(p, {n}, host, port, success, cfg.policy.threshold, at, name);
    case StatusAllOp(host, port, success) =>
      ReportKeepsShares(p, p.services.Keys, host, port, success, cfg.policy.threshold, at, name);
    case MaintainOp => MaintenanceKeepsShares(p, cfg, at, name);
    case _ => OtherStep(p, cfg, op, at, name);
  }

  lemma SharesKept(p: Pool, name: string)
    requires name in p.services
    ensures KeepsShares(p, p, name)
  {
  }

  lemma CloseKeepsShares(p: Pool, id: Id, name: string)
    requires name in p.services
    ensures KeepsShares(p, Close(p, id), name)
  {
    hide KeepsShares; hide RemoveConnection;
    SharesKept(p, name);
    if id in p.connections {
      RemovalKeepsShares(p, id, name);
    }
  }

  lemma ReleaseKeepsShares(p: Pool, id: Id, now: int, name: string)
    requires name in p.services
    ensures KeepsShares(p, Release(p, id, now), name)
  {
    hide RemoveConnection; hide FindBackend;
    if id in p.connections {
      RemovalKeepsShares(p, id, name);
    }
  }

  /** A report keeps the shares of a service it goes to if and only if it is harmless. */
  lemma ReportKeepsShares(p: Pool, scope: set<string>, host: string, port: nat, success: bool, threshold: nat, now: int,
      name: string)
    requires name in p.services
    ensures KeepsShares(p, p, name)
    ensures KeepsShares(p, ReportStatus(p, scope, host, port, success, threshold, now), name) <==>
      name !in scope || Harmless(p.services[name], host, port, success, threshold)
  {
    hide Without; hide Own; hide Doomed;
    var s := p.services[name];
    var k := FindBackend(s.backends, host, port);
    hide FindBackend;
    if name in scope && k < |s.backends| {
      var told := ReportTo(s, host, port, success, threshold, now).backends;
      assert told[k] == WithStatus(s.backends[k], success, threshold, now);
      assert ReportStatus(p, scope, host, port, success, threshold, now).services[name].backends == told;
    }
  }

  /** A round of maintenance keeps the shares of a service if and only if it brings no backend of it back. */
  lemma MaintenanceKeepsShares(p: Pool, cfg: Config, now: int, name: string)
    requires name in p.services
    ensures KeepsShares(p, Maintain(p, cfg, now), name) <==>
      forall b :: b in p.services[name].backends ==> !Recovers(b, cfg.policy.recovery, now)
  {
    hide Without; hide Own; hide Breaker.Sweep;
    var bs, after := p.services[name].backends, Maintain(p, cfg, now).services[name].backends;
    assert after == RecoverAll(bs, cfg.policy.recovery, now);
    forall b | b in bs && Recovers(b, cfg.policy.recovery, now) ensures !SameShares(bs, after) {
      var i :| 0 <= i < |bs| && bs[i] == b;
      assert after[i].healthy != bs[i].healthy;
    }
    assert forall i :: 0 <= i < |bs| ==> bs[i] in bs;
  }

  lemma OtherStep(p: Pool, cfg: Config, op: Op, at: int, name: string)
    requires name in p.services && Traffic(p, cfg, op, at, name) && !op.AcquireOp? && !op.ReleaseOp? && !op.CloseOp?
    requires !op.StatusOp? && !op.StatusAllOp? && !op.MaintainOp?
    ensures KeepsShares(p, Step(p, cfg, op, at).0, name)
  {
    hide Without; hide Own; hide Breaker.Report; hide ReportTo; hide Doomed; hide IdleAt; hide DropBackend;
    hide FindBackend;
  }

  lemma AcquireStep(p: Pool, cfg: Config, n: string, keyed: bool, draw: nat, at: int, name: string)
    requires Invariant(p) && ValidConfig(cfg)
    requires name in p.services && p.services[name].strategy == WeightedRoundRobin
    ensures var (after, id) := Acquire(p, cfg, n, keyed, draw, at);
      if n == name && id == p.nextId then TakesTurn(p, after, id, name) else KeepsShares(p, after, name)
  {
    hide Lease; hide Turn; hide Invariant; hide Breaker.Admits; hide Breaker.Probe;
    NextIdPositive(p);
    if n != "" {
      EnsureKeeps(p, cfg, n);
      var ready := Ensure(p, cfg, n);
      var s := ready.services[n];
      var probed := SetService(ready, n, s.(breaker := Breaker.Probe(s.breaker, cfg.policy, at)));
      ProbedKeeps(ready, n, probed.services[n].breaker);
      LeasedStep(probed, n, name, cfg.idleTimeout, keyed, draw, at);
    }
  }

  lemma NextIdPositive(p: Pool)
    requires Invariant(p)
    ensures p.nextId > 0
  {
  }

  lemma ProbedKeeps(p: Pool, name: string, breaker: Breaker.Breaker)
    requires Invariant(p) && name in p.services
    ensures Invariant(SetService(p, name, p.services[name].(breaker := breaker)))
  {
    assert ServiceOk(p.connections, name, p.services[name], {});
    SetServiceKeeps(p, name, p.services[name].(breaker := breaker), {});
  }

  // ---------------------------------------------------------------- a stretch of traffic

  /** The backends of a service after `k` steps of a run; none if the service is unknown. */
  ghost function BackendsAt(cfg: Config, history: seq<Timed>, k: nat, name: string): seq<Backend>
    requires k <= |history|
  {
    var p := Run(cfg, history[..k]);
    if name in p.services then p.services[name].backends else []
  }

  ghost predicate WeightedAt(cfg: Config, history: seq<Timed>, k: nat, name: string)
    requires k <= |history|
  {
    var p := Run(cfg, history[..k]);
    name in p.services && p.services[name].strategy == WeightedRoundRobin
  }

  ghost predicate OpensAt(cfg: Config, history: seq<Timed>, k: nat, name: string)
    requires k < |history|
  {
    Opens(Run(cfg, history[..k]), cfg, history[k].op, history[k].at, name)
  }

  /** Where the connection opened by step `k` leads. */
  ghost predicate OpensTo(cfg: Config, history: seq<Timed>, k: nat, name: string, host: string, port: nat)
    requires k < |history|
  {
    var (after, id) := Step(Run(cfg, history[..k]), cfg, history[k].op, history[k].at);
    && OpensAt(cfg, history, k, name)
    && id in after.connections && after.connections[id].host == host && after.connections[id].port == port
  }

  ghost predicate Stretch(cfg: Config, history: seq<Timed>, i: nat, j: nat, name: string) {
    && ValidConfig(cfg) && i <= j <= |history| && (forall k :: i <= k < j ==> QuietAt(cfg, history, k, name))
    && WeightedAt(cfg, history, i, name)
  }

  /** Step `k` of a run leaves a service alone. */
  ghost predicate QuietAt(cfg: Config, history: seq<Timed>, k: nat, name: string)
    requires k < |history|
  {
    var p := Run(cfg, history[..k]);
    name in p.services ==> Traffic(p, cfg, history[k].op, history[k].at, name)
  }

  /** One step of traffic, in terms of the run. */
  lemma TrafficAt(cfg: Config, history: seq<Timed>, k: nat, name: string)
    requires ValidConfig(cfg) && k < |history| && QuietAt(cfg, history, k, name) && WeightedAt(cfg, history, k, name)
    ensures WeightedAt(cfg, history, k + 1, name)
    ensures var bs, after := BackendsAt(cfg, history, k, name), BackendsAt(cfg, history, k + 1, name);
      && SameAddresses(bs, after) && DistinctAddresses(bs)
      && if OpensAt(cfg, history, k, name) then
           && Turn(bs).1 < |bs| && SameShares(Turn(bs).0, after)
           && OpensTo(cfg, history, k, name, bs[Turn(bs).1].host, bs[Turn(bs).1].port)
         else SameShares(bs, after)
  {
    hide Run; hide Step; hide Turn; hide Invariant; hide Opens; hide Traffic;
    var p := Run(cfg, history[..k]);
    AlwaysInvariant(cfg, history[..k]);
    RunStep(cfg, history, k);
    TrafficStep(p, cfg, history[k].op, history[k].at, name);
    InvariantDistinct(p, name);
  }

  lemma InvariantDistinct(p: Pool, name: string)
    requires Invariant(p) && name in p.services
    ensures DistinctAddresses(p.services[name].backends)
  {
    assert ServiceOk(p.connections, name, p.services[name], {});
  }

  /**
   The pools a service's balancer saw when it opened connections between two points of a run,
   followed by the pool at the end.
   */
  ghost function Openings(cfg: Config, history: seq<Timed>, i: nat, j: nat, name: string): (pools: seq<seq<Backend>>)
    requires i <= j <= |history|
    ensures pools != []
  {
    var now := BackendsAt(cfg, history, j, name);
    if i == j then [now]
    else
      var before := Openings(cfg, history, i, j - 1, name);
      (if OpensAt(cfg, history, j - 1, name) then before else before[..|before| - 1]) + [now]
  }

  /** How many connections were opened for a service between two points of a run. */
  ghost function Opened(cfg: Config, history: seq<Timed>, i: nat, j: nat, name: string): nat
    requires i <= j <= |history|
  {
    if i == j then 0
    else Opened(cfg, history, i, j - 1, name) + if OpensAt(cfg, history, j - 1, name) then 1 else 0
  }

  /** How many of them lead to an address. */
  ghost function OpenedTo(cfg: Config, history: seq<Timed>, i: nat, j: nat, name: string, host: string, port: nat): nat
    requires i <= j <= |history|
  {
    if i == j then 0
    else
      OpenedTo(cfg, history, i, j - 1, name, host, port)
      + if OpensTo(cfg, history, j - 1, name, host, port) then 1 else 0
  }

  lemma RotationExtended(pools: seq<seq<Backend>>, next: seq<Backend>)
    requires pools != [] && Rotation(pools)
    ensures SameShares(Turn(pools[|pools| - 1]).0, next) ==> Rotation(pools + [next])
    ensures SameShares(pools[|pools| - 1], next) ==> Rotation(pools[..|pools| - 1] + [next])
  {
    hide Turn;
    var last := |pools| - 1;
    if SameShares(pools[last], next) {
      var moved := pools[..last] + [next];
      forall t | 0 <= t < |moved| - 1 ensures SameShares(Turn(moved[t]).0, moved[t + 1]) {
        if t + 1 == last {
          SameSharesTransitive(Turn(pools[t]).0, pools[last], next);
        }
      }
    }
  }

  lemma OneRotation(bs: seq<Backend>)
    ensures Rotation([bs])
  {
  }

  /** Over any stretch of lease traffic the openings of a service form one rotation of its balancer. */
  lemma {:induction false} TrafficIsRotation(cfg: Config, history: seq<Timed>, i: nat, j: nat, name: string)
    requires Stretch(cfg, history, i, j, name)
    ensures WeightedAt(cfg, history, j, name)
    ensures SameAddresses(BackendsAt(cfg, history, i, name), BackendsAt(cfg, history, j, name))
    ensures var pools := Openings(cfg, history, i, j, name);
      && Rotation(pools)
      && |pools| == Opened(cfg, history, i, j, name) + 1
      && pools[|pools| - 1] == BackendsAt(cfg, history, j, name)
      && SameShares(pools[0], BackendsAt(cfg, history, i, name))
    decreases j
  {
    hide BackendsAt; hide QuietAt; hide WeightedAt; hide Turn; hide OpensAt; hide Rotation; hide OpensTo;
    if i == j {
      OneRotation(BackendsAt(cfg, history, j, name));
    } else {
      TrafficIsRotation(cfg, history, i, j - 1, name);
      TrafficAt(cfg, history, j - 1, name);
      RotationExtended(Openings(cfg, history, i, j - 1, name), BackendsAt(cfg, history, j, name));
    }
  }

  lemma {:induction false} PicksOfPrefix(a: seq<seq<Backend>>, b: seq<seq<Backend>>, i: nat, t: nat)
    requires t <= |a| && t <= |b| && a[..t] == b[..t]
    ensures Picks(a, i, t) == Picks(b, i, t)
  {
    hide Turn;
    if t > 0 {
      assert a[..t - 1] == a[..t][..t - 1] && b[..t - 1] == b[..t][..t - 1];
      assert a[t - 1] == a[..t][t - 1] && b[t - 1] == b[..t][t - 1];
      PicksOfPrefix(a, b, i, t - 1);
    }
  }

  lemma OnlyAt(bs: seq<Backend>, i: nat, j: nat)
    requires DistinctAddresses(bs) && i < |bs| && j < |bs|
    ensures At(bs[i], bs[j].host, bs[j].port) <==> i == j
  {
    assert i < j ==> !At(bs[j], bs[i].host, bs[i].port);
    assert j < i ==> !At(bs[i], bs[j].host, bs[j].port);
  }

  lemma OpensToOne(cfg: Config, history: seq<Timed>, k: nat, name: string, host: string, port: nat, host': string,
      port': nat)
    requires k < |history| && OpensTo(cfg, history, k, name, host, port)
    ensures OpensTo(cfg, history, k, name, host', port') <==> host == host' && port == port'
  {
    hide Run; hide Step;
  }

  lemma OpensToOpens(cfg: Config, history: seq<Timed>, k: nat, name: string, host: string, port: nat)
    requires k < |history| && OpensTo(cfg, history, k, name, host, port)
    ensures OpensAt(cfg, history, k, name)
  {
    hide Run; hide Step;
  }

  /** The balancer's picks of an index are the connections opened to that backend's address. */
  lemma {:induction false} PicksAreOpenings(cfg: Config, history: seq<Timed>, i: nat, j: nat, name: string, b: nat)
    requires Stretch(cfg, history, i, j, name) && b < |BackendsAt(cfg, history, i, name)|
    ensures var bs, pools := BackendsAt(cfg, history, i, name), Openings(cfg, history, i, j, name);
      Picks(pools, b, |pools| - 1) == OpenedTo(cfg, history, i, j, name, bs[b].host, bs[b].port)
    decreases j
  {
    hide BackendsAt; hide QuietAt; hide WeightedAt; hide Turn; hide OpensAt; hide Rotation; hide OpensTo;
    if i < j {
      PicksAreOpenings(cfg, history, i, j - 1, name, b);
      TrafficIsRotation(cfg, history, i, j - 1, name);
      TrafficAt(cfg, history, j - 1, name);
      var first, bs := BackendsAt(cfg, history, i, name), BackendsAt(cfg, history, j - 1, name);
      var before, pools := Openings(cfg, history, i, j - 1, name), Openings(cfg, history, i, j, name);
      var n := |before| - 1;
      assert pools[..n] == before[..n];
      PicksOfPrefix(before, pools, b, n);
      if OpensAt(cfg, history, j - 1, name) {
        var picked := bs[Turn(bs).1];
        assert pools[n] == bs;
        OnlyAt(bs, Turn(bs).1, b);
        OpensToOne(cfg, history, j - 1, name, picked.host, picked.port, first[b].host, first[b].port);
      } else if OpensTo(cfg, history, j - 1, name, first[b].host, first[b].port) {
        OpensToOpens(cfg, history, j - 1, name, first[b].host, first[b].port);
      }
    }
  }

  /**
   Exact fairness over a run: once a stretch of lease traffic that starts from zero weights has opened a
   whole number of rounds of connections for a service, each healthy backend has received exactly its
   weight's worth of them per round, and all weights are back at zero.
   */
  lemma TrafficExactlyFair(cfg: Config, history: seq<Timed>, i: nat, j: nat, name: string, rounds: nat, b: nat)
    requires Stretch(cfg, history, i, j, name)
    requires var bs := BackendsAt(cfg, history, i, name); Fresh(bs) && b < |bs| && bs[b].healthy
    requires Opened(cfg, history, i, j, name) == rounds * TotalWeight(BackendsAt(cfg, history, i, name))
    ensures var bs := BackendsAt(cfg, history, i, name);
      OpenedTo(cfg, history, i, j, name, bs[b].host, bs[b].port) == rounds * EffectiveWeight(bs[b])
    ensures Fresh(BackendsAt(cfg, history, j, name))
  {
    hide BackendsAt; hide QuietAt; hide WeightedAt; hide Openings; hide Rotation; hide Turn; hide Picks; hide OpenedTo;
    var bs, pools := BackendsAt(cfg, history, i, name), Openings(cfg, history, i, j, name);
    TrafficIsRotation(cfg, history, i, j, name);
    PicksAreOpenings(cfg, history, i, j, name, b);
    SameSharesSameSums(pools[0], bs);
    ExactlyFair(pools, rounds, |pools| - 1, b);
  }

  /** At every moment of such a stretch, no healthy backend has received a whole connection more than its share. */
  lemma TrafficNeverAhead(cfg: Config, history: seq<Timed>, i: nat, j: nat, name: string, b: nat)
    requires Stretch(cfg, history, i, j, name)
    requires var bs := BackendsAt(cfg, history, i, name); Fresh(bs) && b < |bs| && bs[b].healthy
    ensures var bs := BackendsAt(cfg, history, i, name);
      OpenedTo(cfg, history, i, j, name, bs[b].host, bs[b].port) * TotalWeight(bs)
      < Opened(cfg, history, i, j, name) * EffectiveWeight(bs[b]) + TotalWeight(bs)
  {
    hide BackendsAt; hide QuietAt; hide WeightedAt; hide Openings; hide Rotation; hide Turn; hide Picks; hide OpenedTo;
    var bs, pools := BackendsAt(cfg, history, i, name), Openings(cfg, history, i, j, name);
    TrafficIsRotation(cfg, history, i, j, name);
    PicksAreOpenings(cfg, history, i, j, name, b);
    SameSharesSameSums(pools[0], bs);
    NeverAheadOfShare(pools, b, |pools| - 1);
  }
}
