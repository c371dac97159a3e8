/**
 The state of the service connection manager and what each of its operations does to it.

 Every public operation of the manager runs under one mutex, so it is one step of this state
 machine. Time, the random draw and the affinity hash are inputs.
 */
module ServicePool {
  import opened Balancer
  import Breaker

  type Id = nat

  datatype Strategy = RoundRobin | Random | LeastConnections | WeightedRoundRobin | IPHash

  datatype Connection = Connection(service: string, host: string, port: nat, created: int, lastUsed: int, active: bool)

  datatype Service = Service(
    backends: seq<Backend>,
    idle: seq<Id>,
    strategy: Strategy,
    breaker: Breaker.Breaker,
    cursor: nat,
    maxPool: nat,
    total: nat)

  datatype Pool = Pool(connections: map<Id, Connection>, services: map<string, Service>, nextId: Id)

  /** `maxConnections` is clamped to at least one when the configuration is read. */
  datatype Config = Config(policy: Breaker.Policy, idleTimeout: int, maxConnections: nat, strategy: Strategy)

  predicate ValidConfig(cfg: Config) {
    Breaker.ValidPolicy(cfg.policy) && cfg.maxConnections >= 1
  }

  const EMPTY := Pool(map[], map[], 1)
  const NO_SERVICE := Service([], [], RoundRobin, Breaker.FRESH, 0, 0, 0)

  function SetService(p: Pool, name: string, s: Service): Pool {
    p.(services := p.services[name := s])
  }

  /** `ensureServiceStateLocked` */
  function Ensure(p: Pool, cfg: Config, name: string): Pool {
    var s := if name in p.services then p.services[name] else NO_SERVICE;
    SetService(p, name, if s.maxPool == 0 then s.(maxPool := cfg.maxConnections, strategy := cfg.strategy) else s)
  }

  // ---------------------------------------------------------------- lists

  /** The list without the members of `gone`, in order. */
  function Without(ids: seq<Id>, gone: set<Id>): (r: seq<Id>)
    ensures |r| <= |ids|
    ensures forall id :: id in r <==> id in ids && id !in gone
  {
    if ids == [] then []
    else
      var last := |ids| - 1;
      Without(ids[..last], gone) + if ids[last] in gone then [] else [ids[last]]
  }

  predicate At(b: Backend, host: string, port: nat) {
    b.host == host && b.port == port
  }

  /** Index of the first backend at an address, or `|bs|`. */
  function FindBackend(bs: seq<Backend>, host: string, port: nat): (k: nat)
    ensures k <= |bs|
    ensures k < |bs| ==> At(bs[k], host, port)
    ensures forall i :: 0 <= i < k ==> !At(bs[i], host, port)
  {
    if bs == [] then 0 else if At(bs[0], host, port) then 0 else 1 + FindBackend(bs[1..], host, port)
  }

  /** The backends not at an address, in order. */
  function DropBackend(bs: seq<Backend>, host: string, port: nat): (r: seq<Backend>)
    ensures forall b :: b in r <==> b in bs && !At(b, host, port)
  {
    if bs == [] then []
    else
      var last := |bs| - 1;
      DropBackend(bs[..last], host, port) + if At(bs[last], host, port) then [] else [bs[last]]
  }

  /** Leases counted for a service: `getActiveConnectionCountLocked`. */
  function ActiveSum(bs: seq<Backend>): nat {
    if bs == [] then 0 else ActiveSum(bs[..|bs| - 1]) + bs[|bs| - 1].active
  }

  // ---------------------------------------------------------------- selection

  /** Indices of the healthy backends, in order. */
  function HealthyIndices(bs: seq<Backend>): (r: seq<nat>)
    ensures forall i :: i in r <==> 0 <= i < |bs| && bs[i].healthy
    ensures forall i :: i in r ==> i < |bs|
  {
    if bs == [] then []
    else
      var last := |bs| - 1;
      HealthyIndices(bs[..last]) + if bs[last].healthy then [last] else []
  }

  predicate LessLoaded(a: Backend, b: Backend) {
    if a.active == b.active then a.weight > b.weight else a.active < b.active
  }

  /**
   First healthy backend with the fewest active connections, ties going to the heavier one; `|bs|` if none is
   healthy.
   */
  function LeastLoaded(bs: seq<Backend>): (k: nat)
    ensures k <= |bs|
    ensures k < |bs| ==> bs[k].healthy
    ensures forall i :: 0 <= i < |bs| && bs[i].healthy ==> k < |bs| && !LessLoaded(bs[i], bs[k])
    ensures forall i :: 0 <= i < k < |bs| && bs[i].healthy ==> LessLoaded(bs[k], bs[i])
  {
    if bs == [] then 0
    else
      var last := |bs| - 1;
      var k := LeastLoaded(bs[..last]);
      assert k < last ==> bs[..last][k] == bs[k];
      assert forall i :: 0 <= i < last ==> bs[..last][i] == bs[i];
      if bs[last].healthy && (k == last || LessLoaded(bs[last], bs[k])) then last
      else if k == last then |bs| else k
  }

  /**
   `selectBackendLocked`: the service afterwards and the index of a healthy backend, or `|s.backends|` if there
   is none.
   */
  function Select(s: Service, keyed: bool, draw: nat): (r: (Service, nat))
    ensures |r.0.backends| == |s.backends| && r.1 <= |s.backends|
    ensures r.1 < |s.backends| <==> exists i :: 0 <= i < |s.backends| && s.backends[i].healthy
    ensures r.1 < |s.backends| ==> s.backends[r.1].healthy
    ensures r.0 == s.(backends := r.0.backends, cursor := r.0.cursor)
    ensures forall i :: 0 <= i < |s.backends| ==> r.0.backends[i] == s.backends[i].(current := r.0.backends[i].current)
  {
    var healthy := HealthyIndices(s.backends);
    if healthy == [] then
      assert forall i :: 0 <= i < |s.backends| && s.backends[i].healthy ==> i in healthy;
      (s, |s.backends|)
    else
      assert healthy[0] in healthy;
      match s.strategy
      case Random => (s, Indexed(healthy, draw))
      case LeastConnections => (s, LeastLoaded(s.backends))
      case WeightedRoundRobin =>
        LeaderIsGreatest(RaiseAll(s.backends), healthy[0]);
        var (backends, k) := Turn(s.backends);
        (s.(backends := backends), k)
      case IPHash =>
        if keyed then (s, Indexed(healthy, draw))
        else (s.(cursor := s.cursor + 1), Indexed(healthy, s.cursor))
      case RoundRobin => (s.(cursor := s.cursor + 1), Indexed(healthy, s.cursor))
  }

  function Indexed(indices: seq<nat>, n: nat): (k: nat)
    requires indices != []
    ensures k in indices
  {
    indices[n % |indices|]
  }

  // ---------------------------------------------------------------- connections

  /** `createConnectionLocked` for the backend at index `k` */
  function Create(p: Pool, name: string, k: nat, now: int): Pool
    requires name in p.services && k < |p.services[name].backends|
  {
    var s := p.services[name];
    var b := s.backends[k];
    Pool(
      p.connections[p.nextId := Connection(name, b.host, b.port, now, now, true)],
      p.services[name := s.(backends := AddLease(s.backends, k), total := s.total + 1)],
      p.nextId + 1)
  }

  /** `removeConnectionLocked` */
  function RemoveConnection(p: Pool, id: Id): Pool
    requires id in p.connections
  {
    var c := p.connections[id];
    var rest := p.(connections := p.connections - {id});
    if c.service !in p.services then rest
    else
      SetService(rest, c.service, ForgetConnection(p.services[c.service], id, c))
  }

  function ForgetConnection(s: Service, id: Id, c: Connection): Service {
    var k := FindBackend(s.backends, c.host, c.port);
    s.(idle := Without(s.idle, {id}),
       backends := if k < |s.backends| && c.active then Lower(s.backends, k) else s.backends,
       total := if s.total > 0 then s.total - 1 else 0)
  }

  /** One lease fewer on backend `k`, never below zero. */
  function Lower(bs: seq<Backend>, k: nat): seq<Backend>
    requires k < |bs|
  {
    if bs[k].active > 0 then bs[k := bs[k].(active := bs[k].active - 1)] else bs
  }

  /** Those of `ids` that are connections of a service. */
  function Own(connections: map<Id, Connection>, ids: set<Id>, name: string): set<Id> {
    set id | id in ids && id in connections && connections[id].service == name
  }

  function PurgeService(s: Service, own: set<Id>): Service {
    s.(idle := Without(s.idle, own), total := if s.total > |own| then s.total - |own| else 0)
  }

  /** Removal of a whole set of idle connections at once. */
  function Purge(p: Pool, ids: set<Id>): Pool {
    p.(connections := p.connections - ids,
       services := map name | name in p.services :: PurgeService(p.services[name], Own(p.connections, ids, name)))
  }

  /** Ids of the idle connections of a service to an address. */
  function IdleAt(connections: map<Id, Connection>, name: string, host: string, port: nat): set<Id> {
    set id | id in connections && connections[id].service == name && connections[id].host == host
             && connections[id].port == port && !connections[id].active
  }

  predicate Expired(c: Connection, timeout: int, now: int) {
    !c.active && timeout != 0 && now - c.lastUsed > timeout
  }

  /** `pruneIdleConnectionsLocked` */
  function Prune(s: Service, connections: map<Id, Connection>): Service {
    s.(idle := Without(s.idle, set id | id in s.idle && (id !in connections || connections[id].active)))
  }

  /** The search for a reusable connection in `acquireConnection`; zero when the idle list runs out. */
  function TakeIdle(p: Pool, name: string, timeout: int, now: int): (r: (Pool, Id))
    requires name in p.services
    ensures name in r.0.services
    decreases |p.services[name].idle|
  {
    var s := p.services[name];
    if s.idle == [] then (p, 0)
    else
      var id := s.idle[0];
      var popped := SetService(p, name, s.(idle := s.idle[1..]));
      if id !in p.connections || p.connections[id].active then TakeIdle(popped, name, timeout, now)
      else
        var c := p.connections[id];
        if timeout > 0 && now - c.lastUsed > timeout then
          TakeIdle(RemoveConnection(popped, id), name, timeout, now)
        else
          var taken := popped.(connections := p.connections[id := c.(active := true, lastUsed := now)]);
          var k := FindBackend(s.backends, c.host, c.port);
          if k == |s.backends| || !s.backends[k].healthy then
            TakeIdle(RemoveConnection(taken, id), name, timeout, now)
          else
            (SetService(taken, name, popped.services[name].(backends := AddLease(s.backends, k))), id)
  }

  function AddLease(bs: seq<Backend>, k: nat): seq<Backend>
    requires k < |bs|
  {
    bs[k := bs[k].(active := bs[k].active + 1)]
  }

  // ---------------------------------------------------------------- operations

  /** `acquireConnection`; zero when no lease is granted */
  function Acquire(p: Pool, cfg: Config, name: string, keyed: bool, draw: nat, now: int): (Pool, Id) {
    if name == "" then (p, 0)
    else
      var ready := Ensure(p, cfg, name);
      var s := ready.services[name];
      var probed := SetService(ready, name, s.(breaker := Breaker.Probe(s.breaker, cfg.policy, now)));
      if !Breaker.Admits(s.breaker, cfg.policy, ActiveSum(s.backends), now) then (probed, 0)
      else Lease(probed, name, cfg.idleTimeout, keyed, draw, now)
  }

  /** The part of `acquireConnection` behind the breaker: reuse an idle connection, or else open a new one. */
  function Lease(p: Pool, name: string, timeout: int, keyed: bool, draw: nat, now: int): (Pool, Id)
    requires name in p.services
  {
    var (after, id) := TakeIdle(p, name, timeout, now);
    if id != 0 then (after, id) else Grow(after, name, keyed, draw, now)
  }

  /** A new connection to a selected backend, if the pool has room and a backend is healthy. */
  function Grow(p: Pool, name: string, keyed: bool, draw: nat, now: int): (Pool, Id)
    requires name in p.services
  {
    if p.services[name].total >= p.services[name].maxPool then (p, 0)
    else
      var (selected, k) := Select(p.services[name], keyed, draw);
      if k == |selected.backends| then (p, 0)
      else (Create(SetService(p, name, selected), name, k, now), p.nextId)
  }

  /** `releaseConnection` */
  function Release(p: Pool, id: Id, now: int): Pool {
    if id !in p.connections || !p.connections[id].active then p
    else
      var c := p.connections[id];
      if c.service !in p.services then RemoveConnection(p, id)
      else
        var s := p.services[c.service];
        var k := FindBackend(s.backends, c.host, c.port);
        if k == |s.backends| || !s.backends[k].healthy then RemoveConnection(p, id)
        else
          SetService(p, c.service, s.(idle := s.idle + [id], backends := Lower(s.backends, k)))
            .(connections := p.connections[id := c.(active := false, lastUsed := now)])
  }

  /** `closeConnection` */
  function Close(p: Pool, id: Id): Pool {
    if id in p.connections then RemoveConnection(p, id) else p
  }

  function AtLeastOne(weight: int): (w: int)
    ensures w >= 1
  {
    if weight < 1 then 1 else weight
  }

  /** `addBackendServer` */
  function AddBackend(p: Pool, cfg: Config, name: string, host: string, port: nat, weight: int): Pool {
    if name == "" || host == "" || port == 0 then p
    else
      var ready := Ensure(p, cfg, name);
      var s := ready.services[name];
      var k := FindBackend(s.backends, host, port);
      SetService(ready, name, s.(backends :=
        if k < |s.backends| then
          s.backends[k := s.backends[k].(weight := AtLeastOne(weight), healthy := true, current := 0)]
        else s.backends + [Backend(host, port, AtLeastOne(weight), true, 0, 0, 0, 0)]))
  }

  /** `removeBackendServer` */
  function RemoveBackend(p: Pool, name: string, host: string, port: nat): Pool {
    if name !in p.services then p
    else
      var s := p.services[name];
      var backends := DropBackend(s.backends, host, port);
      var cursor := if s.cursor >= |backends| > 0 then s.cursor % |backends| else s.cursor;
      Purge(SetService(p, name, s.(backends := backends, cursor := cursor)), IdleAt(p.connections, name, host, port))
  }

  /** `updateBackendWeight` */
  function UpdateWeight(p: Pool, name: string, host: string, port: nat, weight: int): Pool {
    if name !in p.services then p
    else
      var s := p.services[name];
      var k := FindBackend(s.backends, host, port);
      if k == |s.backends| then p
      else SetService(p, name, s.(backends := s.backends[k := s.backends[k].(weight := AtLeastOne(weight),
        current := 0)]))
  }

  /** `applyBackendStatus` */
  function WithStatus(b: Backend, success: bool, threshold: nat, now: int): Backend {
    if success then b.(failures := 0, healthy := true, current := 0)
    else
      var counted := b.(failures := b.failures + 1, lastFailure := now);
      if counted.failures >= threshold then counted.(healthy := false, current := 0) else counted
  }

  function ReportTo(s: Service, host: string, port: nat, success: bool, threshold: nat, now: int): Service {
    var k := FindBackend(s.backends, host, port);
    if k == |s.backends| then s
    else s.(backends := s.backends[k := WithStatus(s.backends[k], success, threshold, now)])
  }

  /** Whether a report turns the healthy backend of a service at an address unhealthy. */
  predicate FallsSick(s: Service, host: string, port: nat, success: bool, threshold: nat) {
    var k := FindBackend(s.backends, host, port);
    k < |s.backends| && s.backends[k].healthy && !success && s.backends[k].failures + 1 >= threshold
  }

  /** Both forms of `reportBackendStatus`: `scope` is one service or all of them. */
  function ReportStatus(p: Pool, scope: set<string>, host: string, port: nat, success: bool, threshold: nat,
      now: int): Pool {
    Purge(WithReports(p, scope, host, port, success, threshold, now), Doomed(p, scope, host, port, success, threshold))
  }

  function WithReports(p: Pool, scope: set<string>, host: string, port: nat, success: bool, threshold: nat,
      now: int): Pool {
    p.(services := map name | name in p.services ::
      if name in scope then ReportTo(p.services[name], host, port, success, threshold, now) else p.services[name])
  }

  /** The idle connections lost to a status report. */
  function Doomed(p: Pool, scope: set<string>, host: string, port: nat, success: bool, threshold: nat): set<Id> {
    set id | id in p.connections && p.connections[id].service in scope && p.connections[id].service in p.services
             && FallsSick(p.services[p.connections[id].service], host, port, success, threshold)
             && id in IdleAt(p.connections, p.connections[id].service, host, port)
  }

  /** Both forms of `reportExecution` */
  function ReportExecution(p: Pool, cfg: Config, scope: set<string>, success: bool, now: int): Pool {
    p.(services := map name | name in p.services ::
      if cfg.policy.enabled && name in scope
      then p.services[name].(breaker := Breaker.Report(p.services[name].breaker, success, cfg.policy, now))
      else p.services[name])
  }

  /** `cleanupExpiredConnectionsLocked` */
  function CleanupExpired(p: Pool, timeout: int, now: int): Pool {
    var kept := Purge(p, set id | id in p.connections && Expired(p.connections[id], timeout, now));
    kept.(services := map name | name in kept.services :: Prune(kept.services[name], kept.connections))
  }

  function Recover(b: Backend, recovery: int, now: int): Backend {
    if !b.healthy && (recovery == 0 || now - b.lastFailure >= recovery)
    then b.(healthy := true, failures := 0, current := 0) else b
  }

  function RecoverAll(bs: seq<Backend>, recovery: int, now: int): (r: seq<Backend>)
    ensures |r| == |bs| && forall i :: 0 <= i < |bs| ==> r[i] == Recover(bs[i], recovery, now)
  {
    seq(|bs|, i requires 0 <= i < |bs| => Recover(bs[i], recovery, now))
  }

  /** `performHealthCheckLocked` on one service */
  function CheckService(s: Service, connections: map<Id, Connection>, policy: Breaker.Policy, now: int): Service {
    Prune(s.(breaker := Breaker.Sweep(s.breaker, policy, now),
      backends := RecoverAll(s.backends, policy.recovery, now)),
          connections)
  }

  /** One round of the maintenance thread */
  function Maintain(p: Pool, cfg: Config, now: int): Pool {
    var kept := CleanupExpired(p, cfg.idleTimeout, now);
    kept.(services := map name | name in kept.services ::
      CheckService(kept.services[name], kept.connections, cfg.policy, now))
  }

  /** `cleanup`: ids are not reused afterwards */
  function Clear(p: Pool): Pool {
    Pool(map[], map[], p.nextId)
  }

  // ---------------------------------------------------------------- runs

  datatype Op =
    | AcquireOp(service: string, keyed: bool, draw: nat)
    | ReleaseOp(id: Id)
    | CloseOp(id: Id)
    | AddOp(service: string, host: string, port: nat, weight: int)
    | RemoveOp(service: string, host: string, port: nat)
    | WeightOp(service: string, host: string, port: nat, weight: int)
    | StrategyOp(service: string, strategy: Strategy)
    | StatusOp(service: string, host: string, port: nat, success: bool)
    | StatusAllOp(host: string, port: nat, success: bool)
    | ExecutionOp(service: string, success: bool)
    | ExecutionAllOp(success: bool)
    | MaintainOp
    | ClearOp

  /** The pool after one operation and the id it returned, zero for operations that return none. */
  function Step(p: Pool, cfg: Config, op: Op, now: int): (Pool, Id) {
    match op
    case AcquireOp(name, keyed, draw) => Acquire(p, cfg, name, keyed, draw, now)
    case ReleaseOp(id) => (Release(p, id, now), 0)
    case CloseOp(id) => (Close(p, id), 0)
    case AddOp(name, host, port, weight) => (AddBackend(p, cfg, name, host, port, weight), 0)
    case RemoveOp(name, host, port) => (RemoveBackend(p, name, host, port), 0)
    case WeightOp(name, host, port, weight) => (UpdateWeight(p, name, host, port, weight), 0)
    case StrategyOp(name, strategy) =>
      var ready := Ensure(p, cfg, name);
      (SetService(ready, name, ready.services[name].(strategy := strategy)), 0)
    case StatusOp(name, host, port, success) =>
      (if name == "" || host == "" || port == 0 || name !in p.services then p
       else ReportStatus(p, {name}, host, port, success, cfg.policy.threshold, now), 0)
    case StatusAllOp(host, port, success) =>
      (if host == "" || port == 0 then p
       else ReportStatus(p, p.services.Keys, host, port, success, cfg.policy.threshold, now), 0)
    case ExecutionOp(name, success) => (ReportExecution(p, cfg, {name}, success, now), 0)
    case ExecutionAllOp(success) => (ReportExecution(p, cfg, p.services.Keys, success, now), 0)
    case MaintainOp => (Maintain(p, cfg, now), 0)
    case ClearOp => (Clear(p), 0)
  }

  datatype Timed = Timed(op: Op, at: int)

  /** The pool after a whole history, started empty. */
  function Run(cfg: Config, history: seq<Timed>): Pool {
    if history == [] then EMPTY
    else
      var last := history[|history| - 1];
      Step(Run(cfg, history[..|history| - 1]), cfg, last.op, last.at).0
  }

  /** The id returned by step `i` of a history. */
  function Result(cfg: Config, history: seq<Timed>, i: nat): Id
    requires i < |history|
  {
    Step(Run(cfg, history[..i]), cfg, history[i].op, history[i].at).1
  }
}
