/**
 The connection manager as an object: its two tables updated in place, operation by operation, with
 the loops of the source. Each method's effect is the corresponding step of `ServicePool`.
 */
module ConnectionManager {
  import opened Balancer
  import opened ServicePool
  import opened PoolInvariant
  import opened PoolSteps
  import Breaker

  // ---------------------------------------------------------------- loops over lists

  method FindIndex(bs: seq<Backend>, host: string, port: nat) returns (k: nat)
    ensures k == FindBackend(bs, host, port)
  {
    k := 0;
    while k < |bs| && !At(bs[k], host, port)
      invariant k <= |bs| && forall i :: 0 <= i < k ==> !At(bs[i], host, port)
    {
      k := k + 1;
    }
  }

  method Erase(ids: seq<Id>, gone: set<Id>) returns (kept: seq<Id>)
    ensures kept == Without(ids, gone)
  {
    kept := [];
    var i := 0;
    while i < |ids|
      invariant 0 <= i <= |ids| && kept == Without(ids[..i], gone)
    {
      assert ids[..i + 1][..i] == ids[..i];
      if ids[i] !in gone {
        kept := kept + [ids[i]];
      }
      i := i + 1;
    }
    assert ids[..i] == ids;
  }

  method SumActive(bs: seq<Backend>) returns (sum: nat)
    ensures sum == ActiveSum(bs)
  {
    sum := 0;
    var i := 0;
    while i < |bs|
      invariant 0 <= i <= |bs| && sum == ActiveSum(bs[..i])
    {
      assert bs[..i + 1][..i] == bs[..i];
      sum := sum + bs[i].active;
      i := i + 1;
    }
    assert bs[..i] == bs;
  }

  method CollectHealthy(bs: seq<Backend>) returns (healthy: seq<nat>)
    ensures healthy == HealthyIndices(bs)
  {
    healthy := [];
    var i := 0;
    while i < |bs|
      invariant 0 <= i <= |bs| && healthy == HealthyIndices(bs[..i])
    {
      assert bs[..i + 1][..i] == bs[..i];
      if bs[i].healthy {
        healthy := healthy + [i];
      }
      i := i + 1;
    }
    assert bs[..i] == bs;
  }

  method FewestActive(bs: seq<Backend>) returns (best: nat)
    ensures best == LeastLoaded(bs)
  {
    best := |bs|;
    var i := 0;
    while i < |bs|
      invariant 0 <= i <= |bs|
      invariant best == if LeastLoaded(bs[..i]) == i then |bs| else LeastLoaded(bs[..i])
    {
      assert bs[..i + 1][..i] == bs[..i];
      if bs[i].healthy && (best == |bs| || LessLoaded(bs[i], bs[best])) {
        best := i;
      }
      i := i + 1;
    }
    assert bs[..i] == bs;
  }

  method SelectBackend(s: Service, keyed: bool, draw: nat) returns (after: Service, k: nat)
    ensures (after, k) == Select(s, keyed, draw)
  {
    after, k := s, |s.backends|;
    var healthy := CollectHealthy(s.backends);
    if healthy == [] {
      return;
    }
    match s.strategy
    case Random =>
      k := healthy[draw % |healthy|];
    case LeastConnections =>
      k := FewestActive(s.backends);
    case WeightedRoundRobin =>
      var backends, best := SelectWeighted(s.backends);
      after, k := s.(backends := backends), best;
    case IPHash =>
      if keyed {
        k := healthy[draw % |healthy|];
      } else {
        after, k := s.(cursor := s.cursor + 1), healthy[s.cursor % |healthy|];
      }
    case RoundRobin =>
      after, k := s.(cursor := s.cursor + 1), healthy[s.cursor % |healthy|];
  }

  // ---------------------------------------------------------------- removal one by one, in any order

  lemma {:induction false} WithoutTwice(ids: seq<Id>, a: set<Id>, b: set<Id>)
    ensures Without(Without(ids, a), b) == Without(ids, a + b)
  {
    if ids != [] {
      var last := |ids| - 1;
      var rest := Without(ids[..last], a);
      WithoutTwice(ids[..last], a, b);
      if ids[last] in a {
        assert Without(ids, a) == rest;
      } else {
        var kept := rest + [ids[last]];
        assert Without(ids, a) == kept && kept[|rest|] == ids[last] && kept[..|rest|] == rest;
      }
    }
  }

  lemma PurgeNothing(p: Pool)
    ensures Purge(p, {}) == p
  {
    forall name | name in p.services
      ensures PurgeService(p.services[name], Own(p.connections, {}, name)) == p.services[name]
    {
      assert Own(p.connections, {}, name) == {};
      WithoutNothing(p.services[name].idle, {});
    }
    assert Purge(p, {}).services == p.services;
    assert p.connections - {} == p.connections;
  }

  lemma PurgeServiceMore(s: Service, own: set<Id>, id: Id, c: Connection)
    requires id !in own && !c.active
    ensures ForgetConnection(PurgeService(s, own), id, c) == PurgeService(s, own + {id})
  {
    WithoutTwice(s.idle, own, {id});
  }

  /** Removing one more idle connection extends the set that is gone. */
  lemma PurgeMore(p: Pool, ids: set<Id>, id: Id)
    requires id in p.connections && id !in ids && !p.connections[id].active && p.connections[id].service in p.services
    ensures id in Purge(p, ids).connections
    ensures RemoveConnection(Purge(p, ids), id) == Purge(p, ids + {id})
  {
    PurgeMoreOutside(p, ids, id);
    var a, b := RemoveConnection(Purge(p, ids), id), Purge(p, ids + {id});
    hide RemoveConnection; hide Purge;
    forall name | name in p.services ensures a.services[name] == b.services[name] {
      PurgeMoreOf(p, ids, id, name);
    }
    assert a.services == b.services;
  }

  lemma PurgeMoreOutside(p: Pool, ids: set<Id>, id: Id)
    requires id in p.connections && id !in ids && p.connections[id].service in p.services
    ensures id in Purge(p, ids).connections
    ensures var a, b := RemoveConnection(Purge(p, ids), id), Purge(p, ids + {id});
      a.connections == b.connections && a.nextId == b.nextId && a.services.Keys == b.services.Keys == p.services.Keys
  {
    hide PurgeService; hide ForgetConnection; hide Own;
    assert p.connections - ids - {id} == p.connections - (ids + {id});
  }

  lemma PurgeMoreOf(p: Pool, ids: set<Id>, id: Id, name: string)
    requires id in p.connections && id !in ids && !p.connections[id].active && p.connections[id].service in p.services
    requires name in p.services
    ensures RemoveConnection(Purge(p, ids), id).services[name] == Purge(p, ids + {id}).services[name]
  {
    var c := p.connections[id];
    if name == c.service {
      assert Own(p.connections, ids + {id}, name) == Own(p.connections, ids, name) + {id};
      PurgeServiceMore(p.services[name], Own(p.connections, ids, name), id, c);
    } else {
      assert Own(p.connections, ids + {id}, name) == Own(p.connections, ids, name);
    }
  }

  lemma PurgedEntry(p: Pool, ids: set<Id>, id: Id)
    requires id in p.connections && id !in ids
    ensures id in Purge(p, ids).connections && Purge(p, ids).connections[id] == p.connections[id]
  {
  }

  // ---------------------------------------------------------------- the object

  class ConnectionManager {
    const cfg: Config
    var connections: map<Id, Connection>
    var services: map<string, Service>
    var nextId: Id

    ghost function State(): Pool
      reads this
    {
      Pool(connections, services, nextId)
    }

    ghost predicate Valid()
      reads this
    {
      ValidConfig(cfg) && Invariant(State())
    }

    constructor (cfg: Config)
      requires ValidConfig(cfg)
      ensures Valid() && this.cfg == cfg && State() == EMPTY
    {
      this.cfg := cfg;
      connections, services, nextId := map[], map[], 1;
    }

    method EnsureService(name: string)
      requires Valid()
      modifies this
      ensures Valid() && State() == Ensure(old(State()), cfg, name)
    {
      EnsureKeeps(State(), cfg, name);
      var s := if name in services then services[name] else NO_SERVICE;
      if s.maxPool == 0 {
        s := s.(maxPool := cfg.maxConnections, strategy := cfg.strategy);
      }
      services := services[name := s];
    }

    method Remove(id: Id)
      requires id in connections
      modifies this
      ensures State() == RemoveConnection(old(State()), id)
    {
      var c := connections[id];
      if c.service in services {
        var s := services[c.service];
        var idle := Erase(s.idle, {id});
        var k := FindIndex(s.backends, c.host, c.port);
        var backends := s.backends;
        if k < |backends| && c.active && backends[k].active > 0 {
          backends := backends[k := backends[k].(active := backends[k].active - 1)];
        }
        var total := if s.total > 0 then s.total - 1 else 0;
        services := services[c.service := s.(idle := idle, backends := backends, total := total)];
      }
      connections := connections - {id};
    }

    /** Walks the table and removes the idle connections of a service to an address. */
    method RemoveIdleAt(name: string, host: string, port: nat)
      requires forall id :: id in connections ==> connections[id].service in services
      modifies this
      ensures State() == Purge(old(State()), IdleAt(old(connections), name, host, port))
    {
      hide Purge; hide RemoveConnection;
      ghost var start := State();
      ghost var gone := {};
      PurgeNothing(start);
      var pending := connections.Keys;
      while pending != {}
        invariant pending <= start.connections.Keys
        invariant State() == Purge(start, gone)
        invariant gone == IdleAt(start.connections, name, host, port) - pending
        decreases pending
      {
        var id :| id in pending;
        pending := pending - {id};
        PurgedEntry(start, gone, id);
        var c := connections[id];
        if c.service == name && c.host == host && c.port == port && !c.active {
          PurgeMore(start, gone, id);
          Remove(id);
          gone := gone + {id};
        }
        assert gone == IdleAt(start.connections, name, host, port) - pending;
      }
      assert gone == IdleAt(start.connections, name, host, port);
    }

    method RemoveExpired(now: int)
      requires forall id :: id in connections ==> connections[id].service in services
      modifies this
      ensures State() == Purge(old(State()), set id | id in old(connections) &&
        Expired(old(connections)[id], cfg.idleTimeout, now))
    {
      hide Purge; hide RemoveConnection;
      ghost var start := State();
      ghost var expired := set id | id in connections && Expired(connections[id], cfg.idleTimeout, now);
      ghost var gone := {};
      PurgeNothing(start);
      var pending := connections.Keys;
      while pending != {}
        invariant pending <= start.connections.Keys
        invariant State() == Purge(start, gone)
        invariant gone == expired - pending
        decreases pending
      {
        var id :| id in pending;
        pending := pending - {id};
        PurgedEntry(start, gone, id);
        var c := connections[id];
        if !(c.active || cfg.idleTimeout == 0 || now - c.lastUsed <= cfg.idleTimeout) {
          PurgeMore(start, gone, id);
          Remove(id);
          gone := gone + {id};
        }
        assert gone == expired - pending;
      }
      assert gone == expired;
    }

    /** Pops idle connections until one can be reused; zero when none is left. */
    method ReuseIdle(name: string, now: int) returns (id: Id)
      requires name in services
      modifies this
      ensures name in services
      ensures (State(), id) == TakeIdle(old(State()), name, cfg.idleTimeout, now)
    {
      ghost var start := State();
      while services[name].idle != []
        invariant name in services
        invariant TakeIdle(State(), name, cfg.idleTimeout, now) == TakeIdle(start, name, cfg.idleTimeout, now)
        decreases |services[name].idle|
      {
        var s := services[name];
        id := s.idle[0];
        services := services[name := s.(idle := s.idle[1..])];
        if id !in connections || connections[id].active {
          continue;
        }
        var c := connections[id];
        if cfg.idleTimeout > 0 && now - c.lastUsed > cfg.idleTimeout {
          Remove(id);
          continue;
        }
        connections := connections[id := c.(active := true, lastUsed := now)];
        var k := FindIndex(s.backends, c.host, c.port);
        if k == |s.backends| || !s.backends[k].healthy {
          Remove(id);
          continue;
        }
        services := services[name := services[name].(backends := AddLease(s.backends, k))];
        return;
      }
      id := 0;
    }

    /** Opens a connection to a selected backend if the pool has room; zero otherwise. */
    method OpenConnection(name: string, keyed: bool, draw: nat, now: int) returns (id: Id)
      requires name in services
      modifies this
      ensures (State(), id) == Grow(old(State()), name, keyed, draw, now)
    {
      var s := services[name];
      if s.total >= s.maxPool {
        return 0;
      }
      var selected, k := SelectBackend(s, keyed, draw);
      if k == |s.backends| {
        return 0;
      }
      hide Select;
      id := nextId;
      var b := selected.backends[k];
      nextId := nextId + 1;
      connections := connections[id := Connection(name, b.host, b.port, now, now, true)];
      services := services[name := selected.(backends := AddLease(selected.backends, k), total := selected.total + 1)];
      assert services == old(services)[name := selected][name := services[name]];
    }

    method AcquireConnection(name: string, keyed: bool, draw: nat, now: int) returns (id: Id)
      requires Valid()
      modifies this
      ensures Valid() && (State(), id) == Acquire(old(State()), cfg, name, keyed, draw, now)
    {
      hide TakeIdle; hide Grow; hide Invariant; hide Breaker.Probe; hide Breaker.Admits;
      AcquireKeeps(State(), cfg, name, keyed, draw, now);
      if name == "" {
        return 0;
      }
      EnsureService(name);
      var s := services[name];
      var active := SumActive(s.backends);
      services := services[name := s.(breaker := Breaker.Probe(s.breaker, cfg.policy, now))];
      if !Breaker.Admits(s.breaker, cfg.policy, active, now) {
        return 0;
      }
      id := ReuseIdle(name, now);
      if id == 0 {
        id := OpenConnection(name, keyed, draw, now);
      }
    }

    method ReleaseConnection(id: Id, now: int)
      modifies this
      ensures State() == Release(old(State()), id, now)
      ensures old(Valid()) ==> Valid()
    {
      hide Invariant;
      if Valid() {
        ReleaseKeeps(State(), id, now);
      }
      if id !in connections || !connections[id].active {
        return;
      }
      var c := connections[id];
      if c.service !in services {
        Remove(id);
        return;
      }
      var s := services[c.service];
      var k := FindIndex(s.backends, c.host, c.port);
      if k == |s.backends| || !s.backends[k].healthy {
        Remove(id);
        return;
      }
      connections := connections[id := c.(active := false, lastUsed := now)];
      services := services[c.service := s.(idle := s.idle + [id], backends := Lower(s.backends, k))];
    }

    method CloseConnection(id: Id)
      requires Valid()
      modifies this
      ensures Valid() && State() == Close(old(State()), id)
    {
      if id in connections {
        RemoveConnectionKeeps(State(), id);
        Remove(id);
      }
    }

    method AddBackendServer(name: string, host: string, port: nat, weight: int)
      requires Valid()
      modifies this
      ensures Valid() && State() == AddBackend(old(State()), cfg, name, host, port, weight)
    {
      AddBackendKeeps(State(), cfg, name, host, port, weight);
      if name == "" || host == "" || port == 0 {
        return;
      }
      EnsureService(name);
      var s := services[name];
      var k := FindIndex(s.backends, host, port);
      if k < |s.backends| {
        var b := s.backends[k].(weight := AtLeastOne(weight), healthy := true, current := 0);
        services := services[name := s.(backends := s.backends[k := b])];
      } else {
        var b := Backend(host, port, AtLeastOne(weight), true, 0, 0, 0, 0);
        services := services[name := s.(backends := s.backends + [b])];
      }
    }

    method RemoveBackendServer(name: string, host: string, port: nat)
      requires Valid()
      modifies this
      ensures Valid() && State() == RemoveBackend(old(State()), name, host, port)
    {
      RemoveBackendKeeps(State(), name, host, port);
      if name !in services {
        return;
      }
      var s := services[name];
      var kept := KeepElsewhere(s.backends, host, port);
      var cursor := s.cursor;
      if cursor >= |kept| && kept != [] {
        cursor := cursor % |kept|;
      }
      services := services[name := s.(backends := kept, cursor := cursor)];
      RemoveIdleAt(name, host, port);
    }

    method UpdateBackendWeight(name: string, host: string, port: nat, weight: int)
      requires Valid()
      modifies this
      ensures Valid() && State() == UpdateWeight(old(State()), name, host, port, weight)
    {
      UpdateWeightKeeps(State(), name, host, port, weight);
      if name !in services {
        return;
      }
      var s := services[name];
      var k := FindIndex(s.backends, host, port);
      if k < |s.backends| {
        services := services[name := s.(backends := s.backends[k := s.backends[k].(weight := AtLeastOne(weight),
          current := 0)])];
      }
    }

    /** The body of both status reports for one service. */
    method ReportIn(name: string, host: string, port: nat, success: bool, now: int)
      requires Valid() && name in services
      modifies this
      ensures Valid() && State() == ReportStatus(old(State()), {name}, host, port, success, cfg.policy.threshold, now)
    {
      ReportStatusKeeps(State(), {name}, host, port, success, cfg.policy.threshold, now);
      ReportOne(State(), name, host, port, success, cfg.policy.threshold, now);
      var s := services[name];
      var k := FindIndex(s.backends, host, port);
      if k < |s.backends| {
        var wasHealthy := s.backends[k].healthy;
        var b := WithStatus(s.backends[k], success, cfg.policy.threshold, now);
        services := services[name := s.(backends := s.backends[k := b])];
        if wasHealthy && !b.healthy {
          RemoveIdleAt(name, host, port);
        }
      }
    }

    method ReportBackendStatus(name: string, host: string, port: nat, success: bool, now: int)
      requires Valid()
      modifies this
      ensures Valid() && State() ==
        if name == "" || host == "" || port == 0 || name !in old(services) then old(State())
        else ReportStatus(old(State()), {name}, host, port, success, cfg.policy.threshold, now)
    {
      if name == "" || host == "" || port == 0 || name !in services {
        return;
      }
      ReportIn(name, host, port, success, now);
    }

    method ReportBackendStatusEverywhere(host: string, port: nat, success: bool, now: int)
      requires Valid()
      modifies this
      ensures Valid() && State() ==
        if host == "" || port == 0 then old(State())
        else ReportStatus(old(State()), old(services).Keys, host, port, success, cfg.policy.threshold, now)
    {
      hide Invariant;
      if host == "" || port == 0 {
        return;
      }
      ghost var start := State();
      ghost var done: set<string> := {};
      hide ReportStatus;
      ReportNowhere(start, host, port, success, cfg.policy.threshold, now);
      var pending := services.Keys;
      while pending != {}
        invariant Valid() && services.Keys == start.services.Keys && pending <= services.Keys
        invariant forall n :: n in done <==> n in start.services && n !in pending
        invariant State() == ReportStatus(start, done, host, port, success, cfg.policy.threshold, now)
        decreases pending
      {
        var name :| name in pending;
        pending := pending - {name};
        ReportMore(start, done, name, host, port, success, cfg.policy.threshold, now);
        ReportKeepsServices(start, done + {name}, host, port, success, cfg.policy.threshold, now);
        ReportIn(name, host, port, success, now);
        done := done + {name};
      }
      assert done == start.services.Keys by {
        assert forall n :: n in done <==> n in start.services;
      }
    }

    method ReportExecutionOf(name: string, success: bool, now: int)
      requires Valid()
      modifies this
      ensures Valid() && State() == ReportExecution(old(State()), cfg, {name}, success, now)
    {
      ReportExecutionKeeps(State(), cfg, {name}, success, now);
      if cfg.policy.enabled && name in services {
        var s := services[name];
        services := services[name := s.(breaker := Breaker.Report(s.breaker, success, cfg.policy, now))];
      }
      assert services == ReportExecution(old(State()), cfg, {name}, success, now).services;
    }

    method ReportExecutionEverywhere(success: bool, now: int)
      requires Valid()
      modifies this
      ensures Valid() && State() == ReportExecution(old(State()), cfg, old(services).Keys, success, now)
    {
      hide Told; hide Invariant; hide ReportExecution;
      ReportExecutionKeeps(State(), cfg, services.Keys, success, now);
      ghost var start := State();
      if cfg.policy.enabled {
        var pending := services.Keys;
        while pending != {}
          invariant services.Keys == start.services.Keys && pending <= services.Keys
          invariant forall n :: n in pending ==> services[n] == start.services[n]
          invariant forall n :: n in services && n !in pending ==>
            services[n] == Told(start.services[n], cfg.policy, success, now)
          invariant connections == start.connections && nextId == start.nextId
          decreases pending
        {
          var name :| name in pending;
          pending := pending - {name};
          services := services[name := Told(services[name], cfg.policy, success, now)];
        }
      }
      AllReported(start, cfg, services, success, now);
    }

    method CleanupExpiredConnections(now: int)
      requires forall id :: id in connections ==> connections[id].service in services
      modifies this
      ensures State() == CleanupExpired(old(State()), cfg.idleTimeout, now)
    {
      hide Purge; hide Prune;
      RemoveExpired(now);
      ghost var kept := State();
      var pending := services.Keys;
      while pending != {}
        invariant services.Keys == kept.services.Keys && pending <= services.Keys
        invariant forall n :: n in pending ==> services[n] == kept.services[n]
        invariant forall n :: n in services && n !in pending ==>
          services[n] == Prune(kept.services[n], kept.connections)
        invariant connections == kept.connections && nextId == kept.nextId
        decreases pending
      {
        var name :| name in pending;
        pending := pending - {name};
        PruneService(name);
      }
      assert services == CleanupExpired(old(State()), cfg.idleTimeout, now).services;
    }

    method PerformHealthCheck(now: int)
      modifies this
      ensures connections == old(connections) && nextId == old(nextId) && services.Keys == old(services).Keys
      ensures forall n :: n in services ==> services[n] == CheckService(old(services)[n], connections, cfg.policy, now)
    {
      hide Prune; hide Breaker.Sweep; hide RecoverAll;
      ghost var start := services;
      var pending := services.Keys;
      while pending != {}
        invariant services.Keys == start.Keys && pending <= services.Keys
        invariant forall n :: n in pending ==> services[n] == start[n]
        invariant forall n :: n in services && n !in pending ==>
          services[n] == CheckService(start[n], connections, cfg.policy, now)
        invariant connections == old(connections) && nextId == old(nextId)
        decreases pending
      {
        var name :| name in pending;
        pending := pending - {name};
        var s := services[name];
        var backends := RecoverBackends(s.backends, cfg.policy.recovery, now);
        services := services[name := s.(breaker := Breaker.Sweep(s.breaker, cfg.policy, now), backends := backends)];
        PruneService(name);
      }
    }

    /** One round of the maintenance thread */
    method MaintenanceRound(now: int)
      requires Valid()
      modifies this
      ensures Valid() && State() == Maintain(old(State()), cfg, now)
    {
      hide CleanupExpired; hide CheckService;
      MaintainKeeps(State(), cfg, now);
      CleanupExpiredConnections(now);
      PerformHealthCheck(now);
      assert services == Maintain(old(State()), cfg, now).services;
    }

    method PruneService(name: string)
      requires name in services
      modifies `services
      ensures services == old(services)[name := Prune(old(services)[name], connections)]
    {
      var s := services[name];
      var idle := Erase(s.idle, set id | id in s.idle && (id !in connections || connections[id].active));
      services := services[name := s.(idle := idle)];
    }

    method SetStrategy(name: string, strategy: Strategy)
      requires Valid()
      modifies this
      ensures Valid() && State() == Step(old(State()), cfg, StrategyOp(name, strategy), 0).0
    {
      StepKeeps(State(), cfg, StrategyOp(name, strategy), 0);
      EnsureService(name);
      services := services[name := services[name].(strategy := strategy)];
    }

    method Cleanup()
      requires Valid()
      modifies this
      ensures Valid() && State() == Clear(old(State()))
    {
      connections, services := map[], map[];
    }
  }

  method KeepElsewhere(bs: seq<Backend>, host: string, port: nat) returns (kept: seq<Backend>)
    ensures kept == DropBackend(bs, host, port)
  {
    kept := [];
    var i := 0;
    while i < |bs|
      invariant 0 <= i <= |bs| && kept == DropBackend(bs[..i], host, port)
    {
      assert bs[..i + 1][..i] == bs[..i];
      if !At(bs[i], host, port) {
        kept := kept + [bs[i]];
      }
      i := i + 1;
    }
    assert bs[..i] == bs;
  }

  method RecoverBackends(bs: seq<Backend>, recovery: int, now: int) returns (after: seq<Backend>)
    ensures after == RecoverAll(bs, recovery, now)
  {
    after := bs;
    var i := 0;
    while i < |bs|
      invariant 0 <= i <= |bs| == |after|
      invariant forall j :: 0 <= j < |bs| ==> after[j] == if j < i then Recover(bs[j], recovery, now) else bs[j]
    {
      if !after[i].healthy && (recovery == 0 || now - after[i].lastFailure >= recovery) {
        after := after[i := after[i].(healthy := true, failures := 0, current := 0)];
      }
      i := i + 1;
    }
  }

  // ---------------------------------------------------------------- status reports, service by service

  /** A report to one service, written out. */
  function Told(s: Service, policy: Breaker.Policy, success: bool, now: int): Service {
    s.(breaker := Breaker.Report(s.breaker, success, policy, now))
  }

  /** Every breaker has been reported to, unless breakers are switched off. */
  lemma AllReported(start: Pool, cfg: Config, services: map<string, Service>, success: bool, now: int)
    requires services.Keys == start.services.Keys
    requires !cfg.policy.enabled ==> services == start.services
    requires cfg.policy.enabled ==> forall n :: n in services ==>
      services[n] == Told(start.services[n], cfg.policy, success, now)
    ensures ReportExecution(start, cfg, start.services.Keys, success, now) == start.(services := services)
  {
    hide Breaker.Report;
    assert services == ReportExecution(start, cfg, start.services.Keys, success, now).services;
  }

  lemma ReportOne(p: Pool, name: string, host: string, port: nat, success: bool, threshold: nat, now: int)
    requires Invariant(p) && name in p.services
    ensures var reported := SetService(p, name, ReportTo(p.services[name], host, port, success, threshold, now));
      ReportStatus(p, {name}, host, port, success, threshold, now) ==
        if FallsSick(p.services[name], host, port, success, threshold)
        then Purge(reported, IdleAt(p.connections, name, host, port)) else reported
  {
    hide FindBackend; hide ReportTo; hide PurgeService; hide Invariant; hide FallsSick;
    var reported := SetService(p, name, ReportTo(p.services[name], host, port, success, threshold, now));
    assert reported.services == map n | n in p.services ::
      if n in {name} then ReportTo(p.services[n], host, port, success, threshold, now) else p.services[n];
    var doomed := Doomed(p, {name}, host, port, success, threshold);
    PurgeNothing(reported);
    if FallsSick(p.services[name], host, port, success, threshold) {
      assert doomed == IdleAt(p.connections, name, host, port);
    } else {
      assert doomed == {};
    }
  }

  lemma ReportNowhere(p: Pool, host: string, port: nat, success: bool, threshold: nat, now: int)
    ensures ReportStatus(p, {}, host, port, success, threshold, now) == p
  {
    assert Doomed(p, {}, host, port, success, threshold) == {};
    PurgeNothing(p);
    hide Purge; hide ReportTo; hide Doomed;
    assert WithReports(p, {}, host, port, success, threshold, now).services == p.services;
  }

  lemma ReportKeepsServices(p: Pool, scope: set<string>, host: string, port: nat, success: bool, threshold: nat,
      now: int)
    ensures ReportStatus(p, scope, host, port, success, threshold, now).services.Keys == p.services.Keys
  {
  }

  /** A report, seen from one service. */
  lemma Reported(p: Pool, scope: set<string>, name: string, host: string, port: nat, success: bool, threshold: nat,
      now: int)
    requires name in p.services
    ensures var q := ReportStatus(p, scope, host, port, success, threshold, now);
      var doomed := Doomed(p, scope, host, port, success, threshold);
      && q.services.Keys == p.services.Keys && q.nextId == p.nextId
      && q.connections == p.connections - doomed
      && q.services[name] == PurgeService(
          if name in scope then ReportTo(p.services[name], host, port, success, threshold, now) else p.services[name],
          Own(p.connections, doomed, name))
  {
  }

  /** The doomed connections of one more service. */
  lemma DoomedMore(p: Pool, scope: set<string>, name: string, host: string, port: nat, success: bool, threshold: nat)
    requires name !in scope
    ensures var before := Doomed(p, scope, host, port, success, threshold);
      var more := Doomed(p, {name}, host, port, success, threshold);
      && Doomed(p, scope + {name}, host, port, success, threshold) == before + more
      && Own(p.connections, before, name) == {} && Own(p.connections, more, name) == more
      && forall n :: n != name ==> Own(p.connections, more, n) == {}
  {
    hide FallsSick; hide IdleAt;
  }

  /** A report to some services leaves the others and their connections alone. */
  lemma ReportLeaves(p: Pool, scope: set<string>, name: string, host: string, port: nat, success: bool,
      threshold: nat, now: int)
    requires name in p.services && name !in scope
    ensures var q := ReportStatus(p, scope, host, port, success, threshold, now);
      && name in q.services && q.services[name] == p.services[name]
      && Doomed(q, {name}, host, port, success, threshold) == Doomed(p, {name}, host, port, success, threshold)
  {
    hide FallsSick; hide ReportStatus;
    Reported(p, scope, name, host, port, success, threshold, now);
    DoomedMore(p, scope, name, host, port, success, threshold);
    WithoutNothing(p.services[name].idle, {});
  }

  lemma OwnOfUnion(connections: map<Id, Connection>, a: set<Id>, b: set<Id>, name: string)
    ensures Own(connections, a + b, name) == Own(connections, a, name) + Own(connections, b, name)
    ensures Own(connections - a, b - a, name) == Own(connections, b, name) - a
  {
  }

  /** Reporting to one more service extends the scope of the report. */
  lemma ReportMore(p: Pool, scope: set<string>, name: string, host: string, port: nat, success: bool,
      threshold: nat, now: int)
    requires name in p.services && name !in scope
    ensures ReportStatus(ReportStatus(p, scope, host, port, success, threshold, now), {name}, host, port, success,
      threshold, now)
         == ReportStatus(p, scope + {name}, host, port, success, threshold, now)
  {
    hide *;
    var q := ReportStatus(p, scope, host, port, success, threshold, now);
    var a := ReportStatus(q, {name}, host, port, success, threshold, now);
    var b := ReportStatus(p, scope + {name}, host, port, success, threshold, now);
    ReportLeaves(p, scope, name, host, port, success, threshold, now);
    Reported(p, scope, name, host, port, success, threshold, now);
    Reported(q, {name}, name, host, port, success, threshold, now);
    Reported(p, scope + {name}, name, host, port, success, threshold, now);
    DoomedMore(p, scope, name, host, port, success, threshold);
    var before, more := Doomed(p, scope, host, port, success, threshold),
      Doomed(p, {name}, host, port, success, threshold);
    assert p.connections - before - more == p.connections - (before + more);
    forall n | n in p.services ensures a.services[n] == b.services[n] {
      ReportMoreIn(p, scope, name, n, host, port, success, threshold, now);
    }
    assert a.services == b.services;
  }

  lemma ReportMoreIn(p: Pool, scope: set<string>, name: string, n: string, host: string, port: nat, success: bool,
      threshold: nat, now: int)
    requires name in p.services && name !in scope && n in p.services
    ensures var q := ReportStatus(p, scope, host, port, success, threshold, now);
      && n in ReportStatus(q, {name}, host, port, success, threshold, now).services
      && n in ReportStatus(p, scope + {name}, host, port, success, threshold, now).services
      && ReportStatus(q, {name}, host, port, success, threshold, now).services[n]
      == ReportStatus(p, scope + {name}, host, port, success, threshold, now).services[n]
  {
    hide ReportTo; hide Doomed; hide ReportStatus; hide Own; hide Without;
    var q := ReportStatus(p, scope, host, port, success, threshold, now);
    ReportLeaves(p, scope, name, host, port, success, threshold, now);
    DoomedMore(p, scope, name, host, port, success, threshold);
    Reported(p, scope, n, host, port, success, threshold, now);
    Reported(q, {name}, n, host, port, success, threshold, now);
    Reported(p, scope + {name}, n, host, port, success, threshold, now);
    var before, more := Doomed(p, scope, host, port, success, threshold),
      Doomed(p, {name}, host, port, success, threshold);
    OwnOfUnion(p.connections, before, more, n);
    OwnElsewhere(p.connections, before, more, n, name);
    if n != name {
      WithoutNothing(q.services[n].idle, {});
    }
  }

  lemma OwnElsewhere(connections: map<Id, Connection>, before: set<Id>, more: set<Id>, n: string, name: string)
    requires Own(connections, before, name) == {} && Own(connections, more, name) == more
    ensures Own(connections - before, more, n) == if n == name then more else {}
    ensures Own(connections, before, n) + (if n == name then more else {}) == if n == name then more
      else Own(connections, before, n)
  {
    assert forall id :: id in more ==> id in Own(connections, more, name);
    assert forall id :: id in before && id in connections && connections[id].service == name ==>
      id in Own(connections, before, name);
  }
}
