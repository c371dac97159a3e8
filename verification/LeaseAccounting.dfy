/**
 When each backend's lease counter is exact.

 Every operation keeps all counters exact but one: registering a backend at an address that is not registered
 and still has leases, from an earlier registration, starts a counter at zero that is then too low.
 */
module LeaseAccounting {
  import opened Balancer
  import opened ServicePool
  import opened PoolInvariant
  import opened PoolSteps
  import Breaker

  ghost predicate Exact(connections: map<Id, Connection>, name: string, bs: seq<Backend>) {
    forall b :: b in bs ==> b.active == |Leased(connections, name, b.host, b.port)|
  }

  ghost predicate Known(bs: seq<Backend>, host: string, port: nat) {
    exists b :: b in bs && At(b, host, port)
  }

  ghost predicate Registered(connections: map<Id, Connection>, name: string, bs: seq<Backend>) {
    forall id :: id in Owned(connections, name) ==> Known(bs, connections[id].host, connections[id].port)
  }

  /** The counters are exact and, in the strict form, every connection leads to a registered backend. */
  ghost predicate Counted(connections: map<Id, Connection>, name: string, bs: seq<Backend>, strict: bool) {
    Exact(connections, name, bs) && (strict ==> Registered(connections, name, bs))
  }

  ghost predicate AccountedAs(p: Pool, strict: bool) {
    forall name :: name in p.services ==> Counted(p.connections, name, p.services[name].backends, strict)
  }

  ghost predicate Accounted(p: Pool) {
    forall name :: name in p.services ==> Exact(p.connections, name, p.services[name].backends)
  }

  // ---------------------------------------------------------------- changing backends or the table

  /** Addresses and counters are all that matters. */
  lemma SameCounters(connections: map<Id, Connection>, name: string, before: seq<Backend>, after: seq<Backend>,
      strict: bool)
    requires Counted(connections, name, before, strict) && |before| == |after|
    requires forall i :: 0 <= i < |before| ==>
      At(after[i], before[i].host, before[i].port) && after[i].active == before[i].active
    ensures Counted(connections, name, after, strict)
  {
    forall b | b in after ensures b.active == |Leased(connections, name, b.host, b.port)| {
      var i :| 0 <= i < |after| && after[i] == b;
      assert before[i] in before;
    }
    forall id | strict && id in Owned(connections, name)
      ensures Known(after, connections[id].host, connections[id].port)
    {
      KnownKept(before, after, connections[id].host, connections[id].port);
    }
  }

  lemma KnownKept(before: seq<Backend>, after: seq<Backend>, host: string, port: nat)
    requires |before| == |after| && Known(before, host, port)
    requires forall i :: 0 <= i < |before| ==> At(after[i], before[i].host, before[i].port)
    ensures Known(after, host, port)
  {
    var b :| b in before && At(b, host, port);
    var i :| 0 <= i < |before| && before[i] == b;
    assert after[i] in after;
  }

  /** A service none of whose entries is touched. */
  lemma Elsewhere(before: map<Id, Connection>, after: map<Id, Connection>, name: string, bs: seq<Backend>, strict: bool)
    requires Counted(before, name, bs, strict)
    requires forall id :: id in Owned(before, name) || id in Owned(after, name) ==> Agree(before, after, id)
    ensures Counted(after, name, bs, strict)
  {
    forall b | b in bs ensures Leased(after, name, b.host, b.port) == Leased(before, name, b.host, b.port) {
      forall id ensures id in Leased(after, name, b.host, b.port) <==> id in Leased(before, name, b.host, b.port) {
        assert id in Owned(before, name) <==> id in Owned(after, name);
      }
    }
    forall id | strict && id in Owned(after, name) ensures Known(bs, after[id].host, after[id].port) {
      assert id in Owned(before, name);
    }
  }

  lemma IdleGone(connections: map<Id, Connection>, ids: set<Id>, name: string, bs: seq<Backend>, strict: bool)
    requires Counted(connections, name, bs, strict)
    requires forall id :: id in ids ==> id in connections && !connections[id].active
    ensures Counted(connections - ids, name, bs, strict)
  {
    forall b | b in bs
      ensures Leased(connections - ids, name, b.host, b.port) == Leased(connections, name, b.host, b.port)
    {
    }
    forall id | strict && id in Owned(connections - ids, name)
      ensures Known(bs, connections[id].host, connections[id].port)
    {
      assert id in Owned(connections, name);
    }
  }

  lemma EntryGone(connections: map<Id, Connection>, id: Id, bs: seq<Backend>, strict: bool)
    requires id in connections && Counted(connections, connections[id].service, bs, strict) && DistinctAddresses(bs)
    ensures var c := connections[id];
      var k := FindBackend(bs, c.host, c.port);
      Counted(connections - {id}, c.service, if k < |bs| && c.active then Lower(bs, k) else bs, strict)
  {
    var c := connections[id];
    var k := FindBackend(bs, c.host, c.port);
    var after, left := if k < |bs| && c.active then Lower(bs, k) else bs, connections - {id};
    forall b | b in after ensures b.active == |Leased(left, c.service, b.host, b.port)| {
      var i :| 0 <= i < |after| && after[i] == b;
      assert bs[i] in bs;
      AfterDropping(connections, {id}, c.service, b.host, b.port);
      if At(b, c.host, c.port) {
        Unique(bs, i, c.host, c.port);
        assert c.active ==> id in Leased(connections, c.service, b.host, b.port);
      }
    }
    forall other | strict && other in Owned(left, c.service) ensures Known(after, left[other].host, left[other].port) {
      assert other in Owned(connections, c.service);
      KnownKept(bs, after, left[other].host, left[other].port);
    }
  }

  /** An entry that was no lease becomes one. */
  lemma EntryLeased(connections: map<Id, Connection>, id: Id, c: Connection, bs: seq<Backend>, k: nat, strict: bool)
    requires Counted(connections, c.service, bs, strict) && DistinctAddresses(bs)
    requires k < |bs| && At(bs[k], c.host, c.port) && c.active && (id !in connections || !connections[id].active)
    ensures Counted(connections[id := c], c.service, AddLease(bs, k), strict)
  {
    LeasedExact(connections, id, c, bs, k);
    if strict {
      LeasedRegistered(connections, id, c, bs, k);
    }
    hide Exact; hide Registered;
  }

  lemma LeasedExact(connections: map<Id, Connection>, id: Id, c: Connection, bs: seq<Backend>, k: nat)
    requires Exact(connections, c.service, bs) && DistinctAddresses(bs)
    requires k < |bs| && At(bs[k], c.host, c.port) && c.active && (id !in connections || !connections[id].active)
    ensures Exact(connections[id := c], c.service, AddLease(bs, k))
  {
    hide FindBackend;
    var after, table := AddLease(bs, k), connections[id := c];
    forall b | b in after ensures b.active == |Leased(table, c.service, b.host, b.port)| {
      var i :| 0 <= i < |after| && after[i] == b;
      assert bs[i] in bs;
      AfterSetting(connections, id, c, c.service, b.host, b.port);
      assert id !in Leased(connections, c.service, b.host, b.port);
      Unique(bs, k, c.host, c.port);
      if At(b, c.host, c.port) {
        Unique(bs, i, c.host, c.port);
      }
    }
  }

  lemma LeasedRegistered(connections: map<Id, Connection>, id: Id, c: Connection, bs: seq<Backend>, k: nat)
    requires Registered(connections, c.service, bs) && k < |bs| && At(bs[k], c.host, c.port)
    ensures Registered(connections[id := c], c.service, AddLease(bs, k))
  {
    var after, table := AddLease(bs, k), connections[id := c];
    forall other | other in Owned(table, c.service) ensures Known(after, table[other].host, table[other].port) {
      if other == id {
        assert after[k] in after;
      } else {
        assert other in Owned(connections, c.service);
        KnownKept(bs, after, table[other].host, table[other].port);
      }
    }
  }

  /** A lease becomes idle. */
  lemma EntryReleased(connections: map<Id, Connection>, id: Id, bs: seq<Backend>, now: int, strict: bool)
    requires id in connections && connections[id].active
    requires Counted(connections, connections[id].service, bs, strict) && DistinctAddresses(bs)
    ensures var c := connections[id];
      var k := FindBackend(bs, c.host, c.port);
      k < |bs| ==> Counted(connections[id := c.(active := false, lastUsed := now)], c.service, Lower(bs, k), strict)
  {
    var c := connections[id];
    var k := FindBackend(bs, c.host, c.port);
    if k < |bs| {
      var after, table := Lower(bs, k), connections[id := c.(active := false, lastUsed := now)];
      EntryGone(connections, id, bs, strict);
      forall b | b in after
        ensures Leased(table, c.service, b.host, b.port) == Leased(connections - {id}, c.service, b.host, b.port)
      {
      }
      forall other | strict && other in Owned(table, c.service)
        ensures Known(after, table[other].host, table[other].port)
      {
        assert other in Owned(connections, c.service);
        KnownKept(bs, after, table[other].host, table[other].port);
      }
    }
  }

  // ---------------------------------------------------------------- pools

  lemma AccountedWith(p: Pool, name: string, s: Service, strict: bool)
    requires AccountedAs(p, strict) && Counted(p.connections, name, s.backends, strict)
    ensures AccountedAs(SetService(p, name, s), strict)
  {
  }

  lemma AccountedSetting(p: Pool, id: Id, c: Connection, s: Service, nextId: Id, strict: bool)
    requires AccountedAs(p, strict) && (id in p.connections ==> p.connections[id].service == c.service)
    requires Counted(p.connections[id := c], c.service, s.backends, strict)
    ensures AccountedAs(Pool(p.connections[id := c], p.services[c.service := s], nextId), strict)
  {
    forall name | name in p.services && name != c.service
      ensures Counted(p.connections[id := c], name, p.services[name].backends, strict)
    {
      Elsewhere(p.connections, p.connections[id := c], name, p.services[name].backends, strict);
    }
  }

  lemma AccountedRemoving(p: Pool, id: Id, strict: bool)
    requires Invariant(p) && AccountedAs(p, strict) && id in p.connections
    ensures AccountedAs(RemoveConnection(p, id), strict)
  {
    var c, after := p.connections[id], RemoveConnection(p, id);
    assert ServiceOk(p.connections, c.service, p.services[c.service], {});
    EntryGone(p.connections, id, p.services[c.service].backends, strict);
    forall name | name in p.services && name != c.service
      ensures Counted(after.connections, name, after.services[name].backends, strict)
    {
      Elsewhere(p.connections, after.connections, name, p.services[name].backends, strict);
    }
  }

  lemma AccountedPurging(p: Pool, ids: set<Id>, strict: bool)
    requires AccountedAs(p, strict) && forall id :: id in ids ==> id in p.connections && !p.connections[id].active
    ensures AccountedAs(Purge(p, ids), strict)
  {
    forall name | name in p.services ensures Counted(p.connections - ids, name, p.services[name].backends, strict) {
      IdleGone(p.connections, ids, name, p.services[name].backends, strict);
    }
  }

  lemma AccountedEnsuring(p: Pool, cfg: Config, name: string, strict: bool)
    requires Invariant(p) && AccountedAs(p, strict) && ValidConfig(cfg)
    ensures AccountedAs(Ensure(p, cfg, name), strict)
  {
    EnsureKeeps(p, cfg, name);
    if name !in p.services {
      assert Owned(p.connections, name) == {};
      AccountedWith(p, name, Ensure(p, cfg, name).services[name], strict);
    }
  }

  // ---------------------------------------------------------------- the operations

  lemma {:induction false} AccountedSearching(p: Pool, name: string, timeout: int, now: int, strict: bool)
    requires Invariant(p) && AccountedAs(p, strict) && name in p.services
    ensures AccountedAs(TakeIdle(p, name, timeout, now).0, strict)
    decreases |p.services[name].idle|
  {
    hide ServiceOk; hide Exact;
    var s := p.services[name];
    if s.idle != [] {
      InvariantReusable(p, name);
      assert Reusable(p, name, s.idle[0]);
      if TimedOut(p.connections[s.idle[0]], timeout, now) {
        SearchSkips(p, name, timeout, now);
        AccountedRemoving(p, s.idle[0], strict);
        RemoveConnectionKeeps(p, s.idle[0]);
        AccountedSearching(RemoveConnection(p, s.idle[0]), name, timeout, now, strict);
      } else {
        SearchReuses(p, name, timeout, now);
        AccountedReusing(p, name, now, strict);
      }
    }
  }

  lemma AccountedReusing(p: Pool, name: string, now: int, strict: bool)
    requires Invariant(p) && AccountedAs(p, strict) && name in p.services && p.services[name].idle != []
    requires var id := p.services[name].idle[0];
      id in p.connections && p.connections[id].service == name && !p.connections[id].active
    requires var s := p.services[name];
      FindBackend(s.backends, p.connections[s.idle[0]].host, p.connections[s.idle[0]].port) < |s.backends|
    ensures var s := p.services[name];
      var c := p.connections[s.idle[0]].(active := true, lastUsed := now);
      AccountedAs(Pool(p.connections[s.idle[0] := c],
        p.services[name := s.(idle := s.idle[1..], backends := AddLease(s.backends,
          FindBackend(s.backends, c.host, c.port)))],
        p.nextId), strict)
  {
    var s := p.services[name];
    var c := p.connections[s.idle[0]].(active := true, lastUsed := now);
    var k := FindBackend(s.backends, c.host, c.port);
    assert ServiceOk(p.connections, name, s, {});
    EntryLeased(p.connections, s.idle[0], c, s.backends, k, strict);
    AccountedSetting(p, s.idle[0], c, s.(idle := s.idle[1..], backends := AddLease(s.backends, k)), p.nextId, strict);
  }

  lemma AccountedCreating(p: Pool, name: string, k: nat, now: int, strict: bool)
    requires AccountedAs(p, strict) && name in p.services && p.nextId !in p.connections
    requires k < |p.services[name].backends| && DistinctAddresses(p.services[name].backends)
    ensures AccountedAs(Create(p, name, k, now), strict)
  {
    var s := p.services[name];
    var c := Connection(name, s.backends[k].host, s.backends[k].port, now, now, true);
    EntryLeased(p.connections, p.nextId, c, s.backends, k, strict);
    AccountedSetting(p, p.nextId, c, s.(backends := AddLease(s.backends, k), total := s.total + 1), p.nextId + 1,
      strict);
  }

  lemma AccountedGrowing(p: Pool, name: string, keyed: bool, draw: nat, now: int, strict: bool)
    requires Invariant(p) && AccountedAs(p, strict) && name in p.services
    ensures AccountedAs(Grow(p, name, keyed, draw, now).0, strict)
  {
    var s := p.services[name];
    var (selected, k) := Select(s, keyed, draw);
    if s.total < s.maxPool && k < |selected.backends| {
      assert DistinctAddresses(selected.backends) by {
        assert ServiceOk(p.connections, name, s, {});
        LeasesStillCovered(p.connections, name, s.backends, selected.backends);
      }
      SameCounters(p.connections, name, s.backends, selected.backends, strict);
      AccountedWith(p, name, selected, strict);
      assert p.nextId !in p.connections;
      hide Select; hide Invariant; hide Accounted;
      AccountedCreating(SetService(p, name, selected), name, k, now, strict);
    }
  }

  lemma AccountedAcquiring(p: Pool, cfg: Config, name: string, keyed: bool, draw: nat, now: int, strict: bool)
    requires Invariant(p) && AccountedAs(p, strict) && ValidConfig(cfg)
    ensures AccountedAs(Acquire(p, cfg, name, keyed, draw, now).0, strict)
  {
    if name != "" {
      EnsureKeeps(p, cfg, name);
      AccountedEnsuring(p, cfg, name, strict);
      var ready := Ensure(p, cfg, name);
      var s := ready.services[name];
      var probed := SetService(ready, name, s.(breaker := Breaker.Probe(s.breaker, cfg.policy, now)));
      assert Invariant(probed) && AccountedAs(probed, strict) by {
        assert ServiceOk(ready.connections, name, s, {});
        SetServiceKeeps(ready, name, probed.services[name], {});
        AccountedWith(ready, name, probed.services[name], strict);
      }
      AccountedLeasing(probed, name, cfg.idleTimeout, keyed, draw, now, strict);
      hide Lease; hide Invariant; hide Accounted;
    }
  }

  lemma AccountedLeasing(p: Pool, name: string, timeout: int, keyed: bool, draw: nat, now: int, strict: bool)
    requires Invariant(p) && AccountedAs(p, strict) && name in p.services
    ensures AccountedAs(Lease(p, name, timeout, keyed, draw, now).0, strict)
  {
    hide TakeIdle; hide Grow; hide Invariant; hide Accounted;
    TakeIdleKeeps(p, name, timeout, now);
    AccountedSearching(p, name, timeout, now, strict);
    AccountedGrowing(TakeIdle(p, name, timeout, now).0, name, keyed, draw, now, strict);
  }

  lemma AccountedReleasing(p: Pool, id: Id, now: int, strict: bool)
    requires Invariant(p) && AccountedAs(p, strict)
    ensures AccountedAs(Release(p, id, now), strict)
  {
    if id in p.connections && p.connections[id].active {
      var c := p.connections[id];
      var s := p.services[c.service];
      var k := FindBackend(s.backends, c.host, c.port);
      if k == |s.backends| || !s.backends[k].healthy {
        AccountedRemoving(p, id, strict);
      } else {
        assert ServiceOk(p.connections, c.service, s, {});
        EntryReleased(p.connections, id, s.backends, now, strict);
        AccountedSetting(p, id, c.(active := false, lastUsed := now), Release(p, id, now).services[c.service],
          p.nextId, strict);
      }
    }
  }

  /** Whether an operation registers a backend at an unregistered address that has leases. */
  ghost predicate Restarts(p: Pool, op: Op) {
    && op.AddOp? && op.service != "" && op.host != "" && op.port != 0 && op.service in p.services
    && FindBackend(p.services[op.service].backends, op.host, op.port) == |p.services[op.service].backends|
    && Leased(p.connections, op.service, op.host, op.port) != {}
  }

  lemma AccountedAdding(p: Pool, cfg: Config, name: string, host: string, port: nat, weight: int, strict: bool)
    requires Invariant(p) && AccountedAs(p, strict) && ValidConfig(cfg)
    ensures AccountedAs(AddBackend(p, cfg, name, host, port, weight), strict) <==>
      !Restarts(p, AddOp(name, host, port, weight))
  {
    if name != "" && host != "" && port != 0 {
      EnsureKeeps(p, cfg, name);
      AccountedEnsuring(p, cfg, name, strict);
      var ready := Ensure(p, cfg, name);
      var s, after := ready.services[name], AddBackend(p, cfg, name, host, port, weight).services[name];
      if FindBackend(s.backends, host, port) < |s.backends| {
        SameCounters(ready.connections, name, s.backends, after.backends, strict);
        AccountedWith(ready, name, after, strict);
      } else {
        NewBackend(ready.connections, name, s.backends, after.backends[|s.backends|], strict);
        if name !in p.services {
          NoneLeased(p, name, host, port);
        }
        if Leased(p.connections, name, host, port) == {} {
          AccountedWith(ready, name, after, strict);
        }
      }
    }
  }

  lemma NoneLeased(p: Pool, name: string, host: string, port: nat)
    requires Invariant(p) && name !in p.services
    ensures Leased(p.connections, name, host, port) == {}
  {
  }

  lemma NewBackend(connections: map<Id, Connection>, name: string, bs: seq<Backend>, b: Backend, strict: bool)
    requires Counted(connections, name, bs, strict) && b.active == 0
    ensures Counted(connections, name, bs + [b], strict) <==> Leased(connections, name, b.host, b.port) == {}
  {
    assert b in bs + [b];
    forall id | strict && id in Owned(connections, name)
      ensures Known(bs + [b], connections[id].host, connections[id].port)
    {
      var known :| known in bs && At(known, connections[id].host, connections[id].port);
      assert known in bs + [b];
    }
  }

  /** Whether an operation removes a backend that still has leases. */
  ghost predicate Orphans(p: Pool, op: Op) {
    op.RemoveOp? && op.service in p.services && Leased(p.connections, op.service, op.host, op.port) != {}
  }

  lemma AccountedDropping(p: Pool, name: string, host: string, port: nat, strict: bool)
    requires AccountedAs(p, strict) && (strict ==> !Orphans(p, RemoveOp(name, host, port)))
    ensures AccountedAs(RemoveBackend(p, name, host, port), strict)
  {
    if name in p.services {
      var s, ids := p.services[name], IdleAt(p.connections, name, host, port);
      var left, after := DropBackend(s.backends, host, port), p.connections - ids;
      forall n | n in p.services ensures Counted(after, n, p.services[n].backends, strict) {
        IdleGone(p.connections, ids, n, p.services[n].backends, strict);
      }
      forall id | strict && id in Owned(after, name) ensures Known(left, after[id].host, after[id].port) {
        var b :| b in s.backends && At(b, after[id].host, after[id].port);
        assert id !in Leased(p.connections, name, host, port) && id !in ids;
        assert b in left;
      }
      assert Counted(after, name, left, strict);
    }
  }

  lemma AccountedReporting(p: Pool, scope: set<string>, host: string, port: nat, success: bool, threshold: nat,
      now: int, strict: bool)
    requires AccountedAs(p, strict)
    ensures AccountedAs(ReportStatus(p, scope, host, port, success, threshold, now), strict)
  {
    var reported := WithReports(p, scope, host, port, success, threshold, now);
    forall name | name in reported.services
      ensures Counted(reported.connections, name, reported.services[name].backends, strict)
    {
      SameCounters(p.connections, name, p.services[name].backends, reported.services[name].backends, strict);
    }
    AccountedPurging(reported, Doomed(p, scope, host, port, success, threshold), strict);
  }

  lemma AccountedMaintaining(p: Pool, cfg: Config, now: int, strict: bool)
    requires AccountedAs(p, strict)
    ensures AccountedAs(Maintain(p, cfg, now), strict)
  {
    hide Without; hide Breaker.Sweep; hide Own;
    var doomed := set id | id in p.connections && Expired(p.connections[id], cfg.idleTimeout, now);
    AccountedPurging(p, doomed, strict);
    var kept, after := CleanupExpired(p, cfg.idleTimeout, now), Maintain(p, cfg, now);
    forall name | name in after.services
      ensures Counted(after.connections, name, after.services[name].backends, strict)
    {
      SameCounters(kept.connections, name, kept.services[name].backends, after.services[name].backends, strict);
    }
  }

  lemma AccountedWeighing(p: Pool, name: string, host: string, port: nat, weight: int, strict: bool)
    requires AccountedAs(p, strict)
    ensures AccountedAs(UpdateWeight(p, name, host, port, weight), strict)
  {
    hide Counted;
    if name in p.services && FindBackend(p.services[name].backends, host, port) < |p.services[name].backends| {
      var after := UpdateWeight(p, name, host, port, weight).services[name];
      SameCounters(p.connections, name, p.services[name].backends, after.backends, strict);
      AccountedWith(p, name, after, strict);
    }
  }

  lemma AccountedSwitching(p: Pool, cfg: Config, name: string, strategy: Strategy, strict: bool)
    requires Invariant(p) && AccountedAs(p, strict) && ValidConfig(cfg)
    ensures var ready := Ensure(p, cfg, name);
      AccountedAs(SetService(ready, name, ready.services[name].(strategy := strategy)), strict)
  {
    hide Counted; hide Invariant;
    AccountedEnsuring(p, cfg, name, strict);
    var ready := Ensure(p, cfg, name);
    AccountedWith(ready, name, ready.services[name].(strategy := strategy), strict);
  }

  lemma AccountedExecuting(p: Pool, cfg: Config, scope: set<string>, success: bool, now: int, strict: bool)
    requires AccountedAs(p, strict)
    ensures AccountedAs(ReportExecution(p, cfg, scope, success, now), strict) && AccountedAs(Clear(p), strict)
  {
    hide Counted; hide Breaker.Report;
  }

  lemma AccountedClosing(p: Pool, id: Id, strict: bool)
    requires Invariant(p) && AccountedAs(p, strict)
    ensures AccountedAs(Close(p, id), strict)
  {
    hide Counted; hide Invariant;
    if id in p.connections {
      AccountedRemoving(p, id, strict);
    }
  }

  lemma StepAccountedAs(p: Pool, cfg: Config, op: Op, now: int, strict: bool)
    requires Invariant(p) && AccountedAs(p, strict) && ValidConfig(cfg) && (strict ==> !Orphans(p, op))
    ensures AccountedAs(Step(p, cfg, op, now).0, strict) <==> !Restarts(p, op)
  {
    assert Restarts(p, op) ==> op.AddOp?;
    hide Restarts; hide Invariant; hide AccountedAs; hide Acquire; hide Release; hide Close; hide AddBackend;
    hide RemoveBackend; hide UpdateWeight; hide ReportStatus; hide ReportExecution; hide Maintain; hide Clear;
    hide Ensure; hide SetService;
    match op
    case AcquireOp(name, keyed, draw) => AccountedAcquiring(p, cfg, name, keyed, draw, now, strict);
    case ReleaseOp(id) => AccountedReleasing(p, id, now, strict);
    case CloseOp(id) => AccountedClosing(p, id, strict);
    case AddOp(name, host, port, weight) => AccountedAdding(p, cfg, name, host, port, weight, strict);
    case RemoveOp(name, host, port) => AccountedDropping(p, name, host, port, strict);
    case WeightOp(name, host, port, weight) => AccountedWeighing(p, name, host, port, weight, strict);
    case StrategyOp(name, strategy) => AccountedSwitching(p, cfg, name, strategy, strict);
    case StatusOp(name, host, port, success) =>
      AccountedReporting(p, {name}, host, port, success, cfg.policy.threshold, now, strict);
    case StatusAllOp(host, port, success) =>
      AccountedReporting(p, p.services.Keys, host, port, success, cfg.policy.threshold, now, strict);
    case ExecutionOp(name, success) => AccountedExecuting(p, cfg, {name}, success, now, strict);
    case ExecutionAllOp(success) => AccountedExecuting(p, cfg, p.services.Keys, success, now, strict);
    case MaintainOp => AccountedMaintaining(p, cfg, now, strict);
    case ClearOp => AccountedExecuting(p, cfg, {}, true, now, strict);
  }

  lemma ExactlyAccounted(p: Pool)
    ensures Accounted(p) <==> AccountedAs(p, false)
    ensures AccountedAs(p, true) ==> Accounted(p)
  {
    hide Exact; hide Registered;
  }

  /** An operation keeps every counter exact if and only if it does not restart one. */
  lemma StepAccounted(p: Pool, cfg: Config, op: Op, now: int)
    requires Invariant(p) && Accounted(p) && ValidConfig(cfg)
    ensures Accounted(Step(p, cfg, op, now).0) <==> !Restarts(p, op)
  {
    hide *;
    ExactlyAccounted(p);
    ExactlyAccounted(Step(p, cfg, op, now).0);
    StepAccountedAs(p, cfg, op, now, false);
  }

  ghost predicate AlwaysExact(cfg: Config, history: seq<Timed>) {
    forall t :: 0 <= t <= |history| ==> Accounted(Run(cfg, history[..t]))
  }

  ghost predicate NeverRestarts(cfg: Config, history: seq<Timed>) {
    forall t :: 0 <= t < |history| ==> !Restarts(Run(cfg, history[..t]), history[t].op)
  }

  lemma LastStep(cfg: Config, history: seq<Timed>)
    requires history != []
    ensures var front, last := history[..|history| - 1], history[|history| - 1];
      && (AlwaysExact(cfg, history) <==> AlwaysExact(cfg, front) && Accounted(Run(cfg, history)))
      && (NeverRestarts(cfg, history) <==> NeverRestarts(cfg, front) && !Restarts(Run(cfg, front), last.op))
  {
    hide Run; hide Accounted; hide Restarts;
    var n := |history| - 1;
    var front := history[..n];
    assert history[..n + 1] == history && front[..n] == front;
    assert forall t :: 0 <= t <= n ==> front[..t] == history[..t];
    assert forall t :: 0 <= t < n ==> front[t] == history[t];
  }

  /** The counters are exact all through a run if and only if no operation of it restarts one. */
  lemma {:induction false} AlwaysAccounted(cfg: Config, history: seq<Timed>)
    requires ValidConfig(cfg)
    ensures AlwaysExact(cfg, history) <==> NeverRestarts(cfg, history)
  {
    if history == [] {
      assert history[..0] == [];
    } else {
      var front, last := history[..|history| - 1], history[|history| - 1];
      AlwaysAccounted(cfg, front);
      AlwaysInvariant(cfg, front);
      LastStep(cfg, history);
      assert Run(cfg, history) == Step(Run(cfg, front), cfg, last.op, last.at).0;
      assert AlwaysExact(cfg, front) ==> Accounted(Run(cfg, front)) by { assert front[..|front|] == front; }
      hide Step; hide Run; hide Invariant; hide Accounted; hide Restarts; hide AlwaysExact; hide NeverRestarts;
      if Accounted(Run(cfg, front)) {
        StepAccounted(Run(cfg, front), cfg, last.op, last.at);
      }
    }
  }

  /** Where every connection leads to a registered backend, no operation can restart a counter. */
  lemma RegisteredNeverRestarts(p: Pool, op: Op)
    requires AccountedAs(p, true)
    ensures !Restarts(p, op)
  {
    if op.AddOp? && op.service in p.services {
      var bs := p.services[op.service].backends;
      forall id | id in Leased(p.connections, op.service, op.host, op.port)
        ensures FindBackend(bs, op.host, op.port) < |bs|
      {
        assert id in Owned(p.connections, op.service);
        KnownIsFound(bs, op.host, op.port);
      }
    }
  }

  lemma KnownIsFound(bs: seq<Backend>, host: string, port: nat)
    requires Known(bs, host, port)
    ensures FindBackend(bs, host, port) < |bs|
  {
    var b :| b in bs && At(b, host, port);
    var i :| 0 <= i < |bs| && bs[i] == b;
  }

  /** In particular they are exact in every run that never removes a backend with outstanding leases. */
  lemma {:induction false} ExactWithoutOrphans(cfg: Config, history: seq<Timed>)
    requires ValidConfig(cfg)
    requires forall t :: 0 <= t < |history| ==> !Orphans(Run(cfg, history[..t]), history[t].op)
    ensures AccountedAs(Run(cfg, history), true) && Accounted(Run(cfg, history))
  {
    if history != [] {
      var n := |history| - 1;
      forall t | 0 <= t < n ensures !Orphans(Run(cfg, history[..n][..t]), history[..n][t].op) {
        assert history[..n][..t] == history[..t];
      }
      ExactWithoutOrphans(cfg, history[..n]);
      AlwaysInvariant(cfg, history[..n]);
      hide Step; hide Invariant; hide AccountedAs; hide Accounted; hide Orphans; hide Restarts;
      RegisteredNeverRestarts(Run(cfg, history[..n]), history[n].op);
      StepAccountedAs(Run(cfg, history[..n]), cfg, history[n].op, history[n].at, true);
      ExactlyAccounted(Run(cfg, history));
    }
  }

  lemma FoundWhenAppended(bs: seq<Backend>, b: Backend)
    requires forall other :: other in bs ==> !At(other, b.host, b.port)
    ensures FindBackend(bs, b.host, b.port) == |bs|
    ensures FindBackend(bs + [b], b.host, b.port) == |bs|
  {
    assert (bs + [b])[|bs|] == b;
    assert forall i :: 0 <= i < |bs| ==> (bs + [b])[i] in bs;
  }

  /** Removing a backend and adding it again leaves its counter exact if and only if it had no outstanding lease. */
  lemma RestartedCounter(p: Pool, cfg: Config, name: string, host: string, port: nat, weight: int)
    requires Invariant(p) && ValidConfig(cfg) && name in p.services && name != "" && host != "" && port != 0
    ensures var after := AddBackend(RemoveBackend(p, name, host, port), cfg, name, host, port, weight);
      && name in after.services
      && var k := FindBackend(after.services[name].backends, host, port);
      && k < |after.services[name].backends|
      && (after.services[name].backends[k].active == |Leased(after.connections, name, host, port)|
          <==> Leased(p.connections, name, host, port) == {})
  {
    hide *;
    var gone := RemoveBackend(p, name, host, port);
    RemoveBackendKeeps(p, name, host, port);
    AfterRemoval(p, name, host, port);
    EnsureKeeps(gone, cfg, name);
    AddedAgain(gone, cfg, name, host, port, weight);
  }

  lemma AfterRemoval(p: Pool, name: string, host: string, port: nat)
    requires name in p.services
    ensures var gone := RemoveBackend(p, name, host, port);
      && name in gone.services && (forall b :: b in gone.services[name].backends ==> !At(b, host, port))
      && Leased(gone.connections, name, host, port) == Leased(p.connections, name, host, port)
  {
    assert RemoveBackend(p, name, host, port).services[name].backends == DropBackend(p.services[name].backends,
      host, port);
  }

  lemma AddedAgain(gone: Pool, cfg: Config, name: string, host: string, port: nat, weight: int)
    requires name in gone.services && name != "" && host != "" && port != 0 && Ensure(gone, cfg, name) == gone
    requires forall b :: b in gone.services[name].backends ==> !At(b, host, port)
    ensures var after := AddBackend(gone, cfg, name, host, port, weight);
      && name in after.services && after.connections == gone.connections
      && var k := FindBackend(after.services[name].backends, host, port);
      && k < |after.services[name].backends|
      && (after.services[name].backends[k].active == |Leased(after.connections, name, host, port)|
          <==> Leased(gone.connections, name, host, port) == {})
  {
    FoundWhenAppended(gone.services[name].backends, Backend(host, port, AtLeastOne(weight), true, 0, 0, 0, 0));
  }

  // ---------------------------------------------------------------- a run in which it happens

  const PLAIN := Config(Breaker.Policy(false, 1, 1, 0), 0, 1, LeastConnections)

  function Server(active: nat): Backend {
    Backend("h", 1, 1, true, active, 0, 0, 0)
  }

  function One(connections: map<Id, Connection>, backends: seq<Backend>, total: nat, nextId: Id): Pool {
    Pool(connections, map["s" := Service(backends, [], LeastConnections, Breaker.FRESH, 0, 1, total)], nextId)
  }

  lemma OneAcquired()
    ensures var leased := map[1 := Connection("s", "h", 1, 0, 0, true)];
      Acquire(One(map[], [Server(0)], 0, 1), PLAIN, "s", false, 0, 0) == (One(leased, [Server(1)], 1, 2), 1)
  {
    var p := One(map[], [Server(0)], 0, 1);
    var s := p.services["s"];
    assert Ensure(p, PLAIN, "s") == p by { assert p.services["s" := s] == p.services; }
    assert SetService(p, "s", s) == p by { assert p.services["s" := s] == p.services; }
    assert TakeIdle(p, "s", 0, 0) == (p, 0);
    assert [Server(0)][..0] == [] && LeastLoaded([Server(0)]) == 0;
    assert Select(s, false, 0) == (s, 0) by { assert HealthyIndices(s.backends) == [0]; }
    assert AddLease([Server(0)], 0) == [Server(1)];
    assert Create(p, "s", 0, 0).services == map["s" := s.(backends := [Server(1)], total := 1)];
    assert Create(p, "s", 0, 0).connections == map[1 := Connection("s", "h", 1, 0, 0, true)];
  }

  lemma OneRemoved(connections: map<Id, Connection>)
    requires connections == map[1 := Connection("s", "h", 1, 0, 0, true)]
    ensures RemoveBackend(One(connections, [Server(1)], 1, 2), "s", "h", 1) == One(connections, [], 1, 2)
  {
    var p := One(connections, [Server(1)], 1, 2);
    assert [Server(1)][..0] == [];
    assert DropBackend([Server(1)], "h", 1) == [];
    assert IdleAt(connections, "s", "h", 1) == {};
    var left := SetService(p, "s", p.services["s"].(backends := []));
    assert Own(connections, {}, "s") == {};
    assert Purge(left, {}).services == One(connections, [], 1, 2).services;
    assert connections - {} == connections;
  }

  lemma StepIs(p: Pool, cfg: Config)
    ensures Step(p, cfg, AddOp("s", "h", 1, 1), 0).0 == AddBackend(p, cfg, "s", "h", 1, 1)
    ensures Step(p, cfg, AcquireOp("s", false, 0), 0) == Acquire(p, cfg, "s", false, 0, 0)
    ensures Step(p, cfg, RemoveOp("s", "h", 1), 0).0 == RemoveBackend(p, "s", "h", 1)
  {
    hide AddBackend; hide Acquire; hide RemoveBackend;
  }

  lemma CounterSteps()
    ensures var leased := map[1 := Connection("s", "h", 1, 0, 0, true)];
      && Step(EMPTY, PLAIN, AddOp("s", "h", 1, 1), 0).0 == One(map[], [Server(0)], 0, 1)
      && Step(One(map[], [Server(0)], 0, 1), PLAIN, AcquireOp("s", false, 0), 0).0 == One(leased, [Server(1)], 1, 2)
      && Step(One(leased, [Server(1)], 1, 2), PLAIN, RemoveOp("s", "h", 1), 0).0 == One(leased, [], 1, 2)
      && Step(One(leased, [], 1, 2), PLAIN, AddOp("s", "h", 1, 1), 0).0 == One(leased, [Server(0)], 1, 2)
  {
    hide *;
    var leased := map[1 := Connection("s", "h", 1, 0, 0, true)];
    FirstAdded();
    OneAcquired();
    OneRemoved(leased);
    AddedBack(leased);
    StepIs(EMPTY, PLAIN);
    StepIs(One(map[], [Server(0)], 0, 1), PLAIN);
    StepIs(One(leased, [Server(1)], 1, 2), PLAIN);
    StepIs(One(leased, [], 1, 2), PLAIN);
  }

  lemma CountsTooLow(connections: map<Id, Connection>)
    requires connections == map[1 := Connection("s", "h", 1, 0, 0, true)]
    ensures var p := One(connections, [Server(0)], 1, 2);
      && "s" in p.services && p.services["s"].backends == [Server(0)] && Server(0).active == 0
      && Leased(p.connections, "s", "h", 1) == {1} && !Accounted(p)
  {
    var p := One(connections, [Server(0)], 1, 2);
    assert Server(0) in p.services["s"].backends && Leased(p.connections, "s", "h", 1) == {1};
  }

  /** A backend is added, leased, removed and added again: it counts no lease although there is one. */
  lemma CounterTooLow() returns (history: seq<Timed>)
    ensures var p := Run(PLAIN, history);
      && "s" in p.services && p.services["s"].backends == [Server(0)] && Server(0).active == 0
      && Leased(p.connections, "s", "h", 1) == {1} && !Accounted(p)
  {
    history := [];
    assert Run(PLAIN, history) == EMPTY;
    CounterSteps();
    hide *;
    history := Then(PLAIN, history, AddOp("s", "h", 1, 1));
    history := Then(PLAIN, history, AcquireOp("s", false, 0));
    history := Then(PLAIN, history, RemoveOp("s", "h", 1));
    history := Then(PLAIN, history, AddOp("s", "h", 1, 1));
    CountsTooLow(map[1 := Connection("s", "h", 1, 0, 0, true)]);
  }

  lemma FirstAdded()
    ensures AddBackend(EMPTY, PLAIN, "s", "h", 1, 1) == One(map[], [Server(0)], 0, 1)
  {
    assert [] + [Server(0)] == [Server(0)];
  }

  lemma AddedBack(connections: map<Id, Connection>)
    ensures AddBackend(One(connections, [], 1, 2), PLAIN, "s", "h", 1, 1) == One(connections, [Server(0)], 1, 2)
  {
    assert [] + [Server(0)] == [Server(0)];
  }

  lemma Then(cfg: Config, history: seq<Timed>, op: Op) returns (more: seq<Timed>)
    ensures more == history + [Timed(op, 0)] && Run(cfg, more) == Step(Run(cfg, history), cfg, op, 0).0
  {
    hide Step;
    more := history + [Timed(op, 0)];
    assert more[..|history|] == history;
  }
}
