/**
 The invariant of the connection manager, and its preservation by every operation.

 For each service: the idle list holds exactly the ids of its inactive connections, once each; the
 connection counter is exact and within the limit; every inactive connection leads to a backend
 that is registered and healthy; and no backend counts more leases than there are.
 */
module PoolInvariant {
  import opened Balancer
  import opened ServicePool

  // ---------------------------------------------------------------- what the table holds for a service

  function Owned(connections: map<Id, Connection>, name: string): set<Id> {
    set id | id in connections && connections[id].service == name
  }

  ghost predicate InactiveOf(connections: map<Id, Connection>, name: string, id: Id) {
    id in connections && connections[id].service == name && !connections[id].active
  }

  /** Ids of the active connections of a service to an address. */
  function Leased(connections: map<Id, Connection>, name: string, host: string, port: nat): set<Id> {
    set id | id in connections && connections[id].service == name && connections[id].host == host
             && connections[id].port == port && connections[id].active
  }

  // ---------------------------------------------------------------- the invariant

  ghost predicate NoDuplicates(ids: seq<Id>) {
    forall i, j :: 0 <= i < j < |ids| ==> ids[i] != ids[j]
  }

  ghost predicate IdleExact(connections: map<Id, Connection>, name: string, s: Service) {
    NoDuplicates(s.idle) && forall id :: id in s.idle <==> InactiveOf(connections, name, id)
  }

  ghost predicate DistinctAddresses(bs: seq<Backend>) {
    forall i, j :: 0 <= i < j < |bs| ==> !At(bs[j], bs[i].host, bs[i].port)
  }

  ghost predicate Serving(bs: seq<Backend>, host: string, port: nat) {
    exists b :: b in bs && At(b, host, port) && b.healthy
  }

  ghost predicate LeasesCovered(connections: map<Id, Connection>, name: string, bs: seq<Backend>) {
    forall b :: b in bs ==> b.active <= |Leased(connections, name, b.host, b.port)|
  }

  /** Inactive connections lead to healthy backends, except perhaps those about to be purged. */
  ghost predicate IdleServed(connections: map<Id, Connection>, name: string, bs: seq<Backend>, doomed: set<Id>) {
    forall id :: InactiveOf(connections, name, id) && id !in doomed ==>
      Serving(bs, connections[id].host, connections[id].port)
  }

  ghost predicate ServiceOk(connections: map<Id, Connection>, name: string, s: Service, doomed: set<Id>) {
    && IdleExact(connections, name, s)
    && 1 <= s.maxPool
    && s.total == |Owned(connections, name)| <= s.maxPool
    && DistinctAddresses(s.backends)
    && LeasesCovered(connections, name, s.backends)
    && IdleServed(connections, name, s.backends, doomed)
  }

  ghost predicate TableOk(p: Pool) {
    && 1 <= p.nextId
    && forall id :: id in p.connections ==> 0 < id < p.nextId && p.connections[id].service in p.services
  }

  ghost predicate InvariantBut(p: Pool, doomed: set<Id>) {
    TableOk(p) && forall name :: name in p.services ==> ServiceOk(p.connections, name, p.services[name], doomed)
  }

  ghost predicate Invariant(p: Pool) {
    InvariantBut(p, {})
  }

  // ---------------------------------------------------------------- lists and counts

  lemma {:induction false} WithoutKeepsDistinct(ids: seq<Id>, gone: set<Id>)
    requires NoDuplicates(ids)
    ensures NoDuplicates(Without(ids, gone))
  {
    if ids != [] {
      var front := ids[..|ids| - 1];
      WithoutKeepsDistinct(front, gone);
      assert forall id :: id in Without(front, gone) ==> id in front;
    }
  }

  lemma {:induction false} WithoutNothing(ids: seq<Id>, gone: set<Id>)
    requires forall id :: id in ids ==> id !in gone
    ensures Without(ids, gone) == ids
  {
    if ids != [] {
      var last := |ids| - 1;
      assert ids == ids[..last] + [ids[last]];
      WithoutNothing(ids[..last], gone);
    }
  }

  /** In a list of distinct addresses, a backend at an address is the one found. */
  lemma Unique(bs: seq<Backend>, i: nat, host: string, port: nat)
    requires DistinctAddresses(bs) && i < |bs| && At(bs[i], host, port)
    ensures FindBackend(bs, host, port) == i
  {
    assert forall j :: 0 <= j < FindBackend(bs, host, port) ==> !At(bs[j], host, port);
  }

  /** An inactive connection's backend is found, and found healthy. */
  lemma FoundServing(bs: seq<Backend>, host: string, port: nat)
    requires DistinctAddresses(bs) && Serving(bs, host, port)
    ensures FindBackend(bs, host, port) < |bs| && bs[FindBackend(bs, host, port)].healthy
  {
    var b :| b in bs && At(b, host, port) && b.healthy;
    var i :| 0 <= i < |bs| && bs[i] == b;
    Unique(bs, i, host, port);
  }

  lemma {:induction false} DropKeepsDistinct(bs: seq<Backend>, host: string, port: nat)
    requires DistinctAddresses(bs)
    ensures DistinctAddresses(DropBackend(bs, host, port))
  {
    if bs != [] {
      var last := |bs| - 1;
      DropKeepsDistinct(bs[..last], host, port);
      var rest := DropBackend(bs[..last], host, port);
      forall j | 0 <= j < |rest| ensures !At(bs[last], rest[j].host, rest[j].port) {
        assert rest[j] in bs[..last];
      }
    }
  }

  // ---------------------------------------------------------------- changing one connection

  /** Effect on the table's view of a service of setting one entry. */
  lemma AfterSetting(connections: map<Id, Connection>, id: Id, c: Connection, name: string, host: string, port: nat)
    ensures var after := connections[id := c];
      && Owned(after, name) == Owned(connections, name) - {id} + (if c.service == name then {id} else {})
      && Leased(after, name, host, port) == Leased(connections, name, host, port) - {id}
          + (if c.service == name && c.host == host && c.port == port && c.active then {id} else {})
  {
  }

  lemma AfterDropping(connections: map<Id, Connection>, ids: set<Id>, name: string, host: string, port: nat)
    ensures Owned(connections - ids, name) == Owned(connections, name) - ids
    ensures Leased(connections - ids, name, host, port) == Leased(connections, name, host, port) - ids
  {
  }

  ghost predicate Agree(before: map<Id, Connection>, after: map<Id, Connection>, id: Id) {
    id in before && id in after && before[id] == after[id]
  }

  /** A service that owns none of the touched ids stays as it was. */
  lemma Untouched(before: map<Id, Connection>, after: map<Id, Connection>, name: string, s: Service, doomed: set<Id>)
    requires ServiceOk(before, name, s, doomed)
    requires forall id :: id in Owned(before, name) || id in Owned(after, name) ==> Agree(before, after, id)
    ensures ServiceOk(after, name, s, doomed)
  {
    assert forall id :: id in Owned(before, name) <==> id in Owned(after, name);
    assert Owned(after, name) == Owned(before, name);
    forall id ensures InactiveOf(after, name, id) <==> InactiveOf(before, name, id) {
      assert id in Owned(before, name) <==> id in Owned(after, name);
    }
    forall b | b in s.backends
      ensures Leased(after, name, b.host, b.port) == Leased(before, name, b.host, b.port)
    {
      forall id ensures id in Leased(after, name, b.host, b.port) <==> id in Leased(before, name, b.host, b.port) {
        assert id in Owned(before, name) <==> id in Owned(after, name);
      }
    }
    forall id | InactiveOf(after, name, id) && id !in doomed
      ensures Serving(s.backends, after[id].host, after[id].port)
    {
      assert InactiveOf(before, name, id) && id in Owned(before, name);
    }
  }

  /** Replacing one service by a good one, the table unchanged. */
  lemma SetServiceKeeps(p: Pool, name: string, s: Service, doomed: set<Id>)
    requires InvariantBut(p, doomed) && ServiceOk(p.connections, name, s, doomed)
    ensures InvariantBut(SetService(p, name, s), doomed)
  {
  }

  /** Setting one table entry of a service together with the service. */
  lemma SetEntryKeeps(p: Pool, id: Id, c: Connection, s: Service, nextId: Id)
    requires Invariant(p) && p.nextId <= nextId && 0 < id < nextId
    requires id in p.connections ==> p.connections[id].service == c.service
    requires ServiceOk(p.connections[id := c], c.service, s, {})
    ensures Invariant(Pool(p.connections[id := c], p.services[c.service := s], nextId))
  {
    var after := Pool(p.connections[id := c], p.services[c.service := s], nextId);
    forall name | name in after.services && name != c.service
      ensures ServiceOk(after.connections, name, after.services[name], {})
    {
      Untouched(p.connections, after.connections, name, p.services[name], {});
    }
  }

  /** Dropping one table entry of a service together with replacing the service. */
  lemma DropEntryKeeps(p: Pool, id: Id, s: Service)
    requires Invariant(p) && id in p.connections
    requires ServiceOk(p.connections - {id}, p.connections[id].service, s, {})
    ensures Invariant(Pool(p.connections - {id}, p.services[p.connections[id].service := s], p.nextId))
  {
    var owner := p.connections[id].service;
    var after := Pool(p.connections - {id}, p.services[owner := s], p.nextId);
    hide ServiceOk;
    assert TableOk(after);
    hide TableOk;
    forall name | name in after.services && name != owner
      ensures ServiceOk(after.connections, name, after.services[name], {})
    {
      Untouched(p.connections, after.connections, name, p.services[name], {});
    }
  }

  // ---------------------------------------------------------------- the steps the operations are made of

  lemma EnsureKeeps(p: Pool, cfg: Config, name: string)
    requires Invariant(p) && ValidConfig(cfg)
    ensures Invariant(Ensure(p, cfg, name))
    ensures name in p.services ==> Ensure(p, cfg, name) == p
  {
    if name !in p.services {
      assert Owned(p.connections, name) == {};
      SetServiceKeeps(p, name, Ensure(p, cfg, name).services[name], {});
    } else {
      assert p.services[name := p.services[name]] == p.services;
    }
  }

  lemma PurgeKeeps(p: Pool, ids: set<Id>)
    requires InvariantBut(p, ids)
    requires forall id :: id in ids ==> id in p.connections && !p.connections[id].active
    ensures Invariant(Purge(p, ids))
  {
    var after := Purge(p, ids);
    forall name | name in after.services
      ensures ServiceOk(after.connections, name, after.services[name], {})
    {
      PurgeServiceKeeps(p, ids, name);
    }
  }

  lemma PurgeServiceKeeps(p: Pool, ids: set<Id>, name: string)
    requires InvariantBut(p, ids) && name in p.services
    requires forall id :: id in ids ==> id in p.connections && !p.connections[id].active
    ensures ServiceOk(p.connections - ids, name, PurgeService(p.services[name], Own(p.connections, ids, name)), {})
  {
    var s, own, after := p.services[name], Own(p.connections, ids, name), p.connections - ids;
    WithoutKeepsDistinct(s.idle, own);
    assert Owned(after, name) == Owned(p.connections, name) - own;
    assert own <= Owned(p.connections, name);
    forall b | b in s.backends
      ensures b.active <= |Leased(after, name, b.host, b.port)|
    {
      assert Leased(after, name, b.host, b.port) == Leased(p.connections, name, b.host, b.port);
    }
    forall id | InactiveOf(after, name, id)
      ensures Serving(s.backends, after[id].host, after[id].port)
    {
      assert InactiveOf(p.connections, name, id) && id !in ids;
    }
  }

  /** Changing fields of a backend other than its address and lease count. */
  lemma LeasesStillCovered(connections: map<Id, Connection>, name: string, before: seq<Backend>, after: seq<Backend>)
    requires LeasesCovered(connections, name, before) && DistinctAddresses(before) && |before| == |after|
    requires forall i :: 0 <= i < |before| ==>
      At(after[i], before[i].host, before[i].port) && after[i].active <= before[i].active
    ensures LeasesCovered(connections, name, after) && DistinctAddresses(after)
  {
    forall b | b in after ensures b.active <= |Leased(connections, name, b.host, b.port)| {
      var i :| 0 <= i < |after| && after[i] == b;
      assert before[i] in before;
    }
  }

  /** Serving carries over index by index. */
  lemma ServingKept(before: seq<Backend>, after: seq<Backend>, host: string, port: nat)
    requires |before| == |after| && Serving(before, host, port)
    requires forall i :: 0 <= i < |before| && At(before[i], host, port) && before[i].healthy ==>
      At(after[i], host, port) && after[i].healthy
    ensures Serving(after, host, port)
  {
    var b :| b in before && At(b, host, port) && b.healthy;
    var i :| 0 <= i < |before| && before[i] == b;
    assert after[i] in after;
  }

  /** Idle connections stay served when none appears and no backend loses its address or health. */
  lemma StillServed(before: map<Id, Connection>, after: map<Id, Connection>, name: string, bs: seq<Backend>,
      left: seq<Backend>)
    requires IdleServed(before, name, bs, {}) && |left| == |bs|
    requires forall id :: InactiveOf(after, name, id) ==> InactiveOf(before, name, id) && after[id] == before[id]
    requires forall i :: 0 <= i < |bs| ==>
      At(left[i], bs[i].host, bs[i].port) && (bs[i].healthy ==> left[i].healthy)
    ensures IdleServed(after, name, left, {})
  {
    forall id | InactiveOf(after, name, id)
      ensures Serving(left, after[id].host, after[id].port)
    {
      ServingKept(bs, left, after[id].host, after[id].port);
    }
  }

  /** A service whose backends change without losing health, address or leases. */
  lemma BackendsChangeKeeps(connections: map<Id, Connection>, name: string, s: Service, after: Service)
    requires ServiceOk(connections, name, s, {})
    requires after.idle == s.idle && after.total == s.total && after.maxPool == s.maxPool
    requires |after.backends| == |s.backends|
    requires forall i :: 0 <= i < |s.backends| ==>
      && At(after.backends[i], s.backends[i].host, s.backends[i].port)
      && after.backends[i].active <= s.backends[i].active
      && (s.backends[i].healthy ==> after.backends[i].healthy)
    ensures ServiceOk(connections, name, after, {})
  {
    LeasesStillCovered(connections, name, s.backends, after.backends);
    StillServed(connections, connections, name, s.backends, after.backends);
  }

  lemma RemoveConnectionKeeps(p: Pool, id: Id)
    requires Invariant(p) && id in p.connections
    ensures Invariant(RemoveConnection(p, id))
  {
    var c := p.connections[id];
    ForgetKeeps(p.connections, id, p.services[c.service]);
    DropEntryKeeps(p, id, ForgetConnection(p.services[c.service], id, c));
  }

  lemma ForgetKeeps(connections: map<Id, Connection>, id: Id, s: Service)
    requires id in connections && ServiceOk(connections, connections[id].service, s, {})
    ensures ServiceOk(connections - {id}, connections[id].service, ForgetConnection(s, id, connections[id]), {})
  {
    var c, after := connections[id], connections - {id};
    var left := ForgetConnection(s, id, c);
    forall other
      ensures InactiveOf(after, c.service, other) <==> InactiveOf(connections, c.service, other) && other != id
    {
    }
    assert IdleExact(after, c.service, left) by {
      WithoutKeepsDistinct(s.idle, {id});
    }
    assert left.total == |Owned(after, c.service)| by {
      AfterDropping(connections, {id}, c.service, c.host, c.port);
      assert id in Owned(connections, c.service);
    }
    assert LeasesCovered(after, c.service, left.backends) && DistinctAddresses(left.backends) by {
      LeaseDropped(connections, id, s.backends);
    }
    assert IdleServed(after, c.service, left.backends, {}) by {
      StillServed(connections, after, c.service, s.backends, left.backends);
    }
  }

  /** Lease counts stay covered when a connection goes and, if it was a lease, its backend counts one fewer. */
  lemma LeaseDropped(connections: map<Id, Connection>, id: Id, bs: seq<Backend>)
    requires id in connections
    requires LeasesCovered(connections, connections[id].service, bs) && DistinctAddresses(bs)
    ensures var c := connections[id];
      var k := FindBackend(bs, c.host, c.port);
      var after := if k < |bs| && c.active then Lower(bs, k) else bs;
      LeasesCovered(connections - {id}, c.service, after) && DistinctAddresses(after)
  {
    var c := connections[id];
    var k := FindBackend(bs, c.host, c.port);
    var after := if k < |bs| && c.active then Lower(bs, k) else bs;
    forall b | b in after ensures b.active <= |Leased(connections - {id}, c.service, b.host, b.port)| {
      var i :| 0 <= i < |after| && after[i] == b;
      assert bs[i] in bs;
      AfterDropping(connections, {id}, c.service, b.host, b.port);
      if At(b, c.host, c.port) {
        Unique(bs, i, c.host, c.port);
      }
    }
  }

  /** A lease is added for an id that was not one, and its backend counts one more. */
  lemma LeaseAdded(connections: map<Id, Connection>, id: Id, c: Connection, bs: seq<Backend>, k: nat)
    requires k < |bs| && At(bs[k], c.host, c.port) && c.active
    requires id !in connections || !connections[id].active
    requires LeasesCovered(connections, c.service, bs) && DistinctAddresses(bs)
    ensures LeasesCovered(connections[id := c], c.service, AddLease(bs, k))
  {
    hide FindBackend; hide Owned; hide Leased;
    assert forall host, port :: id !in Leased(connections, c.service, host, port) by { NoLease(connections, id); }
    var after := AddLease(bs, k);
    forall b | b in after ensures b.active <= |Leased(connections[id := c], c.service, b.host, b.port)| {
      var i :| 0 <= i < |after| && after[i] == b;
      assert bs[i] in bs;
      AfterSetting(connections, id, c, c.service, b.host, b.port);
      Unique(bs, k, c.host, c.port);
      if At(b, c.host, c.port) {
        Unique(bs, i, c.host, c.port);
      }
    }
  }

  lemma NoLease(connections: map<Id, Connection>, id: Id)
    requires id !in connections || !connections[id].active
    ensures forall name, host, port :: id !in Leased(connections, name, host, port)
  {
  }

  lemma LeaseKeepsAddresses(bs: seq<Backend>, k: nat)
    requires k < |bs| && DistinctAddresses(bs)
    ensures DistinctAddresses(AddLease(bs, k))
  {
  }

  lemma CreateKeeps(p: Pool, name: string, k: nat, now: int)
    requires Invariant(p) && name in p.services
    requires k < |p.services[name].backends| && p.services[name].total < p.services[name].maxPool
    ensures Invariant(Create(p, name, k, now))
  {
    var after := Create(p, name, k, now);
    var c := after.connections[p.nextId];
    assert p.nextId !in p.connections;
    CreatedOk(p.connections, p.nextId, c, p.services[name], k);
    SetEntryKeeps(p, p.nextId, c, after.services[name], p.nextId + 1);
  }

  lemma CreatedOk(connections: map<Id, Connection>, id: Id, c: Connection, s: Service, k: nat)
    requires ServiceOk(connections, c.service, s, {}) && s.total < s.maxPool
    requires id !in connections && c.active && k < |s.backends| && At(s.backends[k], c.host, c.port)
    ensures ServiceOk(connections[id := c], c.service, s.(backends := AddLease(s.backends, k),
      total := s.total + 1), {})
  {
    var after, bs := connections[id := c], AddLease(s.backends, k);
    forall other ensures InactiveOf(after, c.service, other) <==> InactiveOf(connections, c.service, other) {}
    assert LeasesCovered(after, c.service, bs) && DistinctAddresses(bs) by {
      LeaseAdded(connections, id, c, s.backends, k);
      LeaseKeepsAddresses(s.backends, k);
    }
    assert IdleServed(after, c.service, bs, {}) by {
      StillServed(connections, after, c.service, s.backends, bs);
    }
    assert |Owned(after, c.service)| == s.total + 1 by {
      assert Owned(after, c.service) == Owned(connections, c.service) + {id};
    }
  }
}
