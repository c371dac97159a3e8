/** Every operation of the connection manager keeps the invariant. */
module PoolSteps {
  import opened Balancer
  import opened ServicePool
  import opened PoolInvariant
  import Breaker

  // ---------------------------------------------------------------- acquire

  /** A connection in the idle list can always be reused: the branches that discard it are never taken. */
  lemma IdleReusable(p: Pool, name: string, id: Id)
    requires Invariant(p) && name in p.services && id in p.services[name].idle
    ensures id in p.connections && !p.connections[id].active && p.connections[id].service == name
    ensures var c, bs := p.connections[id], p.services[name].backends;
      var k := FindBackend(bs, c.host, c.port);
      k < |bs| && bs[k].healthy
  {
    assert ServiceOk(p.connections, name, p.services[name], {});
    assert InactiveOf(p.connections, name, id);
    FoundServing(p.services[name].backends, p.connections[id].host, p.connections[id].port);
  }

  lemma {:induction false} HeadOnce(ids: seq<Id>)
    requires ids != [] && NoDuplicates(ids)
    ensures Without(ids, {ids[0]}) == ids[1..] == Without(ids[1..], {ids[0]})
  {
    WithoutNothing(ids[1..], {ids[0]});
    var last := |ids| - 1;
    if last > 0 {
      HeadOnce(ids[..last]);
      assert ids[..last][1..] + [ids[last]] == ids[1..];
    }
  }

  lemma ForgetPopped(s: Service, c: Connection)
    requires s.idle != [] && NoDuplicates(s.idle)
    ensures var id := s.idle[0];
      ForgetConnection(s.(idle := s.idle[1..]), id, c) == ForgetConnection(s, id, c) &&
      ForgetConnection(s, id, c).idle == s.idle[1..]
  {
    HeadOnce(s.idle);
    hide FindBackend; hide Lower; hide Without;
  }

  /** Popping the head of the idle list before removing its connection makes no difference. */
  lemma PopThenRemove(p: Pool, name: string)
    requires name in p.services && p.services[name].idle != [] && NoDuplicates(p.services[name].idle)
    requires p.services[name].idle[0] in p.connections && p.connections[p.services[name].idle[0]].service == name
    ensures var s := p.services[name];
      var left := RemoveConnection(p, s.idle[0]);
      && RemoveConnection(SetService(p, name, s.(idle := s.idle[1..])), s.idle[0]) == left
      && left.services[name].idle == s.idle[1..]
  {
    var s := p.services[name];
    var popped := s.(idle := s.idle[1..]);
    var c := p.connections[s.idle[0]];
    ForgetPopped(s, c);
    hide ForgetConnection;
    assert p.services[name := popped][name := ForgetConnection(s, s.idle[0], c)]
        == p.services[name := ForgetConnection(s, s.idle[0], c)];
  }

  lemma ReuseOk(connections: map<Id, Connection>, s: Service, name: string, now: int)
    requires s.idle != [] && ServiceOk(connections, name, s, {})
    ensures s.idle[0] in connections
    ensures var id := s.idle[0];
      var c := connections[id].(active := true, lastUsed := now);
      var k := FindBackend(s.backends, c.host, c.port);
      k < |s.backends| ==>
        ServiceOk(connections[id := c], name, s.(idle := s.idle[1..], backends := AddLease(s.backends, k)), {})
  {
    var id := s.idle[0];
    assert InactiveOf(connections, name, id);
    var c := connections[id].(active := true, lastUsed := now);
    var after := connections[id := c];
    var k := FindBackend(s.backends, c.host, c.port);
    if k < |s.backends| {
      var bs := AddLease(s.backends, k);
      forall other ensures InactiveOf(after, name, other) <==> InactiveOf(connections, name, other) && other != id {}
      assert IdleExact(after, name, s.(idle := s.idle[1..], backends := bs)) by {
        forall other ensures other in s.idle[1..] <==> other in s.idle && other != id {
          HeadOnce(s.idle);
        }
      }
      assert LeasesCovered(after, name, bs) && DistinctAddresses(bs) by {
        LeaseAdded(connections, id, c, s.backends, k);
        LeaseKeepsAddresses(s.backends, k);
      }
      assert IdleServed(after, name, bs, {}) by {
        StillServed(connections, after, name, s.backends, bs);
      }
      assert Owned(after, name) == Owned(connections, name);
    }
  }

  predicate TimedOut(c: Connection, timeout: int, now: int) {
    timeout > 0 && now - c.lastUsed > timeout
  }

  /** Index of the first listed connection that has not timed out, or the length of the list. */
  function FirstUsable(connections: map<Id, Connection>, ids: seq<Id>, timeout: int, now: int): (k: nat)
    ensures k <= |ids|
    ensures forall j :: 0 <= j < k ==> ids[j] in connections && TimedOut(connections[ids[j]], timeout, now)
    ensures k < |ids| && ids[k] in connections ==> !TimedOut(connections[ids[k]], timeout, now)
  {
    if ids == [] || ids[0] !in connections || !TimedOut(connections[ids[0]], timeout, now) then 0
    else 1 + FirstUsable(connections, ids[1..], timeout, now)
  }

  lemma {:induction false} FirstUsableElsewhere(connections: map<Id, Connection>, gone: Id, ids: seq<Id>,
      timeout: int, now: int)
    requires gone !in ids
    ensures FirstUsable(connections - {gone}, ids, timeout, now) == FirstUsable(connections, ids, timeout, now)
  {
    if ids != [] {
      FirstUsableElsewhere(connections, gone, ids[1..], timeout, now);
    }
  }

  lemma {:induction false} AddLeaseSum(bs: seq<Backend>, k: nat)
    requires k < |bs|
    ensures ActiveSum(AddLease(bs, k)) == ActiveSum(bs) + 1
  {
    var last := |bs| - 1;
    if k < last {
      AddLeaseSum(bs[..last], k);
      assert AddLease(bs, k)[..last] == AddLease(bs[..last], k);
    } else {
      assert AddLease(bs, k)[..last] == bs[..last];
    }
  }

  // One round of the search, without the invariant in sight.

  lemma SearchSkips(p: Pool, name: string, timeout: int, now: int)
    requires name in p.services && p.services[name].idle != [] && NoDuplicates(p.services[name].idle)
    requires var id := p.services[name].idle[0];
      && id in p.connections && !p.connections[id].active && p.connections[id].service == name
      && TimedOut(p.connections[id], timeout, now)
    ensures var left := RemoveConnection(p, p.services[name].idle[0]);
      && left.services[name] == p.services[name].(idle := p.services[name].idle[1..],
        total := left.services[name].total)
      && TakeIdle(p, name, timeout, now) == TakeIdle(left, name, timeout, now)
  {
    PopThenRemove(p, name);
  }

  lemma SearchReuses(p: Pool, name: string, timeout: int, now: int)
    requires name in p.services && p.services[name].idle != []
    requires var s := p.services[name];
      && s.idle[0] in p.connections && !p.connections[s.idle[0]].active
      && !TimedOut(p.connections[s.idle[0]], timeout, now)
      && var k := FindBackend(s.backends, p.connections[s.idle[0]].host, p.connections[s.idle[0]].port);
         k < |s.backends| && s.backends[k].healthy
    ensures var s := p.services[name];
      var c := p.connections[s.idle[0]].(active := true, lastUsed := now);
      TakeIdle(p, name, timeout, now) ==
        (Pool(p.connections[s.idle[0] := c],
              p.services[name := s.(idle := s.idle[1..],
                backends := AddLease(s.backends, FindBackend(s.backends, c.host, c.port)))],
              p.nextId),
         s.idle[0])
  {
    var s := p.services[name];
    var k := FindBackend(s.backends, p.connections[s.idle[0]].host, p.connections[s.idle[0]].port);
    var reused := s.(idle := s.idle[1..], backends := AddLease(s.backends, k));
    assert p.services[name := s.(idle := s.idle[1..])][name := reused] == p.services[name := reused];
  }

  /** What the search is for: the first usable idle connection, the timed-out ones before it dropped. */
  ghost predicate Searched(p: Pool, name: string, k: nat, after: Pool, id: Id)
    requires name in p.services && k <= |p.services[name].idle|
  {
    var idle := p.services[name].idle;
    && name in after.services
    && after.connections.Keys == p.connections.Keys - (set j | j in idle[..k])
    && id == (if k < |idle| then idle[k] else 0)
    && after.services[name].idle == idle[if k < |idle| then k + 1 else k..]
    && after.services[name].breaker == p.services[name].breaker
    && (k == |idle| ==> after.services[name].backends == p.services[name].backends)
    && ActiveSum(after.services[name].backends) == ActiveSum(p.services[name].backends) + if k < |idle| then 1 else 0
  }

  lemma SearchedFurther(p: Pool, name: string, left: Pool, k: nat, after: Pool, id: Id)
    requires name in p.services && p.services[name].idle != [] && name in left.services
    requires left.connections.Keys == p.connections.Keys - {p.services[name].idle[0]}
    requires left.services[name] == p.services[name].(idle := p.services[name].idle[1..],
      total := left.services[name].total)
    requires k <= |left.services[name].idle| && Searched(left, name, k, after, id)
    ensures Searched(p, name, k + 1, after, id)
  {
    var idle := p.services[name].idle;
    assert idle[..k + 1] == [idle[0]] + idle[1..][..k];
    assert k < |idle[1..]| ==> idle[1..][k + 1..] == idle[k + 2..];
  }

  /** The idle connections of a service are all there to be reused. */
  ghost predicate AllReusable(p: Pool, name: string)
    requires name in p.services
  {
    && NoDuplicates(p.services[name].idle)
    && forall id :: id in p.services[name].idle ==> Reusable(p, name, id)
  }

  ghost predicate Reusable(p: Pool, name: string, id: Id)
    requires name in p.services
  {
    var bs := p.services[name].backends;
    && id in p.connections && !p.connections[id].active && p.connections[id].service == name
    && var k := FindBackend(bs, p.connections[id].host, p.connections[id].port);
       k < |bs| && bs[k].healthy
  }

  lemma InvariantReusable(p: Pool, name: string)
    requires Invariant(p) && name in p.services
    ensures AllReusable(p, name)
  {
    assert ServiceOk(p.connections, name, p.services[name], {});
    forall id | id in p.services[name].idle ensures Reusable(p, name, id) {
      IdleReusable(p, name, id);
    }
  }

  /**
   The search reuses the first idle connection that has not timed out, drops exactly the timed-out ones
   before it, and comes back empty-handed only when every idle connection has timed out.
   */
  lemma {:induction false} SearchFinds(p: Pool, name: string, timeout: int, now: int)
    requires name in p.services && AllReusable(p, name)
    ensures var (after, id) := TakeIdle(p, name, timeout, now);
      Searched(p, name, FirstUsable(p.connections, p.services[name].idle, timeout, now), after, id)
    decreases |p.services[name].idle|
  {
    hide TakeIdle; hide RemoveConnection; hide Searched;
    var s := p.services[name];
    if s.idle == [] {
      SearchedNothing(p, name, timeout, now);
    } else {
      assert Reusable(p, name, s.idle[0]);
      if TimedOut(p.connections[s.idle[0]], timeout, now) {
        SearchSkips(p, name, timeout, now);
        StillReusable(p, name);
        var left := RemoveConnection(p, s.idle[0]);
        SearchFinds(left, name, timeout, now);
        FirstUsableElsewhere(p.connections, s.idle[0], s.idle[1..], timeout, now);
        var (after, found) := TakeIdle(left, name, timeout, now);
        SearchedFurther(p, name, left, FirstUsable(left.connections, s.idle[1..], timeout, now), after, found);
      } else {
        SearchedHead(p, name, timeout, now);
      }
    }
  }

  lemma SearchedNothing(p: Pool, name: string, timeout: int, now: int)
    requires name in p.services && p.services[name].idle == []
    ensures var (after, id) := TakeIdle(p, name, timeout, now); Searched(p, name, 0, after, id)
  {
  }

  lemma SearchedHead(p: Pool, name: string, timeout: int, now: int)
    requires name in p.services && p.services[name].idle != [] && Reusable(p, name, p.services[name].idle[0])
    requires !TimedOut(p.connections[p.services[name].idle[0]], timeout, now)
    ensures var (after, id) := TakeIdle(p, name, timeout, now); Searched(p, name, 0, after, id)
  {
    hide TakeIdle; hide FindBackend;
    var s := p.services[name];
    SearchReuses(p, name, timeout, now);
    AddLeaseSum(s.backends, FindBackend(s.backends, p.connections[s.idle[0]].host, p.connections[s.idle[0]].port));
  }

  /** Removing the head of the idle list leaves the rest reusable. */
  lemma StillReusable(p: Pool, name: string)
    requires name in p.services && AllReusable(p, name) && p.services[name].idle != []
    ensures p.services[name].idle[0] in p.connections
    ensures var left := RemoveConnection(p, p.services[name].idle[0]);
      && left.connections == p.connections - {p.services[name].idle[0]}
      && name in left.services && AllReusable(left, name)
  {
    var s := p.services[name];
    assert Reusable(p, name, s.idle[0]);
    PopThenRemove(p, name);
    var left := RemoveConnection(p, s.idle[0]);
    forall id | id in s.idle[1..] ensures Reusable(left, name, id) {
      assert Reusable(p, name, id);
    }
  }

  lemma {:induction false} TakeIdleKeeps(p: Pool, name: string, timeout: int, now: int)
    requires Invariant(p) && name in p.services
    ensures Invariant(TakeIdle(p, name, timeout, now).0)
    decreases |p.services[name].idle|
  {
    var s := p.services[name];
    if s.idle != [] {
      InvariantReusable(p, name);
      assert Reusable(p, name, s.idle[0]);
      if TimedOut(p.connections[s.idle[0]], timeout, now) {
        SearchSkips(p, name, timeout, now);
        RemoveConnectionKeeps(p, s.idle[0]);
        TakeIdleKeeps(RemoveConnection(p, s.idle[0]), name, timeout, now);
      } else {
        SearchReuses(p, name, timeout, now);
        ReuseKeeps(p, name, now);
      }
    }
  }

  lemma ReuseKeeps(p: Pool, name: string, now: int)
    requires Invariant(p) && name in p.services && p.services[name].idle != []
    requires var id := p.services[name].idle[0];
      id in p.connections && p.connections[id].service == name
    requires var s := p.services[name];
      FindBackend(s.backends, p.connections[s.idle[0]].host, p.connections[s.idle[0]].port) < |s.backends|
    ensures var s := p.services[name];
      var c := p.connections[s.idle[0]].(active := true, lastUsed := now);
      Invariant(Pool(p.connections[s.idle[0] := c],
        p.services[name := s.(idle := s.idle[1..], backends := AddLease(s.backends,
          FindBackend(s.backends, c.host, c.port)))],
        p.nextId))
  {
    var s := p.services[name];
    var c := p.connections[s.idle[0]].(active := true, lastUsed := now);
    assert ServiceOk(p.connections, name, s, {});
    ReuseOk(p.connections, s, name, now);
    SetEntryKeeps(p, s.idle[0], c,
      s.(idle := s.idle[1..], backends := AddLease(s.backends, FindBackend(s.backends, c.host, c.port))), p.nextId);
  }

  lemma GrowKeeps(p: Pool, name: string, keyed: bool, draw: nat, now: int)
    requires Invariant(p) && name in p.services
    ensures Invariant(Grow(p, name, keyed, draw, now).0)
  {
    if p.services[name].total < p.services[name].maxPool {
      var (selected, k) := Select(p.services[name], keyed, draw);
      assert ServiceOk(p.connections, name, p.services[name], {});
      BackendsChangeKeeps(p.connections, name, p.services[name], selected);
      SetServiceKeeps(p, name, selected, {});
      if k < |selected.backends| {
        CreateKeeps(SetService(p, name, selected), name, k, now);
      }
    }
  }

  lemma LeaseKeeps(p: Pool, name: string, timeout: int, keyed: bool, draw: nat, now: int)
    requires Invariant(p) && name in p.services
    ensures Invariant(Lease(p, name, timeout, keyed, draw, now).0)
  {
    TakeIdleKeeps(p, name, timeout, now);
    GrowKeeps(TakeIdle(p, name, timeout, now).0, name, keyed, draw, now);
  }

  lemma AcquireKeeps(p: Pool, cfg: Config, name: string, keyed: bool, draw: nat, now: int)
    requires Invariant(p) && ValidConfig(cfg)
    ensures Invariant(Acquire(p, cfg, name, keyed, draw, now).0)
  {
    if name != "" {
      EnsureKeeps(p, cfg, name);
      var ready := Ensure(p, cfg, name);
      var s := ready.services[name];
      var probed := SetService(ready, name, s.(breaker := Breaker.Probe(s.breaker, cfg.policy, now)));
      assert Invariant(probed) by {
        assert ServiceOk(ready.connections, name, s, {});
        SetServiceKeeps(ready, name, probed.services[name], {});
      }
      LeaseKeeps(probed, name, cfg.idleTimeout, keyed, draw, now);
    }
  }

  // ---------------------------------------------------------------- release

  lemma ReleaseOk(connections: map<Id, Connection>, id: Id, s: Service, k: nat, now: int)
    requires id in connections && connections[id].active && ServiceOk(connections, connections[id].service, s, {})
    requires k == FindBackend(s.backends, connections[id].host, connections[id].port) < |s.backends| &&
      s.backends[k].healthy
    ensures ServiceOk(connections[id := connections[id].(active := false, lastUsed := now)], connections[id].service,
                      s.(idle := s.idle + [id], backends := Lower(s.backends, k)), {})
  {
    var c := connections[id];
    var bs, after := Lower(s.backends, k), connections[id := c.(active := false, lastUsed := now)];
    assert At(bs[k], c.host, c.port) && bs[k].healthy && bs[k] in bs;
    assert !InactiveOf(connections, c.service, id);
    forall other
      ensures InactiveOf(after, c.service, other) <==> InactiveOf(connections, c.service, other) || other == id
    {
    }
    assert LeasesCovered(after, c.service, bs) && DistinctAddresses(bs) by {
      LeaseDropped(connections, id, s.backends);
      ReleasedLeases(connections, id, now, bs);
    }
    assert IdleServed(after, c.service, bs, {}) by {
      hide FindBackend;
      StillServed(connections, connections, c.service, s.backends, bs);
      assert forall other :: InactiveOf(after, c.service, other) && other != id ==> after[other] == connections[other];
    }
    hide FindBackend; hide LeasesCovered; hide IdleServed; hide Lower;
    assert IdleExact(after, c.service, s.(idle := s.idle + [id], backends := bs));
    assert Owned(after, c.service) == Owned(connections, c.service);
  }

  /** To the lease counts, releasing a connection is like dropping it. */
  lemma ReleasedLeases(connections: map<Id, Connection>, id: Id, now: int, bs: seq<Backend>)
    requires id in connections && LeasesCovered(connections - {id}, connections[id].service, bs)
    ensures LeasesCovered(connections[id := connections[id].(active := false, lastUsed := now)],
      connections[id].service, bs)
  {
    var c := connections[id];
    var after := connections[id := c.(active := false, lastUsed := now)];
    forall b | b in bs
      ensures Leased(after, c.service, b.host, b.port) == Leased(connections - {id}, c.service, b.host, b.port)
    {
    }
  }

  lemma ReleaseKeeps(p: Pool, id: Id, now: int)
    requires Invariant(p)
    ensures Invariant(Release(p, id, now))
  {
    if id in p.connections && p.connections[id].active {
      var c := p.connections[id];
      var s := p.services[c.service];
      assert ServiceOk(p.connections, c.service, s, {});
      var k := FindBackend(s.backends, c.host, c.port);
      if k == |s.backends| || !s.backends[k].healthy {
        RemoveConnectionKeeps(p, id);
      } else {
        ReleaseOk(p.connections, id, s, k, now);
        SetEntryKeeps(p, id, c.(active := false, lastUsed := now), Release(p, id, now).services[c.service], p.nextId);
      }
    }
  }

  // ---------------------------------------------------------------- backends

  lemma AddBackendKeeps(p: Pool, cfg: Config, name: string, host: string, port: nat, weight: int)
    requires Invariant(p) && ValidConfig(cfg)
    ensures Invariant(AddBackend(p, cfg, name, host, port, weight))
  {
    if name != "" && host != "" && port != 0 {
      EnsureKeeps(p, cfg, name);
      var ready := Ensure(p, cfg, name);
      var s := ready.services[name];
      assert ServiceOk(ready.connections, name, s, {});
      var after := AddBackend(p, cfg, name, host, port, weight).services[name];
      if FindBackend(s.backends, host, port) < |s.backends| {
        BackendsChangeKeeps(ready.connections, name, s, after);
      } else {
        BackendAppended(ready.connections, name, s, after.backends[|s.backends|]);
      }
      SetServiceKeeps(ready, name, after, {});
    }
  }

  lemma BackendAppended(connections: map<Id, Connection>, name: string, s: Service, b: Backend)
    requires ServiceOk(connections, name, s, {}) && b.active == 0
    requires FindBackend(s.backends, b.host, b.port) == |s.backends|
    ensures ServiceOk(connections, name, s.(backends := s.backends + [b]), {})
  {
    var bs := s.backends + [b];
    assert LeasesCovered(connections, name, bs);
    forall id | InactiveOf(connections, name, id) ensures Serving(bs, connections[id].host, connections[id].port) {
      var served :| served in s.backends && At(served, connections[id].host, connections[id].port) && served.healthy;
      assert served in bs;
    }
  }

  /** When one address loses its healthy backend, only the idle connections to it are affected. */
  lemma AddressLost(p: Pool, name: string, s: Service, host: string, port: nat, doomed: set<Id>)
    requires InvariantBut(p, doomed) && name in p.services
    requires var was := p.services[name];
      && s.idle == was.idle && s.total == was.total && s.maxPool == was.maxPool
      && DistinctAddresses(s.backends) && LeasesCovered(p.connections, name, s.backends)
      && forall b :: b in was.backends && !At(b, host, port) ==> b in s.backends
    ensures InvariantBut(SetService(p, name, s), doomed + IdleAt(p.connections, name, host, port))
  {
    var lost := doomed + IdleAt(p.connections, name, host, port);
    var was := p.services[name];
    assert ServiceOk(p.connections, name, was, doomed);
    assert ServiceOk(p.connections, name, s, lost) by {
      forall id | InactiveOf(p.connections, name, id) && id !in lost
        ensures Serving(s.backends, p.connections[id].host, p.connections[id].port)
      {
        var b :| b in was.backends && At(b, p.connections[id].host, p.connections[id].port) && b.healthy;
        assert b in s.backends;
      }
    }
    forall n | n in p.services && n != name ensures ServiceOk(p.connections, n, p.services[n], lost) {
      assert ServiceOk(p.connections, n, p.services[n], doomed);
    }
  }

  lemma RemoveBackendKeeps(p: Pool, name: string, host: string, port: nat)
    requires Invariant(p)
    ensures Invariant(RemoveBackend(p, name, host, port))
  {
    if name in p.services {
      var s, lost := p.services[name], IdleAt(p.connections, name, host, port);
      assert ServiceOk(p.connections, name, s, {});
      var backends := DropBackend(s.backends, host, port);
      var cursor := if s.cursor >= |backends| > 0 then s.cursor % |backends| else s.cursor;
      var after := s.(backends := backends, cursor := cursor);
      DropKeepsDistinct(s.backends, host, port);
      AddressLost(p, name, after, host, port, {});
      assert {} + lost == lost;
      PurgeKeeps(SetService(p, name, after), lost);
    }
  }

  lemma UpdateWeightKeeps(p: Pool, name: string, host: string, port: nat, weight: int)
    requires Invariant(p)
    ensures Invariant(UpdateWeight(p, name, host, port, weight))
  {
    if name in p.services && FindBackend(p.services[name].backends, host, port) < |p.services[name].backends| {
      var after := UpdateWeight(p, name, host, port, weight).services[name];
      assert ServiceOk(p.connections, name, p.services[name], {});
      BackendsChangeKeeps(p.connections, name, p.services[name], after);
      SetServiceKeeps(p, name, after, {});
    }
  }

  // ---------------------------------------------------------------- reports

  lemma ReportToOk(connections: map<Id, Connection>, name: string, s: Service, host: string, port: nat,
                   success: bool, threshold: nat, now: int, doomed: set<Id>)
    requires ServiceOk(connections, name, s, {})
    requires FallsSick(s, host, port, success, threshold) ==> IdleAt(connections, name, host, port) <= doomed
    ensures ServiceOk(connections, name, ReportTo(s, host, port, success, threshold, now), doomed)
  {
    var after := ReportTo(s, host, port, success, threshold, now);
    LeasesStillCovered(connections, name, s.backends, after.backends);
    forall id | InactiveOf(connections, name, id) && id !in doomed
      ensures Serving(after.backends, connections[id].host, connections[id].port)
    {
      ServingKept(s.backends, after.backends, connections[id].host, connections[id].port);
    }
  }

  lemma ReportStatusKeeps(p: Pool, scope: set<string>, host: string, port: nat, success: bool, threshold: nat, now: int)
    requires Invariant(p)
    ensures Invariant(ReportStatus(p, scope, host, port, success, threshold, now))
  {
    var doomed := Doomed(p, scope, host, port, success, threshold);
    var reported := p.(services := map name | name in p.services ::
      if name in scope then ReportTo(p.services[name], host, port, success, threshold, now) else p.services[name]);
    forall name | name in reported.services
      ensures ServiceOk(reported.connections, name, reported.services[name], doomed)
    {
      assert ServiceOk(p.connections, name, p.services[name], {});
      if name in scope {
        ReportToOk(p.connections, name, p.services[name], host, port, success, threshold, now, doomed);
      }
    }
    PurgeKeeps(reported, doomed);
  }

  lemma ReportExecutionKeeps(p: Pool, cfg: Config, scope: set<string>, success: bool, now: int)
    requires Invariant(p)
    ensures Invariant(ReportExecution(p, cfg, scope, success, now))
  {
    var after := ReportExecution(p, cfg, scope, success, now);
    forall name | name in after.services ensures ServiceOk(after.connections, name, after.services[name], {}) {
      assert ServiceOk(p.connections, name, p.services[name], {});
    }
  }

  // ---------------------------------------------------------------- maintenance

  /** Pruning finds nothing to prune. */
  lemma PruneIdle(connections: map<Id, Connection>, name: string, s: Service)
    requires IdleExact(connections, name, s)
    ensures Prune(s, connections) == s
  {
    WithoutNothing(s.idle, set id | id in s.idle && (id !in connections || connections[id].active));
  }

  lemma CleanupExpiredKeeps(p: Pool, timeout: int, now: int)
    requires Invariant(p)
    ensures Invariant(CleanupExpired(p, timeout, now))
  {
    var doomed := set id | id in p.connections && Expired(p.connections[id], timeout, now);
    forall name | name in p.services ensures ServiceOk(p.connections, name, p.services[name], doomed) {
      assert ServiceOk(p.connections, name, p.services[name], {});
    }
    PurgeKeeps(p, doomed);
    var kept := Purge(p, doomed);
    forall name | name in kept.services ensures Prune(kept.services[name], kept.connections) == kept.services[name] {
      assert ServiceOk(kept.connections, name, kept.services[name], {});
      PruneIdle(kept.connections, name, kept.services[name]);
    }
    assert CleanupExpired(p, timeout, now).services == kept.services;
  }

  lemma CheckServiceKeeps(connections: map<Id, Connection>, name: string, s: Service, policy: Breaker.Policy, now: int)
    requires ServiceOk(connections, name, s, {})
    ensures ServiceOk(connections, name, CheckService(s, connections, policy, now), {})
  {
    var checked := s.(breaker := Breaker.Sweep(s.breaker, policy, now),
      backends := RecoverAll(s.backends, policy.recovery, now));
    BackendsChangeKeeps(connections, name, s, checked);
    PruneIdle(connections, name, checked);
  }

  lemma MaintainKeeps(p: Pool, cfg: Config, now: int)
    requires Invariant(p)
    ensures Invariant(Maintain(p, cfg, now))
  {
    CleanupExpiredKeeps(p, cfg.idleTimeout, now);
    var kept := CleanupExpired(p, cfg.idleTimeout, now);
    var after := Maintain(p, cfg, now);
    forall name | name in after.services ensures ServiceOk(after.connections, name, after.services[name], {}) {
      assert ServiceOk(kept.connections, name, kept.services[name], {});
      CheckServiceKeeps(kept.connections, name, kept.services[name], cfg.policy, now);
    }
  }

  // ---------------------------------------------------------------- every step, every run

  lemma StepKeeps(p: Pool, cfg: Config, op: Op, now: int)
    requires Invariant(p) && ValidConfig(cfg)
    ensures Invariant(Step(p, cfg, op, now).0)
  {
    match op
    case AcquireOp(name, keyed, draw) => AcquireKeeps(p, cfg, name, keyed, draw, now);
    case ReleaseOp(id) => ReleaseKeeps(p, id, now);
    case CloseOp(id) => if id in p.connections { RemoveConnectionKeeps(p, id); }
    case AddOp(name, host, port, weight) => AddBackendKeeps(p, cfg, name, host, port, weight);
    case RemoveOp(name, host, port) => RemoveBackendKeeps(p, name, host, port);
    case WeightOp(name, host, port, weight) => UpdateWeightKeeps(p, name, host, port, weight);
    case StrategyOp(name, strategy) =>
      EnsureKeeps(p, cfg, name);
      var ready := Ensure(p, cfg, name);
      assert ServiceOk(ready.connections, name, ready.services[name], {});
      SetServiceKeeps(ready, name, ready.services[name].(strategy := strategy), {});
    case StatusOp(name, host, port, success) => ReportStatusKeeps(p, {name}, host, port, success,
      cfg.policy.threshold, now);
    case StatusAllOp(host, port, success) => ReportStatusKeeps(p, p.services.Keys, host, port, success,
      cfg.policy.threshold, now);
    case ExecutionOp(name, success) => ReportExecutionKeeps(p, cfg, {name}, success, now);
    case ExecutionAllOp(success) => ReportExecutionKeeps(p, cfg, p.services.Keys, success, now);
    case MaintainOp => MaintainKeeps(p, cfg, now);
    case ClearOp =>
  }

  /** The invariant holds in every reachable state. */
  lemma {:induction false} AlwaysInvariant(cfg: Config, history: seq<Timed>)
    requires ValidConfig(cfg)
    ensures Invariant(Run(cfg, history))
  {
    if history != [] {
      var last := history[|history| - 1];
      AlwaysInvariant(cfg, history[..|history| - 1]);
      StepKeeps(Run(cfg, history[..|history| - 1]), cfg, last.op, last.at);
    }
  }
}
