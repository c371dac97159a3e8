/** What the connection manager guarantees over whole runs: leases, and the breaker of each service. */
module PoolRuns {
  import opened Balancer
  import opened ServicePool
  import opened PoolInvariant
  import opened PoolSteps
  import Breaker

  // ---------------------------------------------------------------- how a step changes the table

  /**
   No id below the counter reappears, a lease ends only by its own release or by removal, and what is
   handed out was idle or is brand new.
   */
  ghost predicate Evolves(p: Pool, after: Pool, op: Op, result: Id) {
    && p.nextId <= after.nextId
    && (forall id :: id in after.connections && id < p.nextId ==> id in p.connections)
    && (forall id :: id in after.connections && id in p.connections && op != ReleaseOp(id) ==>
        p.connections[id].active ==> after.connections[id].active)
    && (result != 0 ==>
        && result in after.connections && after.connections[result].active && result < after.nextId
        && (result == p.nextId || (result in p.connections && !p.connections[result].active)))
  }

  lemma {:induction false} TakeIdleEvolves(p: Pool, name: string, timeout: int, now: int)
    requires name in p.services && 0 !in p.connections
    ensures var (after, result) := TakeIdle(p, name, timeout, now);
      && after.nextId == p.nextId
      && after.connections.Keys <= p.connections.Keys
      && (forall id :: id in after.connections && id != result ==> after.connections[id] == p.connections[id])
      && (result != 0 ==>
          && result in p.connections && !p.connections[result].active
          && result in after.connections && after.connections[result].active)
    decreases |p.services[name].idle|
  {
    var s := p.services[name];
    if s.idle != [] {
      var id := s.idle[0];
      var popped := SetService(p, name, s.(idle := s.idle[1..]));
      if id !in p.connections || p.connections[id].active {
        TakeIdleEvolves(popped, name, timeout, now);
      } else if TimedOut(p.connections[id], timeout, now) {
        TakeIdleEvolves(RemoveConnection(popped, id), name, timeout, now);
      } else {
        var taken := popped.(connections := p.connections[id := p.connections[id].(active := true, lastUsed := now)]);
        var k := FindBackend(s.backends, p.connections[id].host, p.connections[id].port);
        if k == |s.backends| || !s.backends[k].healthy {
          TakeIdleEvolves(RemoveConnection(taken, id), name, timeout, now);
        }
      }
    }
  }

  lemma LeaseEvolves(p: Pool, name: string, timeout: int, keyed: bool, draw: nat, now: int, op: Op)
    requires name in p.services && p.nextId !in p.connections && 0 < p.nextId
    requires forall id :: id in p.connections ==> 0 < id < p.nextId
    ensures var (after, result) := Lease(p, name, timeout, keyed, draw, now); Evolves(p, after, op, result)
  {
    hide TakeIdle; hide Select;
    TakeIdleEvolves(p, name, timeout, now);
    var after := TakeIdle(p, name, timeout, now).0;
    assert forall id :: id in after.connections && p.connections[id].active ==> after.connections[id].active;
  }

  lemma AcquireEvolves(p: Pool, cfg: Config, op: Op, now: int)
    requires Invariant(p) && ValidConfig(cfg) && op.AcquireOp?
    ensures var (after, result) := Step(p, cfg, op, now); Evolves(p, after, op, result)
  {
    assert 0 < p.nextId && forall id :: id in p.connections ==> 0 < id < p.nextId;
    hide Lease; hide Invariant;
    var name := op.service;
    if name != "" {
      var ready := Ensure(p, cfg, name);
      var s := ready.services[name];
      var probed := SetService(ready, name, s.(breaker := Breaker.Probe(s.breaker, cfg.policy, now)));
      LeaseEvolves(probed, name, cfg.idleTimeout, op.keyed, op.draw, now, op);
    }
  }

  /** Connections may go but none changes or appears. */
  ghost predicate Shrinks(p: Pool, after: Pool) {
    && after.nextId == p.nextId
    && after.connections.Keys <= p.connections.Keys
    && forall id :: id in after.connections ==> after.connections[id] == p.connections[id]
  }

  lemma OthersShrink(p: Pool, cfg: Config, op: Op, now: int)
    requires !op.AcquireOp? && !op.ReleaseOp?
    ensures Shrinks(p, Step(p, cfg, op, now).0)
  {
    hide PurgeService; hide ReportTo; hide CheckService; hide Prune; hide ForgetConnection; hide Doomed;
    match op
    case CloseOp(id) =>
    case AddOp(name, host, port, weight) =>
    case RemoveOp(name, host, port) =>
    case StatusOp(name, host, port, success) =>
    case StatusAllOp(host, port, success) =>
    case MaintainOp =>
    case _ =>
  }

  lemma ReleaseEvolves(p: Pool, id: Id, now: int)
    ensures Evolves(p, Release(p, id, now), ReleaseOp(id), 0)
  {
  }

  lemma StepEvolves(p: Pool, cfg: Config, op: Op, now: int)
    requires Invariant(p) && ValidConfig(cfg)
    ensures var (after, result) := Step(p, cfg, op, now); Evolves(p, after, op, result)
  {
    if op.AcquireOp? {
      AcquireEvolves(p, cfg, op, now);
    } else if op.ReleaseOp? {
      ReleaseEvolves(p, op.id, now);
    } else {
      OthersShrink(p, cfg, op, now);
      OthersReturnNothing(p, cfg, op, now);
      hide Step; hide Invariant;
    }
  }

  lemma OthersReturnNothing(p: Pool, cfg: Config, op: Op, now: int)
    requires !op.AcquireOp?
    ensures Step(p, cfg, op, now).1 == 0
  {
  }

  // ---------------------------------------------------------------- leases over a run

  lemma RunStep(cfg: Config, history: seq<Timed>, t: nat)
    requires t < |history|
    ensures Run(cfg, history[..t + 1]) == Step(Run(cfg, history[..t]), cfg, history[t].op, history[t].at).0
  {
    assert history[..t + 1][..t] == history[..t];
  }

  lemma RunEvolves(cfg: Config, history: seq<Timed>, t: nat)
    requires ValidConfig(cfg) && t < |history|
    ensures Invariant(Run(cfg, history[..t]))
    ensures Evolves(Run(cfg, history[..t]), Run(cfg, history[..t + 1]), history[t].op, Result(cfg, history, t))
  {
    AlwaysInvariant(cfg, history[..t]);
    RunStep(cfg, history, t);
    StepEvolves(Run(cfg, history[..t]), cfg, history[t].op, history[t].at);
  }

  ghost predicate IssuedButGone(p: Pool, id: Id) {
    0 < id < p.nextId && id !in p.connections
  }

  /** A connection that has left the table never comes back and is never handed out again. */
  lemma {:induction false} GoneForever(cfg: Config, history: seq<Timed>, id: Id, i: nat, j: nat)
    requires ValidConfig(cfg) && i <= j <= |history| && IssuedButGone(Run(cfg, history[..i]), id)
    ensures IssuedButGone(Run(cfg, history[..j]), id)
    ensures j < |history| ==> Result(cfg, history, j) != id
    decreases j
  {
    hide Run; hide Result; hide Invariant;
    if i < j {
      GoneForever(cfg, history, id, i, j - 1);
      RunEvolves(cfg, history, j - 1);
    }
    if j < |history| {
      RunEvolves(cfg, history, j);
    }
  }

  /** Once leased and not released, an id is either still leased or gone. */
  lemma {:induction false} HeldUntilReleased(cfg: Config, history: seq<Timed>, id: Id, i: nat, j: nat)
    requires ValidConfig(cfg) && i < j <= |history| && id != 0 && Result(cfg, history, i) == id
    requires forall k :: i < k < j ==> history[k].op != ReleaseOp(id)
    ensures var p := Run(cfg, history[..j]); 0 < id < p.nextId && (id in p.connections ==> p.connections[id].active)
    decreases j
  {
    hide Run; hide Result; hide Invariant;
    RunEvolves(cfg, history, i);
    if i + 1 < j {
      HeldUntilReleased(cfg, history, id, i, j - 1);
      RunEvolves(cfg, history, j - 1);
    }
  }

  /** An id that has been handed out is not handed out again unless it was released in between. */
  lemma {:induction false} NoDoubleLease(cfg: Config, history: seq<Timed>, i: nat, j: nat)
    requires ValidConfig(cfg) && i < j < |history|
    requires Result(cfg, history, i) == Result(cfg, history, j) != 0
    ensures exists k :: i < k < j && history[k].op == ReleaseOp(Result(cfg, history, i))
  {
    var id := Result(cfg, history, i);
    if forall k :: i < k < j ==> history[k].op != ReleaseOp(id) {
      HeldUntilReleased(cfg, history, id, i, j);
      RunEvolves(cfg, history, j);
    }
  }

  /** An id that has been closed after it was issued is never handed out again. */
  lemma {:induction false} NeverAfterClose(cfg: Config, history: seq<Timed>, id: Id, k: nat, j: nat)
    requires ValidConfig(cfg) && k < j < |history| && history[k].op == CloseOp(id)
    requires 0 < id < Run(cfg, history[..k]).nextId
    ensures Result(cfg, history, j) != id
  {
    RunEvolves(cfg, history, k);
    RunStep(cfg, history, k);
    GoneForever(cfg, history, id, k + 1, j);
  }

  // ---------------------------------------------------------------- the breaker of a service

  /** The breaker events that an operation means for one service. */
  function Events(op: Op, at: int, name: string): seq<Breaker.Event> {
    match op
    case AcquireOp(n, _, _) => if n == name != "" then [Breaker.Probed(at)] else []
    case ExecutionOp(n, success) => if n == name then [Breaker.Reported(success, at)] else []
    case ExecutionAllOp(success) => [Breaker.Reported(success, at)]
    case MaintainOp => [Breaker.Swept(at)]
    case _ => []
  }

  function EventsOf(history: seq<Timed>, name: string): seq<Breaker.Event> {
    if history == [] then []
    else
      var last := history[|history| - 1];
      EventsOf(history[..|history| - 1], name) + Events(last.op, last.at, name)
  }

  lemma {:induction false} TakeIdleBreaker(p: Pool, name: string, other: string, timeout: int, now: int)
    requires name in p.services && other in p.services
    ensures var after := TakeIdle(p, name, timeout, now).0;
      other in after.services && after.services[other].breaker == p.services[other].breaker
    decreases |p.services[name].idle|
  {
    var s := p.services[name];
    if s.idle != [] {
      var id := s.idle[0];
      var popped := SetService(p, name, s.(idle := s.idle[1..]));
      if id !in p.connections || p.connections[id].active {
        TakeIdleBreaker(popped, name, other, timeout, now);
      } else if TimedOut(p.connections[id], timeout, now) {
        TakeIdleBreaker(RemoveConnection(popped, id), name, other, timeout, now);
      } else {
        var taken := popped.(connections := p.connections[id := p.connections[id].(active := true, lastUsed := now)]);
        TakeIdleBreaker(RemoveConnection(taken, id), name, other, timeout, now);
      }
    }
  }

  lemma LeaseBreaker(p: Pool, name: string, other: string, timeout: int, keyed: bool, draw: nat, now: int)
    requires name in p.services && other in p.services
    ensures var after := Lease(p, name, timeout, keyed, draw, now).0;
      other in after.services && after.services[other].breaker == p.services[other].breaker
  {
    TakeIdleBreaker(p, name, other, timeout, now);
    hide TakeIdle;
  }

  lemma SingleEvent(b: Breaker.Breaker, e: Breaker.Event, policy: Breaker.Policy)
    ensures Breaker.Run(b, [e], policy) == Breaker.Step(b, e, policy)
  {
    assert [e][..0] == [];
  }

  lemma AcquireBreaker(p: Pool, cfg: Config, op: Op, at: int, name: string)
    requires Invariant(p) && ValidConfig(cfg) && name in p.services && op.AcquireOp?
    ensures var after := Step(p, cfg, op, at).0;
      && name in after.services
      && after.services[name].breaker == Breaker.Run(p.services[name].breaker, Events(op, at, name), cfg.policy)
  {
    SingleEvent(p.services[name].breaker, Breaker.Probed(at), cfg.policy);
    EnsureKeeps(p, cfg, name);
    if op.service != "" {
      var ready := Ensure(p, cfg, op.service);
      var s := ready.services[op.service];
      var probed := SetService(ready, op.service, s.(breaker := Breaker.Probe(s.breaker, cfg.policy, at)));
      LeaseBreaker(probed, op.service, name, cfg.idleTimeout, op.keyed, op.draw, at);
    }
    hide Lease; hide Invariant; hide Breaker.Admits;
  }

  lemma QuietBreaker(p: Pool, cfg: Config, op: Op, at: int, name: string)
    requires name in p.services
    requires op.ReleaseOp? || op.CloseOp? || op.AddOp? || op.RemoveOp? || op.WeightOp? || op.StrategyOp? ||
      op.StatusOp? || op.StatusAllOp?
    ensures var after := Step(p, cfg, op, at).0;
      name in after.services && after.services[name].breaker == p.services[name].breaker
  {
    hide Without; hide FindBackend; hide DropBackend; hide Doomed; hide IdleAt; hide Lower; hide WithStatus;
    if op.StatusOp? || op.StatusAllOp? || op.RemoveOp? {
    } else if op.ReleaseOp? || op.CloseOp? {
    } else {
    }
  }

  lemma DrivenBreaker(p: Pool, cfg: Config, op: Op, at: int, name: string)
    requires name in p.services
    requires op.ExecutionOp? || op.ExecutionAllOp? || op.MaintainOp?
    ensures var after := Step(p, cfg, op, at).0;
      && name in after.services
      && after.services[name].breaker == Breaker.Run(p.services[name].breaker, Events(op, at, name), cfg.policy)
  {
    var b := p.services[name].breaker;
    SingleEvent(b, Breaker.Swept(at), cfg.policy);
    SingleEvent(b, Breaker.Reported(true, at), cfg.policy);
    SingleEvent(b, Breaker.Reported(false, at), cfg.policy);
    hide Without; hide Breaker.Report; hide Breaker.Sweep; hide RecoverAll; hide Expired;
  }

  /** Each operation moves a service's breaker exactly by the events it means for that service. */
  lemma StepBreaker(p: Pool, cfg: Config, op: Op, at: int, name: string)
    requires Invariant(p) && ValidConfig(cfg) && name in p.services && !op.ClearOp?
    ensures var after := Step(p, cfg, op, at).0;
      && name in after.services
      && after.services[name].breaker == Breaker.Run(p.services[name].breaker, Events(op, at, name), cfg.policy)
  {
    hide Step; hide Invariant;
    if op.AcquireOp? {
      AcquireBreaker(p, cfg, op, at, name);
    } else if op.ExecutionOp? || op.ExecutionAllOp? || op.MaintainOp? {
      DrivenBreaker(p, cfg, op, at, name);
    } else {
      QuietBreaker(p, cfg, op, at, name);
    }
  }

  lemma {:induction false} BreakerRunConcat(b: Breaker.Breaker, xs: seq<Breaker.Event>, ys: seq<Breaker.Event>,
      policy: Breaker.Policy)
    ensures Breaker.Run(b, xs + ys, policy) == Breaker.Run(Breaker.Run(b, xs, policy), ys, policy)
  {
    if ys == [] {
      assert xs + ys == xs;
    } else {
      BreakerRunConcat(b, xs, ys[..|ys| - 1], policy);
      assert (xs + ys)[..|xs + ys| - 1] == xs + ys[..|ys| - 1];
    }
  }

  /** Over any stretch of a run without `cleanup`, a service's breaker is driven by that stretch's events alone. */
  lemma {:induction false} StretchBreaker(cfg: Config, history: seq<Timed>, i: nat, j: nat, name: string)
    requires ValidConfig(cfg) && i <= j <= |history| && name in Run(cfg, history[..i]).services
    requires forall k :: i <= k < j ==> !history[k].op.ClearOp?
    ensures name in Run(cfg, history[..j]).services
    ensures Run(cfg, history[..j]).services[name].breaker
         == Breaker.Run(Run(cfg, history[..i]).services[name].breaker, EventsOf(history[i..j], name), cfg.policy)
    decreases j
  {
    hide Run; hide Step; hide Events; hide Invariant;
    if i == j {
      assert history[i..j] == [];
    } else {
      StretchBreaker(cfg, history, i, j - 1, name);
      AlwaysInvariant(cfg, history[..j - 1]);
      RunStep(cfg, history, j - 1);
      StepBreaker(Run(cfg, history[..j - 1]), cfg, history[j - 1].op, history[j - 1].at, name);
      assert history[i..j][..|history[i..j]| - 1] == history[i..j - 1];
      BreakerRunConcat(Run(cfg, history[..i]).services[name].breaker, EventsOf(history[i..j - 1], name),
                       Events(history[j - 1].op, history[j - 1].at, name), cfg.policy);
    }
  }

  lemma {:induction false} EventTimes(history: seq<Timed>, name: string, e: Breaker.Event)
    requires e in EventsOf(history, name)
    ensures exists k :: 0 <= k < |history| && history[k].at == e.at
  {
    var n := |history| - 1;
    if e in EventsOf(history[..n], name) {
      EventTimes(history[..n], name, e);
      var k :| 0 <= k < n && history[..n][k].at == e.at;
      assert history[k].at == e.at;
    } else {
      assert e in Events(history[n].op, history[n].at, name) && history[n].at == e.at;
    }
  }

  /**
   From the failure that opened a service's breaker until the recovery time has passed, no request for
   that service is granted a lease, whatever else happens in the manager short of `cleanup`.
   */
  lemma {:induction false} NoLeaseWhileOpen(cfg: Config, history: seq<Timed>, i: nat, j: nat, name: string)
    requires ValidConfig(cfg) && cfg.policy.enabled && cfg.policy.recovery > 0 && i <= j < |history|
    requires name in Run(cfg, history[..i]).services &&
      Run(cfg, history[..i]).services[name].breaker.state == Breaker.Open
    requires var since := Run(cfg, history[..i]).services[name].breaker.lastFailure;
      forall k :: i <= k <= j ==> since <= history[k].at < since + cfg.policy.recovery && !history[k].op.ClearOp?
    requires history[j].op.AcquireOp? && history[j].op.service == name
    ensures Result(cfg, history, j) == 0
  {
    var b := Run(cfg, history[..i]).services[name].breaker;
    var p := Run(cfg, history[..j]);
    StretchBreaker(cfg, history, i, j, name);
    var events := EventsOf(history[i..j], name);
    forall e | e in events ensures b.lastFailure <= e.at < b.lastFailure + cfg.policy.recovery {
      EventTimes(history[i..j], name, e);
      var k :| 0 <= k < |history[i..j]| && history[i..j][k].at == e.at;
      assert history[i + k].at == e.at;
    }
    Breaker.RefusesWhileCooling(b, events, cfg.policy, ActiveSum(p.services[name].backends), history[j].at);
    AlwaysInvariant(cfg, history[..j]);
    EnsureKeeps(p, cfg, name);
  }

  /** In every reachable state, every service's breaker has counters that agree with its state. */
  lemma {:induction false} BreakersAlwaysSound(cfg: Config, history: seq<Timed>, name: string)
    requires ValidConfig(cfg) && name in Run(cfg, history).services
    ensures Breaker.Sound(Run(cfg, history).services[name].breaker, cfg.policy)
  {
    var n := |history| - 1;
    var p := Run(cfg, history[..n]);
    assert history != [] && Run(cfg, history) == Step(p, cfg, history[n].op, history[n].at).0;
    AlwaysInvariant(cfg, history[..n]);
    assert history[n].op.ClearOp? ==> Run(cfg, history).services == map[];
    hide Run; hide Step; hide Invariant;
    if name in p.services {
      BreakersAlwaysSound(cfg, history[..n], name);
      if !history[n].op.ClearOp? {
        StepBreaker(p, cfg, history[n].op, history[n].at, name);
        Breaker.AlwaysSound(p.services[name].breaker, Events(history[n].op, history[n].at, name), cfg.policy);
      }
    } else {
      NewServiceFresh(p, cfg, history[n].op, history[n].at, name);
      Breaker.AlwaysSound(Breaker.FRESH, [], cfg.policy);
    }
  }

  /** A service enters the manager with a fresh breaker. */
  lemma NewServiceFresh(p: Pool, cfg: Config, op: Op, at: int, name: string)
    requires Invariant(p) && ValidConfig(cfg) && name !in p.services && name in Step(p, cfg, op, at).0.services
    ensures Step(p, cfg, op, at).0.services[name].breaker == Breaker.FRESH
  {
    if op.AcquireOp? {
      NewServiceAcquired(p, cfg, op, at, name);
    } else {
      hide Acquire; hide Invariant;
    }
  }

  lemma NewServiceAcquired(p: Pool, cfg: Config, op: Op, at: int, name: string)
    requires op.AcquireOp? && Invariant(p) && ValidConfig(cfg) && name !in p.services &&
      name in Step(p, cfg, op, at).0.services
    ensures Step(p, cfg, op, at).0.services[name].breaker == Breaker.FRESH
  {
    EnsureKeeps(p, cfg, op.service);
    hide TakeIdle; hide Select; hide Breaker.Probe;
    if op.service != "" {
      var ready := Ensure(p, cfg, op.service);
      var s := ready.services[op.service];
      var probed := SetService(ready, op.service, s.(breaker := Breaker.Probe(s.breaker, cfg.policy, at)));
      TakeIdleServices(probed, op.service, cfg.idleTimeout, at);
      if name in probed.services {
        TakeIdleBreaker(probed, op.service, name, cfg.idleTimeout, at);
      }
    }
  }

  lemma {:induction false} TakeIdleServices(p: Pool, name: string, timeout: int, now: int)
    requires name in p.services && (forall id :: id in p.connections ==> p.connections[id].service in p.services)
    ensures TakeIdle(p, name, timeout, now).0.services.Keys == p.services.Keys
    decreases |p.services[name].idle|
  {
    var s := p.services[name];
    if s.idle != [] {
      var id := s.idle[0];
      var popped := SetService(p, name, s.(idle := s.idle[1..]));
      if id !in p.connections || p.connections[id].active {
        TakeIdleServices(popped, name, timeout, now);
      } else if TimedOut(p.connections[id], timeout, now) {
        TakeIdleServices(RemoveConnection(popped, id), name, timeout, now);
      } else {
        var taken := popped.(connections := p.connections[id := p.connections[id].(active := true, lastUsed := now)]);
        TakeIdleServices(RemoveConnection(taken, id), name, timeout, now);
      }
    }
  }

  /**
   If a service's breaker is open at one point of a run and closed at a later one, with no `cleanup`
   between, then between them it was half-open for a stretch in which exactly `attempts` successes and
   no failure were reported to it.
   */
  lemma {:induction false} RecoversOnlyByProbation(cfg: Config, history: seq<Timed>, i: nat, j: nat, name: string)
    returns (events: seq<Breaker.Event>, start: nat, end: nat)
    requires ValidConfig(cfg) && cfg.policy.enabled && i <= j <= |history|
    requires forall k :: i <= k < j ==> !history[k].op.ClearOp?
    requires name in Run(cfg, history[..i]).services &&
      Run(cfg, history[..i]).services[name].breaker.state == Breaker.Open
    requires name in Run(cfg, history[..j]).services &&
      Run(cfg, history[..j]).services[name].breaker.state == Breaker.Closed
    ensures events == EventsOf(history[i..j], name) && end < |events|
    ensures Breaker.OnProbation(Run(cfg, history[..i]).services[name].breaker, events[..end], cfg.policy, start, end)
    ensures Breaker.Successes(events[start..end + 1]) == cfg.policy.attempts &&
      Breaker.NoFailure(events[start..end + 1])
  {
    events := EventsOf(history[i..j], name);
    StretchBreaker(cfg, history, i, j, name);
    BreakersAlwaysSound(cfg, history[..i], name);
    start, end := Breaker.ClosesOnlyAfterProbation(Run(cfg, history[..i]).services[name].breaker, events, cfg.policy);
  }

  // ---------------------------------------------------------------- granting a lease

  lemma {:induction false} SumIgnoresCurrent(a: seq<Backend>, b: seq<Backend>)
    requires |a| == |b| && forall i :: 0 <= i < |a| ==> a[i].active == b[i].active
    ensures ActiveSum(a) == ActiveSum(b)
  {
    if a != [] {
      SumIgnoresCurrent(a[..|a| - 1], b[..|b| - 1]);
    }
  }

  lemma GrowCountsOne(p: Pool, name: string, keyed: bool, draw: nat, now: int)
    requires name in p.services && p.nextId != 0
    ensures var (after, id) := Grow(p, name, keyed, draw, now);
      && name in after.services && after.services[name].breaker == p.services[name].breaker
      && ActiveSum(after.services[name].backends) == ActiveSum(p.services[name].backends) + if id != 0 then 1 else 0
  {
    var (selected, b) := Select(p.services[name], keyed, draw);
    SumIgnoresCurrent(p.services[name].backends, selected.backends);
    if b < |selected.backends| {
      AddLeaseSum(selected.backends, b);
    }
    hide Select;
  }

  /** A granted request counts exactly one more lease on the service; a refused one counts none. */
  lemma LeaseCountsOne(p: Pool, name: string, timeout: int, keyed: bool, draw: nat, now: int)
    requires Invariant(p) && name in p.services
    ensures var (after, id) := Lease(p, name, timeout, keyed, draw, now);
      && name in after.services && after.services[name].breaker == p.services[name].breaker
      && ActiveSum(after.services[name].backends) == ActiveSum(p.services[name].backends) + if id != 0 then 1 else 0
  {
    InvariantReusable(p, name);
    SearchFinds(p, name, timeout, now);
    TakeIdleEvolves(p, name, timeout, now);
    var after := TakeIdle(p, name, timeout, now).0;
    GrowCountsOne(after, name, keyed, draw, now);
    var idle := p.services[name].idle;
    var k := FirstUsable(p.connections, idle, timeout, now);
    assert k < |idle| ==> Reusable(p, name, idle[k]) && idle[k] != 0;
    hide TakeIdle; hide Invariant; hide Reusable; hide Grow; hide FirstUsable; hide ActiveSum;
  }

  /** A lease granted while the breaker is half-open leaves at most `attempts` counted leases on the service. */
  lemma HalfOpenLimit(p: Pool, cfg: Config, name: string, keyed: bool, draw: nat, now: int)
    requires Invariant(p) && ValidConfig(cfg) && cfg.policy.enabled
    requires Acquire(p, cfg, name, keyed, draw, now).1 != 0
    ensures var s := Acquire(p, cfg, name, keyed, draw, now).0.services;
      && name in s && s[name].breaker.state != Breaker.Open
      && (s[name].breaker.state == Breaker.HalfOpen ==> ActiveSum(s[name].backends) <= cfg.policy.attempts)
  {
    EnsureKeeps(p, cfg, name);
    var ready := Ensure(p, cfg, name);
    var s := ready.services[name];
    var probed := SetService(ready, name, s.(breaker := Breaker.Probe(s.breaker, cfg.policy, now)));
    assert Invariant(probed) by {
      assert ServiceOk(ready.connections, name, s, {});
      SetServiceKeeps(ready, name, probed.services[name], {});
    }
    LeaseCountsOne(probed, name, cfg.idleTimeout, keyed, draw, now);
  }
}
