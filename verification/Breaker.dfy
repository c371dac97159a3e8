/**
 The three-state circuit breaker of a service: what execution reports, lease requests and the
 periodic health check do to it, and what holds over every sequence of those events.
 */
module Breaker {

  datatype State = Closed | Open | HalfOpen

  datatype Breaker = Breaker(state: State, failures: nat, successes: nat, timeouts: nat, lastFailure: int)

  const FRESH := Breaker(Closed, 0, 0, 0, 0)

  /** `threshold` and `attempts` are clamped to at least one when the configuration is read. */
  datatype Policy = Policy(enabled: bool, threshold: nat, attempts: nat, recovery: int)

  predicate ValidPolicy(policy: Policy) {
    policy.threshold >= 1 && policy.attempts >= 1
  }

  /** `applyExecutionResult` */
  function Report(b: Breaker, success: bool, policy: Policy, now: int): Breaker {
    if success then
      var counted := b.(successes := b.successes + 1, timeouts := 0);
      if b.state == HalfOpen && counted.successes >= policy.attempts then
        counted.(state := Closed, failures := 0, successes := 0)
      else if b.state == Closed then counted.(failures := 0)
      else counted
    else
      var counted := b.(failures := b.failures + 1, timeouts := b.timeouts + 1, lastFailure := now);
      if b.state == HalfOpen || counted.failures >= policy.threshold then counted.(state := Open, successes := 0)
      else counted
  }

  function Probation(b: Breaker): Breaker {
    b.(state := HalfOpen, successes := 0, timeouts := 0)
  }

  predicate CoolingDown(b: Breaker, policy: Policy, now: int) {
    policy.recovery > 0 && now - b.lastFailure < policy.recovery
  }

  /** What a lease request does to the breaker, in `prepareCircuitBreakerLocked`. */
  function Probe(b: Breaker, policy: Policy, now: int): Breaker {
    if policy.enabled && b.state == Open && !CoolingDown(b, policy, now) then Probation(b) else b
  }

  /** Whether the request may go on, given the leases counted for the service. */
  predicate Admits(b: Breaker, policy: Policy, leases: nat, now: int) {
    var probed := Probe(b, policy, now);
    policy.enabled ==> probed.state != Open && (probed.state == HalfOpen ==> leases < policy.attempts)
  }

  /** What the periodic health check does to the breaker. */
  function Sweep(b: Breaker, policy: Policy, now: int): Breaker {
    if b.state == Open && (policy.recovery == 0 || now - b.lastFailure >= policy.recovery) then Probation(b) else b
  }

  datatype Event = Reported(success: bool, at: int) | Probed(at: int) | Swept(at: int)

  function Step(b: Breaker, e: Event, policy: Policy): Breaker {
    match e
    case Reported(success, at) => if policy.enabled then Report(b, success, policy, at) else b
    case Probed(at) => Probe(b, policy, at)
    case Swept(at) => Sweep(b, policy, at)
  }

  function Run(b: Breaker, events: seq<Event>, policy: Policy): Breaker {
    if events == [] then b
    else Step(Run(b, events[..|events| - 1], policy), events[|events| - 1], policy)
  }

  /** The breaker's counters agree with its state. */
  predicate Sound(b: Breaker, policy: Policy) {
    && (b.state == Closed <==> b.failures < policy.threshold)
    && (b.state == HalfOpen ==> b.successes < policy.attempts)
  }

  /** A breaker that starts out sound, as a fresh one does, is sound after every sequence of events. */
  lemma {:induction false} AlwaysSound(b: Breaker, events: seq<Event>, policy: Policy)
    requires ValidPolicy(policy) && Sound(b, policy)
    ensures Sound(FRESH, policy)
    ensures Sound(Run(b, events, policy), policy)
  {
    if events != [] {
      AlwaysSound(b, events[..|events| - 1], policy);
    }
  }

  /** With the breaker switched off it never leaves Closed. */
  lemma {:induction false} DisabledStaysClosed(b: Breaker, events: seq<Event>, policy: Policy)
    requires !policy.enabled && b.state == Closed
    ensures Run(b, events, policy) == b
  {
    if events != [] {
      DisabledStaysClosed(b, events[..|events| - 1], policy);
    }
  }

  /**
   After it has opened, the breaker stays open and refuses every lease until the recovery time has
   passed since the failure that opened it, whatever else is reported, probed or swept meanwhile.
   */
  lemma {:induction false} RefusesWhileCooling(b: Breaker, events: seq<Event>, policy: Policy, leases: nat, now: int)
    requires policy.enabled && b.state == Open
    requires forall e :: e in events ==> b.lastFailure <= e.at < b.lastFailure + policy.recovery
    requires now < b.lastFailure + policy.recovery && (events == [] || now >= b.lastFailure)
    requires policy.recovery > 0
    ensures Run(b, events, policy).state == Open && Run(b, events, policy).lastFailure >= b.lastFailure
    ensures !Admits(Run(b, events, policy), policy, leases, now)
  {
    if events != [] {
      assert events[|events| - 1] in events;
      RefusesWhileCooling(b, events[..|events| - 1], policy, leases, b.lastFailure);
    }
  }

  // ---------------------------------------------------------------- the way back from Open to Closed

  function Successes(events: seq<Event>): nat {
    if events == [] then 0
    else
      var last := events[|events| - 1];
      Successes(events[..|events| - 1]) + if last.Reported? && last.success then 1 else 0
  }

  predicate NoFailure(events: seq<Event>) {
    forall e :: e in events ==> !(e.Reported? && !e.success)
  }

  /** Events `start..end` form one stretch on probation: entered from Open, half-open throughout, no failure. */
  ghost predicate OnProbation(b: Breaker, events: seq<Event>, policy: Policy, start: nat, end: nat) {
    && 0 < start <= end <= |events|
    && Run(b, events[..start - 1], policy).state == Open
    && (forall k :: start <= k <= end ==> Run(b, events[..k], policy).state == HalfOpen)
    && NoFailure(events[start..end])
  }

  lemma OnProbationExtended(b: Breaker, events: seq<Event>, policy: Policy, start: nat)
    requires events != [] && OnProbation(b, events[..|events| - 1], policy, start, |events| - 1)
    requires Run(b, events, policy).state == HalfOpen
    requires !(events[|events| - 1].Reported? && !events[|events| - 1].success)
    ensures OnProbation(b, events, policy, start, |events|)
    ensures events[start..][..|events| - 1 - start] == events[..|events| - 1][start..]
  {
    hide Run;
    var n := |events| - 1;
    assert events[..n + 1] == events;
    forall k | start <= k <= n ensures events[..n][..k] == events[..k] {}
    assert events[..n][..start - 1] == events[..start - 1];
    assert events[..n][start..n] == events[start..n];
    forall e | e in events[start..n + 1] ensures !(e.Reported? && !e.success) {
      var k :| start <= k < n + 1 && events[k] == e;
      if k < n {
        assert e == events[start..n][k - start];
      }
    }
  }

  /** In a half-open state reached from Open, the success counter is the number of successes of the current stretch. */
  lemma {:induction false} ProbationSoFar(b: Breaker, events: seq<Event>, policy: Policy) returns (start: nat)
    requires policy.enabled && ValidPolicy(policy) && Sound(b, policy)
    requires b.state == Open && Run(b, events, policy).state == HalfOpen
    ensures OnProbation(b, events, policy, start, |events|)
    ensures Successes(events[start..]) == Run(b, events, policy).successes
  {
    var n := |events| - 1;
    var e := events[n];
    var before := Run(b, events[..n], policy);
    AlwaysSound(b, events[..n], policy);
    if before.state == HalfOpen {
      start := ProbationSoFar(b, events[..n], policy);
      OnProbationExtended(b, events, policy, start);
      assert events[start..][|events[start..]| - 1] == e;
    } else {
      start := |events|;
      assert events[..start] == events;
    }
  }

  /**
   Every path from Open back to Closed contains a stretch on probation with exactly `attempts`
   success reports and no failure report, ended by the last of those successes.
   */
  lemma {:induction false} ClosesOnlyAfterProbation(b: Breaker, events: seq<Event>, policy: Policy)
    returns (start: nat, end: nat)
    requires policy.enabled && ValidPolicy(policy) && Sound(b, policy)
    requires b.state == Open && Run(b, events, policy).state == Closed
    ensures end < |events| && OnProbation(b, events[..end], policy, start, end)
    ensures Run(b, events[..end + 1], policy).state == Closed
    ensures Successes(events[start..end + 1]) == policy.attempts && NoFailure(events[start..end + 1])
  {
    var n := |events| - 1;
    AlwaysSound(b, events[..n], policy);
    if Run(b, events[..n], policy).state == Closed {
      start, end := ClosesOnlyAfterProbation(b, events[..n], policy);
      assert events[..n][..end] == events[..end] && events[..n][..end + 1] == events[..end + 1];
      assert events[..n][start..end + 1] == events[start..end + 1];
    } else {
      start := ProbationSoFar(b, events[..n], policy);
      end := n;
      assert events[..end + 1] == events;
      var stretch := events[start..end + 1];
      assert stretch[..|stretch| - 1] == events[..n][start..];
      assert stretch[|stretch| - 1] == events[n];
    }
  }
}
