/**
 Backends of one service and the smooth weighted round-robin balancer.

 Every turn raises each healthy backend's current weight by its own weight, picks the backend
 with the largest raised weight and lowers that one by the total weight. The fairness theorem
 is about any number of turns, whatever happens to the connection counters in between.
 */
module Balancer {

  datatype Backend = Backend(
    host: string,
    port: nat,
    weight: int,
    healthy: bool,
    active: nat,
    failures: nat,
    current: int,
    lastFailure: int)

  function EffectiveWeight(b: Backend): (w: int)
    ensures w >= 1
  {
    if b.weight < 1 then 1 else b.weight
  }

  function Raise(b: Backend): Backend {
    if b.healthy then b.(current := b.current + EffectiveWeight(b)) else b
  }

  function RaiseAll(bs: seq<Backend>): (r: seq<Backend>)
    ensures |r| == |bs|
    ensures forall i :: 0 <= i < |bs| ==> r[i] == Raise(bs[i])
  {
    seq(|bs|, i requires 0 <= i < |bs| => Raise(bs[i]))
  }

  /** Whether a backend, met later in the scan, takes the lead from the best one so far. */
  predicate Overtakes(b: Backend, best: Backend) {
    b.current > best.current || (b.current == best.current && b.active < best.active)
  }

  /** Index of the backend leading after a scan of `raised`; `|raised|` when none is healthy. */
  function Leader(raised: seq<Backend>): (k: nat)
    ensures k <= |raised|
    ensures k < |raised| ==> raised[k].healthy
  {
    if |raised| == 0 then 0
    else
      var last := |raised| - 1;
      var k := Leader(raised[..last]);
      if raised[last].healthy && (k == last || Overtakes(raised[last], raised[k])) then last
      else if k == last then |raised| else k
  }

  /** Sum of the effective weights of the healthy backends. */
  function TotalWeight(bs: seq<Backend>): (w: int)
    ensures w >= 0
  {
    if |bs| == 0 then 0
    else
      var b := bs[|bs| - 1];
      TotalWeight(bs[..|bs| - 1]) + if b.healthy then EffectiveWeight(b) else 0
  }

  /** One turn of the balancer: the backends afterwards and the index picked. */
  function Turn(bs: seq<Backend>): (r: (seq<Backend>, nat))
    ensures |r.0| == |bs|
    ensures r.1 <= |bs|
  {
    var raised := RaiseAll(bs);
    var k := Leader(raised);
    if k == |bs| then (raised, k)
    else (raised[k := raised[k].(current := raised[k].current - TotalWeight(bs))], k)
  }

  /** Scanning one more backend: how the leader and the total weight move. */
  lemma ScanOne(bs: seq<Backend>, raised: seq<Backend>, i: nat)
    requires i < |bs| && raised == RaiseAll(bs)
    ensures var k := Leader(raised[..i]);
      Leader(raised[..i + 1]) ==
        if raised[i].healthy && (k == i || Overtakes(raised[i], raised[k])) then i
        else if k == i then i + 1 else k
    ensures TotalWeight(bs[..i + 1]) == TotalWeight(bs[..i]) + if bs[i].healthy then EffectiveWeight(bs[i]) else 0
  {
    assert raised[..i + 1][..i] == raised[..i];
    assert bs[..i + 1][..i] == bs[..i];
  }

  /** The scan of `selectBackendLocked`, which raises, compares and adds up in one pass. */
  method ScanWeighted(bs: seq<Backend>) returns (raised: seq<Backend>, best: nat, total: int)
    ensures raised == RaiseAll(bs) && best == Leader(raised) && total == TotalWeight(bs)
  {
    ghost var goal := RaiseAll(bs);
    assert forall j :: 0 <= j < |bs| ==> goal[j] == Raise(bs[j]);
    assert Leader(goal[..0]) == 0 && TotalWeight(bs[..0]) == 0;
    raised, best, total := bs, |bs|, 0;
    var i := 0;
    while i < |bs|
      invariant 0 <= i <= |bs| == |raised|
      invariant forall j :: 0 <= j < i ==> raised[j] == goal[j]
      invariant forall j :: i <= j < |bs| ==> raised[j] == bs[j]
      invariant best == if Leader(goal[..i]) == i then |bs| else Leader(goal[..i])
      invariant total == TotalWeight(bs[..i])
    {
      hide Leader; hide TotalWeight; hide RaiseAll;
      ScanOne(bs, goal, i);
      var b := raised[i];
      assert goal[i] == Raise(b);
      if b.healthy {
        total := total + EffectiveWeight(b);
        raised := raised[i := b.(current := b.current + EffectiveWeight(b))];
        if best == |bs| || Overtakes(raised[i], raised[best]) {
          best := i;
        }
      }
      i := i + 1;
    }
    assert goal[..i] == goal && bs[..i] == bs && raised == goal;
  }

  /** Weighted selection: the scan, then the winner pays the total weight. */
  method SelectWeighted(bs: seq<Backend>) returns (updated: seq<Backend>, best: nat)
    ensures (updated, best) == Turn(bs)
  {
    var total;
    updated, best, total := ScanWeighted(bs);
    if best != |bs| {
      updated := updated[best := updated[best].(current := updated[best].current - total)];
    }
  }

  /**
   The leader is a healthy backend of greatest weight; ties go to fewer active connections, then to the earlier
   one.
   */
  lemma {:induction false} LeaderIsGreatest(raised: seq<Backend>, i: nat)
    requires i < |raised| && raised[i].healthy
    ensures var k := Leader(raised);
      && k < |raised|
      && !Overtakes(raised[i], raised[k])
      && (i < k ==> Overtakes(raised[k], raised[i]))
  {
    var last := |raised| - 1;
    if i < last {
      LeaderIsGreatest(raised[..last], i);
    } else if Leader(raised[..last]) < last {
      assert raised[..last][Leader(raised[..last])] == raised[Leader(raised[..last])];
    }
  }

  // ---------------------------------------------------------------- sums over the healthy backends

  /** Sum of the current weights of the healthy backends. */
  function CurrentSum(bs: seq<Backend>): int {
    if |bs| == 0 then 0
    else
      var b := bs[|bs| - 1];
      CurrentSum(bs[..|bs| - 1]) + if b.healthy then b.current else 0
  }

  lemma {:induction false} RaiseSum(bs: seq<Backend>)
    ensures CurrentSum(RaiseAll(bs)) == CurrentSum(bs) + TotalWeight(bs)
  {
    if |bs| > 0 {
      RaiseSum(bs[..|bs| - 1]);
      assert RaiseAll(bs)[..|bs| - 1] == RaiseAll(bs[..|bs| - 1]);
    }
  }

  lemma {:induction false} SumAfterUpdate(bs: seq<Backend>, k: nat, delta: int)
    requires k < |bs| && bs[k].healthy
    ensures CurrentSum(bs[k := bs[k].(current := bs[k].current + delta)]) == CurrentSum(bs) + delta
  {
    var updated := bs[k := bs[k].(current := bs[k].current + delta)];
    var last := |bs| - 1;
    if k == last {
      assert updated[..last] == bs[..last];
    } else {
      SumAfterUpdate(bs[..last], k, delta);
      assert updated[..last] == bs[..last][k := bs[k].(current := bs[k].current + delta)];
    }
  }

  lemma {:induction false} NoneAboveZero(bs: seq<Backend>)
    requires forall i :: 0 <= i < |bs| && bs[i].healthy ==> bs[i].current <= 0
    ensures CurrentSum(bs) <= 0
  {
    if |bs| > 0 {
      NoneAboveZero(bs[..|bs| - 1]);
    }
  }

  lemma {:induction false} NonNegativeSummingToZero(bs: seq<Backend>, i: nat)
    requires forall j :: 0 <= j < |bs| && bs[j].healthy ==> bs[j].current >= 0
    requires CurrentSum(bs) <= 0
    requires i < |bs| && bs[i].healthy
    ensures bs[i].current == 0
  {
    var last := |bs| - 1;
    SumAtLeastZero(bs[..last]);
    if i < last {
      NonNegativeSummingToZero(bs[..last], i);
    }
  }

  lemma {:induction false} SumAtLeastZero(bs: seq<Backend>)
    requires forall j :: 0 <= j < |bs| && bs[j].healthy ==> bs[j].current >= 0
    ensures CurrentSum(bs) >= 0
  {
    if |bs| > 0 {
      SumAtLeastZero(bs[..|bs| - 1]);
    }
  }

  lemma {:induction false} TotalWeightPositive(bs: seq<Backend>, i: nat)
    requires i < |bs| && bs[i].healthy
    ensures TotalWeight(bs) >= EffectiveWeight(bs[i])
  {
    if i < |bs| - 1 {
      TotalWeightPositive(bs[..|bs| - 1], i);
    }
  }

  // ---------------------------------------------------------------- rotations

  /** Two views of one pool between which only counters and timestamps may differ. */
  predicate SameShares(a: seq<Backend>, b: seq<Backend>) {
    && |a| == |b|
    && forall i :: 0 <= i < |a| ==>
      a[i].weight == b[i].weight && a[i].healthy == b[i].healthy && a[i].current == b[i].current
  }

  /** Balanced: current weights of the healthy backends sum to zero and none has fallen by the total weight. */
  predicate Balanced(bs: seq<Backend>) {
    && CurrentSum(bs) == 0
    && forall i :: 0 <= i < |bs| && bs[i].healthy ==> bs[i].current > -TotalWeight(bs)
  }

  /**
   A history of the balancer: `pools[t]` is what turn t sees. Between turns, leases may come and
   go, but no backend is added, removed, reweighted or changes health.
   */
  predicate Rotation(pools: seq<seq<Backend>>) {
    forall t :: 0 <= t < |pools| - 1 ==> SameShares(Turn(pools[t]).0, pools[t + 1])
  }

  /** How often index `i` was picked in the first `t` turns. */
  function Picks(pools: seq<seq<Backend>>, i: nat, t: nat): nat
    requires t <= |pools|
  {
    if t == 0 then 0
    else Picks(pools, i, t - 1) + if Turn(pools[t - 1]).1 == i then 1 else 0
  }

  lemma {:induction false} SameSharesSameSums(a: seq<Backend>, b: seq<Backend>)
    requires SameShares(a, b)
    ensures CurrentSum(a) == CurrentSum(b) && TotalWeight(a) == TotalWeight(b)
  {
    if |a| > 0 {
      SameSharesSameSums(a[..|a| - 1], b[..|b| - 1]);
    }
  }

  lemma {:induction false} TurnKeepsTotalWeight(bs: seq<Backend>)
    ensures TotalWeight(Turn(bs).0) == TotalWeight(bs)
  {
    var after := Turn(bs).0;
    assert forall i :: 0 <= i < |bs| ==> after[i].weight == bs[i].weight && after[i].healthy == bs[i].healthy;
    WeightsDecideTotal(bs, after);
  }

  lemma {:induction false} WeightsDecideTotal(a: seq<Backend>, b: seq<Backend>)
    requires |a| == |b|
    requires forall i :: 0 <= i < |a| ==> a[i].weight == b[i].weight && a[i].healthy == b[i].healthy
    ensures TotalWeight(a) == TotalWeight(b)
  {
    if |a| > 0 {
      WeightsDecideTotal(a[..|a| - 1], b[..|b| - 1]);
    }
  }

  /** A turn keeps the pool balanced: what is handed out to all is taken back from the one that was ahead. */
  lemma {:induction false} TurnKeepsBalance(bs: seq<Backend>)
    requires Balanced(bs)
    ensures Balanced(Turn(bs).0)
  {
    TurnKeepsTotalWeight(bs);
    RaiseSum(bs);
    var raised := RaiseAll(bs);
    var k := Leader(raised);
    if k < |bs| {
      SumAfterUpdate(raised, k, -TotalWeight(bs));
      TotalWeightPositive(bs, k);
      if raised[k].current <= 0 {
        forall i | 0 <= i < |bs| && raised[i].healthy ensures raised[i].current <= 0 {
          LeaderIsGreatest(raised, i);
        }
        NoneAboveZero(raised);
        assert false;
      }
    } else {
      forall i | 0 <= i < |bs| && raised[i].healthy ensures false {
        LeaderIsGreatest(raised, i);
      }
      NoneHealthyNoWeight(bs);
    }
  }

  lemma {:induction false} NoneHealthyNoWeight(bs: seq<Backend>)
    requires forall i :: 0 <= i < |bs| ==> !bs[i].healthy
    ensures TotalWeight(bs) == 0
  {
    if |bs| > 0 {
      NoneHealthyNoWeight(bs[..|bs| - 1]);
    }
  }

  /** A fresh pool: no healthy backend carries weight over from earlier. */
  predicate Fresh(bs: seq<Backend>) {
    forall i :: 0 <= i < |bs| && bs[i].healthy ==> bs[i].current == 0
  }

  /** Through a rotation that starts fresh, the pool keeps its shape and weights and stays balanced. */
  lemma {:induction false} RotationKeepsBalance(pools: seq<seq<Backend>>, t: nat)
    requires Rotation(pools) && t < |pools| && Fresh(pools[0])
    requires exists j :: 0 <= j < |pools[0]| && pools[0][j].healthy
    ensures |pools[t]| == |pools[0]| && TotalWeight(pools[t]) == TotalWeight(pools[0])
    ensures forall i :: 0 <= i < |pools[0]| ==>
      pools[t][i].healthy == pools[0][i].healthy && pools[t][i].weight == pools[0][i].weight
    ensures Balanced(pools[t])
  {
    if t == 0 {
      var j :| 0 <= j < |pools[0]| && pools[0][j].healthy;
      TotalWeightPositive(pools[0], j);
      NoneAboveZero(pools[0]);
      SumAtLeastZero(pools[0]);
    } else {
      RotationKeepsBalance(pools, t - 1);
      TurnKeepsBalance(pools[t - 1]);
      TurnKeepsTotalWeight(pools[t - 1]);
      SameSharesSameSums(Turn(pools[t - 1]).0, pools[t]);
    }
  }

  lemma OneMoreTurn(t: int, w: int, n: int, total: int)
    ensures (t + 1) * w - n * total == t * w - n * total + w
    ensures (t + 1) * w - (n + 1) * total == t * w - n * total + w - total
  {
  }

  /** What one turn does to the current weight of a healthy backend. */
  lemma TurnCurrent(bs: seq<Backend>, i: nat)
    requires i < |bs| && bs[i].healthy
    ensures Turn(bs).0[i].current
         == bs[i].current + EffectiveWeight(bs[i]) - if Turn(bs).1 == i then TotalWeight(bs) else 0
  {
    LeaderIsGreatest(RaiseAll(bs), i);
  }

  /** Each current weight is exactly what the backend has earned minus what its picks have cost. */
  lemma {:induction false} Ledger(pools: seq<seq<Backend>>, i: nat, t: nat)
    requires Rotation(pools) && t < |pools| && Fresh(pools[0])
    requires i < |pools[0]| && pools[0][i].healthy
    ensures i < |pools[t]|
    ensures pools[t][i].current
         == t * EffectiveWeight(pools[0][i]) - Picks(pools, i, t) * TotalWeight(pools[0])
  {
    hide Turn; hide Balanced; hide TotalWeight;
    if t > 0 {
      Ledger(pools, i, t - 1);
      RotationKeepsBalance(pools, t - 1);
      TurnCurrent(pools[t - 1], i);
      OneMoreTurn(t - 1, EffectiveWeight(pools[0][i]), Picks(pools, i, t - 1), TotalWeight(pools[0]));
      assert SameShares(Turn(pools[t - 1]).0, pools[t]);
    }
  }

  /** No backend runs ahead of its share by a whole pick, at any moment of the rotation. */
  lemma {:induction false} NeverAheadOfShare(pools: seq<seq<Backend>>, i: nat, t: nat)
    requires Rotation(pools) && t < |pools| && Fresh(pools[0])
    requires i < |pools[0]| && pools[0][i].healthy
    ensures Picks(pools, i, t) * TotalWeight(pools[0])
          < t * EffectiveWeight(pools[0][i]) + TotalWeight(pools[0])
  {
    Ledger(pools, i, t);
    RotationKeepsBalance(pools, t);
  }

  lemma WholeRound(total: int, rounds: int, w: int, n: int)
    requires total >= 1
    requires rounds * total * w - n * total > -total
    ensures rounds * total * w - n * total >= 0
    ensures rounds * total * w - n * total == 0 ==> n == rounds * w
  {
    var q := rounds * w - n;
    assert rounds * total * w - n * total == total * q;
    assert q <= -1 ==> total * q <= -total;
    assert q >= 1 ==> total * q >= total;
  }

  /**
   Exact fairness: after any whole number of rounds of `TotalWeight` turns each healthy backend has
   been picked exactly `weight` times per round, and every current weight is back at zero.
   */
  lemma {:induction false} ExactlyFair(pools: seq<seq<Backend>>, rounds: nat, t: nat, i: nat)
    requires Rotation(pools) && t < |pools| && Fresh(pools[0])
    requires t == rounds * TotalWeight(pools[0])
    requires i < |pools[0]| && pools[0][i].healthy
    ensures Picks(pools, i, t) == rounds * EffectiveWeight(pools[0][i])
    ensures |pools[t]| == |pools[0]| && Fresh(pools[t])
  {
    var total := TotalWeight(pools[0]);
    RotationKeepsBalance(pools, t);
    TotalWeightPositive(pools[0], i);
    forall j: nat | j < |pools[0]| && pools[0][j].healthy
      ensures pools[t][j].current >= 0
      ensures pools[t][j].current == 0 ==> Picks(pools, j, t) == rounds * EffectiveWeight(pools[0][j])
    {
      Ledger(pools, j, t);
      WholeRound(total, rounds, EffectiveWeight(pools[0][j]), Picks(pools, j, t));
    }
    forall j: nat | j < |pools[0]| && pools[0][j].healthy
      ensures pools[t][j].current == 0
    {
      NonNegativeSummingToZero(pools[t], j);
    }
  }
}
