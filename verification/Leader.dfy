/**
 * Smooth weighted round-robin on signed priorities (`pacemaker/leader.rs`): one step adds every
 * weight, elects the first validator of greatest priority and charges it the total weight.
 */
module Leader {
  import opened Common
  import Quorum

  const I128_MAX: int := 0x7FFF_FFFF_FFFF_FFFF_FFFF_FFFF_FFFF_FFFF
  const I128_MIN: int := -0x8000_0000_0000_0000_0000_0000_0000_0000

  /** `i128::saturating_add` / `saturating_sub` on the exact result. */
  function Sat(x: int): int { if x > I128_MAX then I128_MAX else if x < I128_MIN then I128_MIN else x }

  /** A non-empty set of at most 2^31 validators with positive `u64` weights. */
  predicate LeaderWeights(w: seq<nat>) {
    0 < |w| <= 0x8000_0000 && forall i :: 0 <= i < |w| ==> 0 < w[i] < Quorum.TWO_64
  }

  function Zeros(n: nat): seq<int> { seq(n, i => 0) }

  function Raised(p: seq<int>, w: seq<nat>): seq<int>
    requires |p| == |w|
  {
    seq(|p|, i requires 0 <= i < |p| => Sat(p[i] + w[i]))
  }

  /** The first index of a greatest priority among the first `n`. */
  function Best(p: seq<int>, n: nat): nat
    requires 0 < n <= |p|
    ensures Best(p, n) < n
  {
    if n == 1 then 0
    else if p[n - 1] > p[Best(p, n - 1)] then n - 1
    else Best(p, n - 1)
  }

  function Step(p: seq<int>, w: seq<nat>): (seq<int>, nat)
    requires |p| == |w| > 0
  {
    var q := Raised(p, w);
    var b := Best(q, |q|);
    (q[b := Sat(q[b] - Quorum.Total(w))], b)
  }

  /** Priorities `k` steps into a regime. */
  function After(w: seq<nat>, k: nat): (p: seq<int>)
    requires |w| > 0
    ensures |p| == |w|
  {
    if k == 0 then Zeros(|w|) else Step(After(w, k - 1), w).0
  }

  /** The index elected by step number `k` of a regime, counting from 0. */
  function Elected(w: seq<nat>, k: nat): (i: nat)
    requires |w| > 0
    ensures i < |w|
  {
    Step(After(w, k), w).1
  }

  /** How often each validator was elected in the first `k` steps. */
  function Turns(w: seq<nat>, k: nat): (t: seq<nat>)
    requires |w| > 0
    ensures |t| == |w|
  {
    if k == 0 then seq(|w|, i => 0)
    else var t := Turns(w, k - 1); t[Elected(w, k - 1) := t[Elected(w, k - 1)] + 1]
  }

  lemma Unfold(w: seq<nat>, k: nat)
    requires |w| > 0
    ensures Step(After(w, k), w) == (After(w, k + 1), Elected(w, k))
  {
  }

  // ---------------------------------------------------------------------------
  // Sums

  function Sum(p: seq<int>): int {
    if p == [] then 0 else Sum(p[..|p| - 1]) + p[|p| - 1]
  }

  lemma {:induction false} SumUpdate(p: seq<int>, i: nat, v: int)
    requires i < |p|
    ensures Sum(p[i := v]) == Sum(p) - p[i] + v
  {
    var front := p[..|p| - 1];
    if i == |p| - 1 {
      assert p[i := v][..|p| - 1] == front;
    } else {
      assert p[i := v][..|p| - 1] == front[i := v];
      SumUpdate(front, i, v);
    }
  }

  lemma {:induction false} SumAdd(p: seq<int>, w: seq<nat>, q: seq<int>)
    requires |p| == |w| == |q| && forall i :: 0 <= i < |p| ==> q[i] == p[i] + w[i]
    ensures Sum(q) == Sum(p) + Quorum.Total(w)
  {
    if p == [] {
    } else {
      SumAdd(p[..|p| - 1], w[..|p| - 1], q[..|p| - 1]);
    }
  }

  lemma {:induction false} SumAtMost(p: seq<int>, c: int)
    requires c <= 0 && forall i :: 0 <= i < |p| ==> p[i] <= c
    ensures Sum(p) <= 0
  {
    if p == [] {
    } else {
      SumAtMost(p[..|p| - 1], c);
    }
  }

  lemma {:induction false} SumAtLeast(p: seq<int>, c: int)
    requires forall i :: 0 <= i < |p| ==> p[i] >= c
    ensures Sum(p) >= |p| * c
  {
    if p == [] {
    } else {
      SumAtLeast(p[..|p| - 1], c);
      assert |p| * c == (|p| - 1) * c + c;
    }
  }

  lemma {:induction false} SumZeros(n: nat)
    ensures Sum(Zeros(n)) == 0
  {
    if n == 0 {
    } else {
      assert Zeros(n)[..n - 1] == Zeros(n - 1);
      SumZeros(n - 1);
    }
  }

  lemma {:induction false} TotalPositive(w: seq<nat>)
    requires |w| > 0 && forall i :: 0 <= i < |w| ==> w[i] > 0
    ensures Quorum.Total(w) > 0
  {
  }

  // ---------------------------------------------------------------------------
  // The invariant of every reachable priority vector

  lemma {:induction false} BestIsGreatest(p: seq<int>, n: nat)
    requires 0 < n <= |p|
    ensures forall i :: 0 <= i < n ==> p[i] <= p[Best(p, n)]
    ensures forall i :: 0 <= i < Best(p, n) ==> p[i] < p[Best(p, n)]
  {
    if n > 1 { BestIsGreatest(p, n - 1); }
  }

  /** Priorities sum to zero and none has fallen by the whole total weight. */
  predicate Balanced(w: seq<nat>, p: seq<int>) {
    |p| == |w| && Sum(p) == 0 && forall i :: 0 <= i < |p| ==> p[i] + Quorum.Total(w) > 0
  }

  lemma BalancedIsBounded(w: seq<nat>, p: seq<int>, i: nat)
    requires Balanced(w, p) && i < |p|
    ensures p[i] <= |p| * Quorum.Total(w)
  {
    var t: int := Quorum.Total(w);
    var q := p[i := -t];
    SumUpdate(p, i, -t);
    SumAtLeast(q, -t);
    assert |q| * -t == -(|p| * t);
  }

  /** No addition of a step saturates, from any balanced priorities. */
  lemma RaisedIsExact(w: seq<nat>, p: seq<int>)
    requires LeaderWeights(w) && Balanced(w, p)
    ensures forall i :: 0 <= i < |p| ==> Raised(p, w)[i] == p[i] + w[i]
    ensures forall i :: 0 <= i < |p| ==> Raised(p, w)[i] - Quorum.Total(w) > I128_MIN
  {
    var t := Quorum.Total(w);
    Quorum.TotalBelow(w, Quorum.TWO_64);
    assert t <= 0x8000_0000 * Quorum.TWO_64;
    forall i | 0 <= i < |p|
      ensures p[i] <= 0x8000_0000 * (0x8000_0000 * Quorum.TWO_64)
    {
      BalancedIsBounded(w, p, i);
      assert |p| * t <= 0x8000_0000 * t;
    }
  }

  /** The elected validator holds a positive priority, since the raised priorities sum to the total. */
  lemma ElectedIsPositive(w: seq<nat>, p: seq<int>)
    requires LeaderWeights(w) && Balanced(w, p)
    ensures Sum(Raised(p, w)) == Quorum.Total(w)
    ensures Raised(p, w)[Best(Raised(p, w), |w|)] > 0
  {
    var q := Raised(p, w);
    RaisedIsExact(w, p);
    SumAdd(p, w, q);
    TotalPositive(w);
    BestIsGreatest(q, |q|);
    if q[Best(q, |q|)] <= 0 {
      SumAtMost(q, q[Best(q, |q|)]);
    }
  }

  /** One step keeps the balance; the elected validator is charged exactly the total weight. */
  lemma StepKeepsBalance(w: seq<nat>, p: seq<int>)
    requires LeaderWeights(w) && Balanced(w, p)
    ensures Balanced(w, Step(p, w).0)
    ensures forall i :: 0 <= i < |p| ==>
      Step(p, w).0[i] == p[i] + w[i] - if i == Step(p, w).1 then Quorum.Total(w) else 0
  {
    var t := Quorum.Total(w);
    var q := Raised(p, w);
    RaisedIsExact(w, p);
    ElectedIsPositive(w, p);
    var b := Best(q, |q|);
    SumUpdate(q, b, q[b] - t);
    assert Step(p, w) == (q[b := q[b] - t], b);
  }

  lemma {:induction false} AlwaysBalanced(w: seq<nat>, k: nat)
    requires LeaderWeights(w)
    ensures Balanced(w, After(w, k))
  {
    if k == 0 {
      SumZeros(|w|);
      TotalPositive(w);
    } else {
      AlwaysBalanced(w, k - 1);
      StepKeepsBalance(w, After(w, k - 1));
    }
  }

  /** What one step does to one validator's priority and turns. */
  lemma {:induction false} OneStep(w: seq<nat>, k: nat, i: nat)
    requires LeaderWeights(w) && i < |w| && k > 0
    ensures var d := if i == Elected(w, k - 1) then 1 else 0;
      && After(w, k)[i] == After(w, k - 1)[i] + w[i] - (if d == 1 then Quorum.Total(w) else 0)
      && Turns(w, k)[i] == Turns(w, k - 1)[i] + d
  {
    AlwaysBalanced(w, k - 1);
    StepKeepsBalance(w, After(w, k - 1));
  }

  /** What a validator earned in `k` steps minus what it was charged for `turns` turns. */
  function Credit(wi: nat, t: nat, k: nat, turns: nat): int { k * wi - turns * t }

  lemma CreditStep(wi: nat, t: nat, k: nat, turns: nat)
    requires k > 0
    ensures Credit(wi, t, k, turns) == Credit(wi, t, k - 1, turns) + wi
    ensures Credit(wi, t, k, turns + 1) == Credit(wi, t, k - 1, turns) + wi - t
  {
  }

  /** A priority is what the validator earned minus what it was charged. */
  lemma {:induction false} PriorityIsCredit(w: seq<nat>, k: nat, i: nat)
    requires |w| > 0 && LeaderWeights(w) && i < |w|
    ensures After(w, k)[i] == Credit(w[i], Quorum.Total(w), k, Turns(w, k)[i])
  {
    hide *;
    if k == 0 {
      StartsAtZero(w, i);
    } else {
      PriorityIsCredit(w, k - 1, i);
      OneStep(w, k, i);
      CreditStep(w[i], Quorum.Total(w), k, Turns(w, k - 1)[i]);
    }
  }

  lemma StartsAtZero(w: seq<nat>, i: nat)
    requires i < |w|
    ensures After(w, 0)[i] == 0 == Credit(w[i], Quorum.Total(w), 0, Turns(w, 0)[i])
    ensures Quorum.Total(Turns(w, 0)) == 0
  {
    ZeroTotal(|w|);
  }

  lemma TurnsUnfold(w: seq<nat>, k: nat)
    requires |w| > 0
    ensures Turns(w, k + 1) == Turns(w, k)[Elected(w, k) := Turns(w, k)[Elected(w, k)] + 1]
  {
  }

  lemma {:induction false} TurnsAddUp(w: seq<nat>, k: nat)
    requires |w| > 0
    ensures Quorum.Total(Turns(w, k)) == k
  {
    hide *;
    if k == 0 {
      StartsAtZero(w, 0);
    } else {
      TurnsAddUp(w, k - 1);
      TurnsUnfold(w, k - 1);
      BumpTotal(Turns(w, k - 1), Elected(w, k - 1));
    }
  }

  lemma {:induction false} ZeroTotal(n: nat)
    ensures Quorum.Total(seq(n, i => 0)) == 0
  {
    if n == 0 {
    } else {
      var z: seq<nat> := seq(n, i => 0);
      assert z[..n - 1] == seq(n - 1, i => 0);
      ZeroTotal(n - 1);
    }
  }

  lemma {:induction false} BumpTotal(t: seq<nat>, i: nat)
    requires i < |t|
    ensures Quorum.Total(t[i := t[i] + 1]) == Quorum.Total(t) + 1
  {
    var front := t[..|t| - 1];
    if i == |t| - 1 {
      assert t[i := t[i] + 1][..|t| - 1] == front;
    } else {
      assert t[i := t[i] + 1][..|t| - 1] == front[i := front[i] + 1];
      BumpTotal(front, i);
    }
  }

  lemma {:induction false} ScaledTotal(w: seq<nat>, m: nat, s: seq<nat>)
    requires |s| == |w| && forall i :: 0 <= i < |w| ==> s[i] == m * w[i]
    ensures Quorum.Total(s) == m * Quorum.Total(w)
  {
    if w == [] {
    } else {
      ScaledTotal(w[..|w| - 1], m, s[..|w| - 1]);
      var a, b := Quorum.Total(w[..|w| - 1]), w[|w| - 1];
      assert m * (a + b) == m * a + m * b;
    }
  }

  lemma {:induction false} PointwiseEqual(a: seq<nat>, b: seq<nat>)
    requires |a| == |b| && Quorum.Total(a) == Quorum.Total(b)
    requires forall i :: 0 <= i < |a| ==> a[i] <= b[i]
    ensures a == b
  {
    if a == [] {
    } else {
      var n := |a| - 1;
      TotalMonotone(a[..n], b[..n]);
      PointwiseEqual(a[..n], b[..n]);
      assert a == a[..n] + [a[n]] && b == b[..n] + [b[n]];
    }
  }

  lemma {:induction false} TotalMonotone(a: seq<nat>, b: seq<nat>)
    requires |a| == |b| && forall i :: 0 <= i < |a| ==> a[i] <= b[i]
    ensures Quorum.Total(a) <= Quorum.Total(b)
  {
    if a == [] {
    } else {
      TotalMonotone(a[..|a| - 1], b[..|a| - 1]);
    }
  }

  // ---------------------------------------------------------------------------
  // Exact fairness

  lemma PositiveFactor(x: int, t: int)
    requires t > 0 && x * t > 0
    ensures x > 0
  {
  }

  lemma {:induction false} NotOverspent(c: nat, m: nat, wi: nat, t: nat)
    requires t > 0 && Credit(wi, t, m * t, c) + t > 0
    ensures c <= m * wi
  {
    calc {
      (m * wi - c + 1) * t;
      (m * wi) * t - c * t + t;
      (m * t) * wi - c * t + t;
    }
    PositiveFactor(m * wi - c + 1, t);
  }

  lemma {:induction false} CycleTurnsAtMost(w: seq<nat>, m: nat, k: nat, i: nat)
    requires LeaderWeights(w) && k == m * Quorum.Total(w) && i < |w|
    ensures Turns(w, k)[i] <= m * w[i]
  {
    TotalPositive(w);
    AlwaysBalanced(w, k);
    var p := After(w, k)[i];
    assert p + Quorum.Total(w) > 0;
    PriorityIsCredit(w, k, i);
    hide *;
    NotOverspent(Turns(w, k)[i], m, w[i], Quorum.Total(w));
  }

  /** After `m` full cycles each validator has led `m` times its weight. */
  lemma {:induction false} CycleTurns(w: seq<nat>, m: nat, k: nat)
    requires |w| > 0 && LeaderWeights(w) && k == m * Quorum.Total(w)
    ensures forall i :: 0 <= i < |w| ==> Turns(w, k)[i] == m * w[i]
  {
    hide *;
    TurnsAddUp(w, k);
    var share: seq<nat> := seq(|w|, i requires 0 <= i < |w| => m * w[i]);
    ScaledTotal(w, m, share);
    forall i | 0 <= i < |w| ensures Turns(w, k)[i] <= share[i] {
      CycleTurnsAtMost(w, m, k, i);
    }
    PointwiseEqual(Turns(w, k), share);
  }

  lemma Regroup(m: nat, t: nat, wi: nat)
    ensures (m * t) * wi == (m * wi) * t
  {
  }

  /** After `m` full cycles each validator has led `m` times its weight; all priorities are zero. */
  lemma {:induction false} CycleFairness(w: seq<nat>, m: nat, k: nat)
    requires LeaderWeights(w) && k == m * Quorum.Total(w)
    ensures forall i :: 0 <= i < |w| ==> Turns(w, k)[i] == m * w[i]
    ensures After(w, k) == Zeros(|w|)
  {
    CycleTurns(w, m, k);
    forall i | 0 <= i < |w| ensures After(w, k)[i] == 0 {
      PriorityIsCredit(w, k, i);
      Regroup(m, Quorum.Total(w), w[i]);
    }
  }

  lemma SameStateSameLeader(w: seq<nat>, k: nat, l: nat)
    requires |w| > 0 && After(w, k) == After(w, l)
    ensures Elected(w, k) == Elected(w, l)
  {
  }

  lemma SameStateSameStep(w: seq<nat>, k: nat, l: nat)
    requires |w| > 0 && k > 0 && l > 0 && After(w, k - 1) == After(w, l - 1)
    ensures After(w, k) == After(w, l)
  {
  }

  lemma FirstCycleReturns(w: seq<nat>)
    requires LeaderWeights(w)
    ensures After(w, Quorum.Total(w)) == After(w, 0)
  {
    CycleFairness(w, 1, Quorum.Total(w));
  }

  lemma {:induction false} ReturnsForever(w: seq<nat>, t: nat, k: nat)
    requires |w| > 0 && After(w, t) == After(w, 0)
    ensures After(w, k + t) == After(w, k)
  {
    hide *;
    if k == 0 {
    } else {
      ReturnsForever(w, t, k - 1);
      SameStateSameStep(w, k, k + t);
    }
  }

  /** The schedule repeats with period the total weight. */
  lemma SchedulePeriodic(w: seq<nat>, k: nat, l: nat)
    requires |w| > 0 && LeaderWeights(w) && l == k + Quorum.Total(w)
    ensures After(w, l) == After(w, k)
    ensures Elected(w, l) == Elected(w, k)
  {
    hide *;
    FirstCycleReturns(w);
    ReturnsForever(w, Quorum.Total(w), k);
    SameStateSameLeader(w, k, l);
  }

  lemma {:induction false} WindowShare(k: nat, t: nat, wi: nat, before: nat, after: nat)
    requires t > 0 && Credit(wi, t, k + t, after) == Credit(wi, t, k, before)
    ensures after == before + wi
  {
    calc {
      (after - before - wi) * t;
      after * t - before * t - wi * t;
      0;
    }
    if after - before - wi > 0 { NonzeroProduct(after - before - wi, t); }
    if after - before - wi < 0 { NonzeroProduct(before + wi - after, t); }
  }

  lemma NonzeroProduct(x: int, t: int)
    requires x > 0 && t > 0
    ensures x * t > 0
  {
  }

  /** In any window of total-weight consecutive views, each validator leads exactly its weight. */
  lemma {:induction false} WindowFairness(w: seq<nat>, k: nat, l: nat, i: nat)
    requires LeaderWeights(w) && i < |w| && l == k + Quorum.Total(w)
    ensures Turns(w, l)[i] == Turns(w, k)[i] + w[i]
  {
    hide Turns, After, Elected, Step;
    SchedulePeriodic(w, k, l);
    PriorityIsCredit(w, k, i);
    PriorityIsCredit(w, l, i);
    TotalPositive(w);
    WindowShare(k, Quorum.Total(w), w[i], Turns(w, k)[i], Turns(w, l)[i]);
  }

  /** `accumulator_step`, in place. */
  method AccumulatorStep(priorities: array<int>, w: seq<nat>) returns (bestIdx: nat)
    requires priorities.Length == |w| > 0
    modifies priorities
    ensures bestIdx == Step(old(priorities[..]), w).1
    ensures priorities[..] == Step(old(priorities[..]), w).0
  {
    ghost var p := priorities[..];
    ghost var q := Raised(p, w);
    for i := 0 to priorities.Length
      invariant forall j :: 0 <= j < i ==> priorities[j] == q[j]
      invariant forall j :: i <= j < priorities.Length ==> priorities[j] == p[j]
    {
      priorities[i] := Sat(priorities[i] + w[i]);
    }
    assert priorities[..] == q;
    bestIdx := 0;
    var bestPriority := priorities[0];
    for i := 1 to priorities.Length
      invariant bestIdx == Best(q, i) && bestPriority == q[bestIdx]
    {
      if priorities[i] > bestPriority {
        bestIdx, bestPriority := i, priorities[i];
      }
    }
    priorities[bestIdx] := Sat(priorities[bestIdx] - Quorum.Total(w));
  }
}
