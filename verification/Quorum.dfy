/**
 * Weighted quorums (`hotstuff/qc.rs`) over the weights of a validator set
 * (`validator_set.rs`). Voters are identified by their index in the set.
 */
module Quorum {
  import opened Common

  const TWO_32: nat := 0x1_0000_0000
  const TWO_64: nat := 0x1_0000_0000_0000_0000
  const TWO_96: nat := 0x1_0000_0000_0000_0000_0000_0000

  /** `ValidatorSet::total_weight`. */
  function Total(w: seq<nat>): nat {
    if w == [] then 0 else Total(w[..|w| - 1]) + w[|w| - 1]
  }

  /** The weight of the voters whose index lies in `s`; indices outside the set weigh nothing. */
  function WeightOf(w: seq<nat>, s: set<nat>): nat {
    if w == [] then 0
    else WeightOf(w[..|w| - 1], s) + if |w| - 1 in s then w[|w| - 1] else 0
  }

  /** `quorum_weight_threshold`. */
  function QuorumWeightThreshold(total: nat): nat {
    if total == 0 then 1 else SatMul128(2, total) / 3 + 1
  }

  /** `honesty_weight_threshold`. */
  function HonestyWeightThreshold(total: nat): nat {
    if total == 0 then 1 else total / 3 + 1
  }

  /** `QuorumCertificate::has_quorum` on an already summed signer weight. */
  predicate HasQuorum(signer: nat, total: nat) {
    SatMul128(3, signer) > SatMul128(2, total)
  }

  /** The weights a `ValidatorSet` can carry: `u64` values, at most `u32::MAX` of them. */
  predicate MachineWeights(w: seq<nat>) {
    |w| < TWO_32 && forall i :: 0 <= i < |w| ==> w[i] < TWO_64
  }

  predicate IsQuorum(w: seq<nat>, s: set<nat>) {
    HasQuorum(WeightOf(w, s), Total(w))
  }

  lemma {:induction false} WeightBounded(w: seq<nat>, s: set<nat>)
    ensures WeightOf(w, s) <= Total(w)
  {
    if w == [] {
    } else {
      WeightBounded(w[..|w| - 1], s);
    }
  }

  lemma {:induction false} WeightMonotone(w: seq<nat>, s: set<nat>, t: set<nat>)
    requires forall i :: i in s && i < |w| ==> i in t
    ensures WeightOf(w, s) <= WeightOf(w, t)
  {
    if w == [] {
    } else {
      WeightMonotone(w[..|w| - 1], s, t);
    }
  }

  lemma {:induction false} WeightInclusionExclusion(w: seq<nat>, s: set<nat>, t: set<nat>)
    ensures WeightOf(w, s) + WeightOf(w, t) == WeightOf(w, s + t) + WeightOf(w, s * t)
  {
    if w == [] {
    } else {
      WeightInclusionExclusion(w[..|w| - 1], s, t);
    }
  }

  lemma {:induction false} TotalBelow(w: seq<nat>, cap: nat)
    requires forall i :: 0 <= i < |w| ==> w[i] < cap
    ensures Total(w) <= |w| * cap
  {
    if w == [] {
    } else {
      TotalBelow(w[..|w| - 1], cap);
      assert |w| * cap == (|w| - 1) * cap + cap;
    }
  }

  /** No product in `has_quorum` saturates for weights a `ValidatorSet` can hold. */
  lemma MachineTotalFits(w: seq<nat>)
    requires MachineWeights(w)
    ensures Total(w) < TWO_96
  {
    TotalBelow(w, TWO_64);
    assert |w| * TWO_64 <= (TWO_32 - 1) * TWO_64;
  }

  /** `has_quorum` is exactly "the signer weight reaches `quorum_weight_threshold`". */
  lemma QuorumIffThreshold(w: seq<nat>, s: set<nat>)
    requires MachineWeights(w)
    ensures IsQuorum(w, s) <==> WeightOf(w, s) >= QuorumWeightThreshold(Total(w))
    ensures IsQuorum(w, s) <==> 3 * WeightOf(w, s) > 2 * Total(w)
  {
    MachineTotalFits(w);
    WeightBounded(w, s);
  }

  /** Two quorums share strictly more than a third of the total weight. */
  lemma QuorumsOverlap(w: seq<nat>, a: set<nat>, b: set<nat>)
    requires MachineWeights(w) && IsQuorum(w, a) && IsQuorum(w, b)
    ensures 3 * WeightOf(w, a * b) > Total(w)
  {
    QuorumIffThreshold(w, a);
    QuorumIffThreshold(w, b);
    WeightInclusionExclusion(w, a, b);
    WeightBounded(w, a + b);
  }

  /** With faulty weight at most a third, two quorums share an honest voter. */
  lemma HonestInBoth(w: seq<nat>, a: set<nat>, b: set<nat>, faulty: set<nat>) returns (i: nat)
    requires MachineWeights(w) && IsQuorum(w, a) && IsQuorum(w, b)
    requires 3 * WeightOf(w, faulty) <= Total(w)
    ensures i < |w| && i in a && i in b && i !in faulty
  {
    QuorumsOverlap(w, a, b);
    if forall j :: j in a * b && j < |w| ==> j in faulty {
      WeightMonotone(w, a * b, faulty);
      assert false;
    }
    i :| i in a * b && i < |w| && i !in faulty;
  }

  /** Any voters that reach `honesty_weight_threshold` meet every quorum, with positive weight. */
  lemma HonestyMeetsQuorum(w: seq<nat>, h: set<nat>, q: set<nat>)
    requires MachineWeights(w) && IsQuorum(w, q)
    requires WeightOf(w, h) >= HonestyWeightThreshold(Total(w))
    ensures WeightOf(w, h * q) > 0
  {
    QuorumIffThreshold(w, q);
    WeightInclusionExclusion(w, h, q);
    WeightBounded(w, h + q);
  }

  /** The honesty threshold is the least weight above a third of the total, and one without any weight. */
  lemma HonestyIff(total: nat, x: nat)
    ensures x >= HonestyWeightThreshold(total) <==> if total == 0 then x > 0 else 3 * x > total
  {
  }
}
