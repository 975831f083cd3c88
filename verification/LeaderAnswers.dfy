/**
 * What the answers of the leader selector are, counted over the answers themselves: fairness in every
 * window and the rule by which one view's leader follows from those of the views before it.
 */
module LeaderAnswers {
  import opened Common
  import opened ValidatorSets
  import opened SetHistory
  import opened Leader
  import opened LeaderSelector
  import Quorum

  /** In how many views from `from` up to, not including, `until` the answer is `id`. */
  function Led(bs: seq<Boundary>, from: nat, until: nat, id: NodeId): nat
    requires Schedulable(bs)
    decreases until
  {
    if until <= from then 0 else Led(bs, from, until - 1, id) + if FreshLeader(bs, until - 1) == id then 1 else 0
  }

  /** The boundary whose set is in force in a view. */
  predicate InForce(bs: seq<Boundary>, i: nat, view: nat) {
    i < |bs| && bs[i].vEff <= view && (i + 1 < |bs| ==> view < bs[i + 1].vEff)
  }

  lemma InForceIsIndex(bs: seq<Boundary>, i: nat, view: nat)
    requires Schedulable(bs) && InForce(bs, i, view)
    ensures IndexAt(bs, view) == i
  {
    IndexAtIsLast(bs, view);
  }

  lemma FreshIs(bs: seq<Boundary>, i: nat, view: nat)
    requires Schedulable(bs) && InForce(bs, i, view)
    ensures FreshLeader(bs, view) == bs[i].vset.members[Elected(bs[i].vset.weights, view - bs[i].vEff)]
  {
    InForceIsIndex(bs, i, view);
  }

  /** The answers of a regime so far are the turns of the schedule. */
  lemma {:induction false} LedIsTurns(bs: seq<Boundary>, i: nat, view: nat, j: nat)
    requires Schedulable(bs) && i < |bs| && bs[i].vEff <= view && (i + 1 < |bs| ==> view <= bs[i + 1].vEff)
    requires j < |bs[i].vset.members|
    ensures Led(bs, bs[i].vEff, view, bs[i].vset.members[j]) == Turns(bs[i].vset.weights, view - bs[i].vEff)[j]
  {
    hide Elected, FreshLeader;
    var s, w := bs[i].vEff, bs[i].vset.weights;
    if view > s {
      LedIsTurns(bs, i, view - 1, j);
      FreshIs(bs, i, view - 1);
      TurnsUnfold(w, view - 1 - s);
    }
  }

  lemma {:induction false} LedSplits(bs: seq<Boundary>, from: nat, mid: nat, until: nat, id: NodeId)
    requires Schedulable(bs) && from <= mid <= until
    ensures Led(bs, from, until, id) == Led(bs, from, mid, id) + Led(bs, mid, until, id)
    decreases until
  {
    hide FreshLeader;
    if mid < until { LedSplits(bs, from, mid, until - 1, id); }
  }

  /** What a member has earned by the view, less the total weight for each view it led before. */
  function Score(bs: seq<Boundary>, i: nat, view: nat, j: nat): int
    requires Schedulable(bs) && i < |bs| && j < |bs[i].vset.members| && bs[i].vEff <= view
  {
    var b := bs[i];
    Credit(b.vset.weights[j], Quorum.Total(b.vset.weights), view - b.vEff + 1, Led(bs, b.vEff, view, b.vset.members[j]))
  }

  /** One member's raised priority is what it has earned by now less what it was charged. */
  lemma RaisedIsCredit(w: seq<nat>, k: nat, j: nat)
    requires LeaderWeights(w) && j < |w|
    ensures Raised(After(w, k), w)[j] == Credit(w[j], Quorum.Total(w), k + 1, Turns(w, k)[j])
  {
    hide After, Turns, Elected, Credit, LeaderWeights;
    AlwaysBalanced(w, k);
    RaisedIsExact(w, After(w, k));
    PriorityIsCredit(w, k, j);
    CreditStep(w[j], Quorum.Total(w), k + 1, Turns(w, k)[j]);
  }

  lemma ElectedIsBest(w: seq<nat>, k: nat)
    requires |w| > 0
    ensures |Raised(After(w, k), w)| == |w| && Elected(w, k) == Best(Raised(After(w, k), w), |w|)
  {
    hide After;
  }

  /** The leader of a view is the first member whose score over the views of the regime so far is greatest. */
  lemma LeaderHasGreatestScore(bs: seq<Boundary>, i: nat, view: nat) returns (at: nat)
    requires Schedulable(bs) && InForce(bs, i, view) && LeaderWeights(bs[i].vset.weights)
    ensures at < |bs[i].vset.members| && FreshLeader(bs, view) == bs[i].vset.members[at]
    ensures forall j :: 0 <= j < |bs[i].vset.members| ==> Score(bs, i, view, j) <= Score(bs, i, view, at)
    ensures forall j :: 0 <= j < at ==> Score(bs, i, view, j) < Score(bs, i, view, at)
  {
    hide Led, FreshLeader, Best, Credit, After, Turns, Elected, Raised, LeaderWeights;
    var b, k := bs[i], view - bs[i].vEff;
    var w := b.vset.weights;
    FreshIs(bs, i, view);
    at := Elected(w, k);
    ElectedIsBest(w, k);
    var q := Raised(After(w, k), w);
    BestIsGreatest(q, |w|);
    forall j | 0 <= j < |w| ensures Score(bs, i, view, j) == q[j] {
      LedIsTurns(bs, i, view, j);
      RaisedIsCredit(w, k, j);
    }
  }

  /** In every window of total-weight views inside a regime each member leads exactly its weight. */
  lemma AnswersAreFair(bs: seq<Boundary>, i: nat, from: nat, until: nat, j: nat)
    requires Schedulable(bs) && i < |bs| && LeaderWeights(bs[i].vset.weights) && j < |bs[i].vset.members|
    requires bs[i].vEff <= from && until == from + Quorum.Total(bs[i].vset.weights) && (i + 1 < |bs| ==> until <= bs[i + 1].vEff)
    ensures Led(bs, from, until, bs[i].vset.members[j]) == bs[i].vset.weights[j]
  {
    hide Led, FreshLeader, Turns, After, Elected;
    var s, w, id := bs[i].vEff, bs[i].vset.weights, bs[i].vset.members[j];
    LedSplits(bs, s, from, until, id);
    LedIsTurns(bs, i, from, j);
    LedIsTurns(bs, i, until, j);
    WindowFairness(w, from - s, until - s, j);
  }
}
