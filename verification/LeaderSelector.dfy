/**
 * The memoised leader schedule across validator-set regimes
 * (`WeightedAccumulatorSelector` in `pacemaker/leader.rs`).
 */
module LeaderSelector {
  import opened Common
  import opened ValidatorSets
  import opened SetHistory
  import opened Leader

  datatype RegimeFrontier = RegimeFrontier(lastView: Option<nat>, priorities: seq<int>)

  /** Every boundary has validators; the constructor of the selector asserts it. */
  predicate Schedulable(bs: seq<Boundary>) {
    ValidHistory(bs) && forall i :: 0 <= i < |bs| ==> |bs[i].vset.members| > 0
  }

  /** The leader of a view by recomputation from the start of its regime. */
  function FreshLeader(bs: seq<Boundary>, view: nat): NodeId
    requires Schedulable(bs)
  {
    IndexAtIsLast(bs, view);
    var b := bs[IndexAt(bs, view)];
    b.vset.members[Elected(b.vset.weights, view - b.vEff)]
  }

  /** What a cached frontier must hold: the priorities after the last view it was advanced to. */
  predicate FrontierOk(bs: seq<Boundary>, start: nat, f: RegimeFrontier)
    requires Schedulable(bs)
  {
    exists i :: 0 <= i < |bs| && bs[i].vEff == start && FrontierAt(bs[i], f)
  }

  predicate FrontierAt(b: Boundary, f: RegimeFrontier)
    requires WellFormed(b.vset) && |b.vset.members| > 0
  {
    match f.lastView
    case None => f.priorities == Zeros(|b.vset.weights|)
    case Some(last) => last >= b.vEff && f.priorities == After(b.vset.weights, last - b.vEff + 1)
  }

  class WeightedAccumulatorSelector {
    const history: seq<Boundary>
    var frontiers: map<nat, RegimeFrontier>

    ghost predicate Valid()
      reads this
    {
      && Schedulable(history)
      && CacheOk(history, frontiers)
    }

    constructor (history: seq<Boundary>)
      requires Schedulable(history)
      ensures Valid() && this.history == history && frontiers == map[]
    {
      this.history := history;
      frontiers := map[];
    }

    /** `regime_start_for` names the boundary whose set `set_at` returns. */
    method RegimeStartFor(view: nat) returns (start: nat)
      requires Schedulable(history)
      ensures start == history[IndexAt(history, view)].vEff
    {
      start := 0;
      IndexAtIsLast(history, view);
      ghost var at := IndexAt(history, view);
      for i := 0 to |history|
        invariant i <= at + 1
        invariant i > 0 ==> start == history[i - 1].vEff
        invariant i == 0 ==> start == 0
      {
        if history[i].vEff <= view {
          start := history[i].vEff;
        } else {
          break;
        }
      }
    }

    /** `leader_for_view`'s loop: `steps` accumulator steps from the priorities `ps`. */
    method Advance(ps: seq<int>, w: seq<nat>, ghost from: nat, steps: nat) returns (after: seq<int>, leader: nat)
      requires |ps| == |w| > 0 && ps == After(w, from) && steps > 0
      ensures after == After(w, from + steps)
      ensures leader == Elected(w, from + steps - 1)
    {
      hide *;
      var priorities := new int[|ps|](i requires 0 <= i < |ps| => ps[i]);
      assert priorities[..] == ps;
      leader := 0;
      for k := 0 to steps
        invariant priorities[..] == After(w, from + k)
        invariant k > 0 ==> leader == Elected(w, from + k - 1)
      {
        Unfold(w, from + k);
        leader := AccumulatorStep(priorities, w);
      }
      after := priorities[..];
    }

    /**
     * `leader_for_view`: whatever was asked before, in whatever order and across whatever
     * boundaries, the answer is the one a fresh recomputation gives.
     */
    method LeaderForView(view: nat) returns (leader: NodeId)
      requires Valid()
      modifies this`frontiers
      ensures Valid() && leader == FreshLeader(history, view)
    {
      hide After, Elected, Step, IndexAt;
      var vs := SetAt(history, view);
      var regimeStart := RegimeStartFor(view);
      IndexAtIsLast(history, view);
      ghost var b := history[IndexAt(history, view)];
      var w := vs.weights;
      var frontier := if regimeStart in frontiers then frontiers[regimeStart]
                      else RegimeFrontier(None, Zeros(|w|));
      CachedFrontier(history, frontiers, IndexAt(history, view));
      if frontier.lastView.Some? && view <= frontier.lastView.value {
        StartState(w);
        var _, idx := Advance(Zeros(|w|), w, 0, view - regimeStart + 1);
        return vs.members[idx];
      }
      var startView := if frontier.lastView.Some? then frontier.lastView.value + 1 else regimeStart;
      StartState(w);
      var ps, idx := Advance(frontier.priorities, w, startView - regimeStart, view - startView + 1);
      StoredFrontier(history, frontiers, IndexAt(history, view), view, ps);
      frontiers := frontiers[regimeStart := RegimeFrontier(Some(view), ps)];
      return vs.members[idx];
    }
  }

  lemma StartState(w: seq<nat>)
    requires |w| > 0
    ensures After(w, 0) == Zeros(|w|)
  {
  }

  ghost predicate CacheOk(bs: seq<Boundary>, frontiers: map<nat, RegimeFrontier>)
    requires Schedulable(bs)
  {
    forall start :: start in frontiers ==> FrontierOk(bs, start, frontiers[start])
  }

  /** A cached frontier under a boundary's view belongs to that boundary. */
  lemma CachedFrontier(bs: seq<Boundary>, frontiers: map<nat, RegimeFrontier>, at: nat)
    requires Schedulable(bs) && CacheOk(bs, frontiers) && at < |bs|
    ensures bs[at].vEff in frontiers ==> FrontierAt(bs[at], frontiers[bs[at].vEff])
  {
  }

  lemma StoredFrontier(bs: seq<Boundary>, frontiers: map<nat, RegimeFrontier>, at: nat, view: nat, ps: seq<int>)
    requires Schedulable(bs) && CacheOk(bs, frontiers) && at < |bs| && bs[at].vEff <= view
    requires ps == After(bs[at].vset.weights, view - bs[at].vEff + 1)
    ensures CacheOk(bs, frontiers[bs[at].vEff := RegimeFrontier(Some(view), ps)])
  {
    hide CacheOk, FrontierOk, FrontierAt, After, Schedulable;
    var f := RegimeFrontier(Some(view), ps);
    FrontierHolds(bs, at, view, f);
    forall start | start in frontiers && start != bs[at].vEff ensures FrontierOk(bs, start, frontiers[start]) {
      CachedOk(bs, frontiers, start);
    }
    AllOk(bs, frontiers[bs[at].vEff := f]);
  }

  lemma FrontierHolds(bs: seq<Boundary>, at: nat, view: nat, f: RegimeFrontier)
    requires Schedulable(bs) && at < |bs| && bs[at].vEff <= view && f.lastView == Some(view)
    requires f.priorities == After(bs[at].vset.weights, view - bs[at].vEff + 1)
    ensures FrontierOk(bs, bs[at].vEff, f)
  {
    hide After;
    assert FrontierAt(bs[at], f);
  }

  lemma CachedOk(bs: seq<Boundary>, frontiers: map<nat, RegimeFrontier>, start: nat)
    requires Schedulable(bs) && CacheOk(bs, frontiers) && start in frontiers
    ensures FrontierOk(bs, start, frontiers[start])
  {
    hide FrontierOk;
  }

  lemma AllOk(bs: seq<Boundary>, frontiers: map<nat, RegimeFrontier>)
    requires Schedulable(bs) && forall start :: start in frontiers ==> FrontierOk(bs, start, frontiers[start])
    ensures CacheOk(bs, frontiers)
  {
    hide FrontierOk;
  }
}
