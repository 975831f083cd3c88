/**
 * Validator sets (`validator_set.rs`) and the boundary list that says which set is active in a
 * view (`validator_history.rs`).
 */
module ValidatorSets {
  import opened Common

  /** A 32-byte identity as a big-endian number, so that the byte order is the numeric order. */
  type NodeId = nat

  datatype ValidatorSet = ValidatorSet(members: seq<NodeId>, weights: seq<nat>)

  predicate Rising(s: seq<nat>) {
    forall i, j :: 0 <= i < j < |s| ==> s[i] < s[j]
  }

  predicate WellFormed(vs: ValidatorSet) {
    && |vs.members| == |vs.weights|
    && Rising(vs.members)
    && forall i :: 0 <= i < |vs.weights| ==> vs.weights[i] > 0
  }

  /** The set as what it means: a weight per member. */
  function AsMap(vs: ValidatorSet): map<NodeId, nat>
    requires |vs.members| == |vs.weights|
  {
    PairsMap(Pairs(vs))
  }

  /** `iter_weighted`. */
  function Pairs(vs: ValidatorSet): (ps: seq<(NodeId, nat)>)
    requires |vs.members| == |vs.weights|
    ensures |ps| == |vs.members|
  {
    seq(|vs.members|, i requires 0 <= i < |vs.members| => (vs.members[i], vs.weights[i]))
  }

  /** The map a list of pairs denotes when the first pair of an id wins. */
  function PairsMap(ps: seq<(NodeId, nat)>): map<NodeId, nat> {
    if ps == [] then map[]
    else
      var last := ps[|ps| - 1];
      var m := PairsMap(ps[..|ps| - 1]);
      if last.0 in m then m else m[last.0 := last.1]
  }

  predicate SortedById(ps: seq<(NodeId, nat)>) {
    forall i, j :: 0 <= i < j < |ps| ==> ps[i].0 <= ps[j].0
  }

  predicate DistinctIds(ps: seq<(NodeId, nat)>) {
    forall i, j :: 0 <= i < j < |ps| ==> ps[i].0 != ps[j].0
  }

  predicate HasId(ps: seq<(NodeId, nat)>, id: NodeId) {
    exists i :: 0 <= i < |ps| && ps[i].0 == id
  }

  lemma {:induction false} InMap(ps: seq<(NodeId, nat)>, id: NodeId)
    ensures id in PairsMap(ps) <==> HasId(ps, id)
    ensures id in PairsMap(ps) ==> (id, PairsMap(ps)[id]) in ps
  {
    if ps == [] {
    } else {
      var front, last := ps[..|ps| - 1], ps[|ps| - 1];
      assert ps == front + [last];
      InMap(front, id);
      if HasId(front, id) {
        var i :| 0 <= i < |front| && front[i].0 == id;
        assert ps[i].0 == id;
      } else if HasId(ps, id) {
        assert id == last.0;
      }
    }
  }

  lemma FrontLacksLast(ps: seq<(NodeId, nat)>)
    requires DistinctIds(ps) && ps != []
    ensures ps[|ps| - 1].0 !in PairsMap(ps[..|ps| - 1])
    ensures PairsMap(ps) == PairsMap(ps[..|ps| - 1])[ps[|ps| - 1].0 := ps[|ps| - 1].1]
  {
    InMap(ps[..|ps| - 1], ps[|ps| - 1].0);
  }

  lemma {:induction false} DistinctLookup(ps: seq<(NodeId, nat)>, i: nat)
    requires DistinctIds(ps) && i < |ps|
    ensures ps[i].0 in PairsMap(ps) && PairsMap(ps)[ps[i].0] == ps[i].1
  {
    FrontLacksLast(ps);
    if i < |ps| - 1 {
      DistinctLookup(ps[..|ps| - 1], i);
    }
  }

  lemma FrontMap(a: seq<(NodeId, nat)>)
    requires SortedById(a) && DistinctIds(a) && a != []
    ensures SortedById(a[..|a| - 1]) && DistinctIds(a[..|a| - 1])
    ensures PairsMap(a[..|a| - 1]) == PairsMap(a) - {a[|a| - 1].0}
  {
    FrontLacksLast(a);
  }

  /** The last pair of a sorted list carries the greatest id of its map. */
  lemma LastIsGreatest(a: seq<(NodeId, nat)>, id: NodeId)
    requires SortedById(a) && DistinctIds(a) && id in PairsMap(a)
    ensures a != [] && id <= a[|a| - 1].0 && a[|a| - 1].0 in PairsMap(a)
    ensures PairsMap(a)[a[|a| - 1].0] == a[|a| - 1].1
  {
    InMap(a, id);
    DistinctLookup(a, |a| - 1);
  }

  lemma EmptyMapEmptyList(b: seq<(NodeId, nat)>)
    requires DistinctIds(b) && PairsMap(b) == PairsMap([])
    ensures b == []
  {
  }

  /** Two strictly sorted lists of pairs with the same map are the same list. */
  lemma {:induction false} SortedPairsDetermined(a: seq<(NodeId, nat)>, b: seq<(NodeId, nat)>)
    requires SortedById(a) && DistinctIds(a) && SortedById(b) && DistinctIds(b)
    requires PairsMap(a) == PairsMap(b)
    ensures a == b
  {
    hide *;
    if a == [] {
      EmptyMapEmptyList(b);
    } else {
      DistinctLookup(a, |a| - 1);
      LastIsGreatest(b, a[|a| - 1].0);
      LastIsGreatest(a, b[|b| - 1].0);
      var x := a[|a| - 1];
      assert b[|b| - 1] == x;
      FrontMap(a);
      FrontMap(b);
      var f, g := a[..|a| - 1], b[..|b| - 1];
      SortedPairsDetermined(f, g);
      assert a == f + [x] && b == g + [x];
    }
  }

  /** A well-formed set is determined by its members' weights. */
  lemma SetDetermined(a: ValidatorSet, b: ValidatorSet)
    requires WellFormed(a) && WellFormed(b) && AsMap(a) == AsMap(b)
    ensures a == b
  {
    SortedPairsDetermined(Pairs(a), Pairs(b));
    assert |a.members| == |Pairs(a)| && |b.members| == |Pairs(b)|;
    forall i | 0 <= i < |a.members|
      ensures a.members[i] == b.members[i] && a.weights[i] == b.weights[i]
    {
      assert Pairs(a)[i] == Pairs(b)[i];
    }
  }

  lemma MapOfMember(vs: ValidatorSet, id: NodeId)
    requires |vs.members| == |vs.weights|
    ensures id in AsMap(vs) <==> id in vs.members
  {
    InMap(Pairs(vs), id);
    if id in vs.members {
      var i :| 0 <= i < |vs.members| && vs.members[i] == id;
      assert Pairs(vs)[i].0 == id;
    }
  }

  // ---------------------------------------------------------------------------
  // Sorting, deduplication and construction

  /** Insert a pair after all pairs with the same or a smaller id, as a stable sort does. */
  function InsertById(ps: seq<(NodeId, nat)>, x: (NodeId, nat)): seq<(NodeId, nat)> {
    if ps == [] then [x]
    else if ps[|ps| - 1].0 <= x.0 then ps + [x]
    else InsertById(ps[..|ps| - 1], x) + [ps[|ps| - 1]]
  }

  /** `sort_by_key` on the id. */
  function SortById(ps: seq<(NodeId, nat)>): seq<(NodeId, nat)> {
    if ps == [] then [] else InsertById(SortById(ps[..|ps| - 1]), ps[|ps| - 1])
  }

  /** `dedup_by_key`: of equal neighbours the first stays. */
  function DedupById(ps: seq<(NodeId, nat)>): seq<(NodeId, nat)> {
    if |ps| <= 1 then ps
    else
      var d := DedupById(ps[..|ps| - 1]);
      if ps[|ps| - 2].0 == ps[|ps| - 1].0 then d else d + [ps[|ps| - 1]]
  }

  lemma {:induction false} InsertKeepsOrder(ps: seq<(NodeId, nat)>, x: (NodeId, nat))
    requires SortedById(ps)
    ensures SortedById(InsertById(ps, x))
    ensures |InsertById(ps, x)| == |ps| + 1
    ensures forall y :: y in InsertById(ps, x) <==> y == x || y in ps
  {
    if ps != [] && ps[|ps| - 1].0 > x.0 {
      var front, last := ps[..|ps| - 1], ps[|ps| - 1];
      assert ps == front + [last];
      InsertKeepsOrder(front, x);
      var r := InsertById(front, x);
      forall i | 0 <= i < |r| ensures r[i].0 <= last.0 {
        assert r[i] in r;
        if r[i] != x {
          var k :| 0 <= k < |front| && front[k] == r[i];
        }
      }
    }
  }

  lemma {:induction false} SortIsSorted(ps: seq<(NodeId, nat)>)
    ensures SortedById(SortById(ps))
    ensures forall y :: y in SortById(ps) <==> y in ps
    ensures |SortById(ps)| == |ps|
  {
    if ps == [] {
    } else {
      var front, last := ps[..|ps| - 1], ps[|ps| - 1];
      assert ps == front + [last];
      SortIsSorted(front);
      InsertKeepsOrder(SortById(front), last);
    }
  }

  /** Inserting into pairs whose ids are all different keeps the ids different. */
  lemma {:induction false} InsertKeepsDistinct(ps: seq<(NodeId, nat)>, x: (NodeId, nat))
    requires SortedById(ps) && DistinctIds(ps) && forall i :: 0 <= i < |ps| ==> ps[i].0 != x.0
    ensures DistinctIds(InsertById(ps, x))
  {
    if ps != [] && ps[|ps| - 1].0 > x.0 {
      var front, last := ps[..|ps| - 1], ps[|ps| - 1];
      InsertKeepsDistinct(front, x);
      InsertKeepsOrder(front, x);
      var r := InsertById(front, x);
      forall i | 0 <= i < |r| ensures r[i].0 != last.0 {
        assert r[i] in r;
        if r[i] != x {
          var k :| 0 <= k < |front| && front[k] == r[i];
        }
      }
    }
  }

  lemma {:induction false} SortKeepsDistinct(ps: seq<(NodeId, nat)>)
    requires DistinctIds(ps)
    ensures DistinctIds(SortById(ps))
  {
    if ps == [] {
    } else {
      var front, last := ps[..|ps| - 1], ps[|ps| - 1];
      SortKeepsDistinct(front);
      SortIsSorted(front);
      var s := SortById(front);
      forall i | 0 <= i < |s| ensures s[i].0 != last.0 {
        assert s[i] in s;
        var k :| 0 <= k < |front| && front[k] == s[i];
      }
      InsertKeepsDistinct(s, last);
    }
  }

  lemma {:induction false} DedupOfDistinct(ps: seq<(NodeId, nat)>)
    requires DistinctIds(ps)
    ensures DedupById(ps) == ps
  {
    if |ps| > 1 {
      DedupOfDistinct(ps[..|ps| - 1]);
      assert ps == ps[..|ps| - 1] + [ps[|ps| - 1]];
    }
  }

  lemma SameElementsSameMap(a: seq<(NodeId, nat)>, b: seq<(NodeId, nat)>)
    requires DistinctIds(a) && DistinctIds(b) && forall y :: y in a <==> y in b
    ensures PairsMap(a) == PairsMap(b)
  {
    forall id | id in PairsMap(a) ensures id in PairsMap(b) && PairsMap(b)[id] == PairsMap(a)[id] {
      InMap(a, id);
      var j :| 0 <= j < |b| && b[j] == (id, PairsMap(a)[id]);
      DistinctLookup(b, j);
    }
    forall id | id in PairsMap(b) ensures id in PairsMap(a) {
      InMap(b, id);
      var i :| 0 <= i < |a| && a[i] == (id, PairsMap(b)[id]);
      DistinctLookup(a, i);
    }
  }

  function SetOfPairs(ps: seq<(NodeId, nat)>): ValidatorSet {
    ValidatorSet(seq(|ps|, i requires 0 <= i < |ps| => ps[i].0), seq(|ps|, i requires 0 <= i < |ps| => ps[i].1))
  }

  datatype WeightedSetError = ZeroWeight(index: nat)

  /** The first entry with weight zero, or the length. */
  function FirstZero(ps: seq<(NodeId, nat)>, i: nat): nat
    requires i <= |ps|
    decreases |ps| - i
  {
    if i == |ps| || ps[i].1 == 0 then i else FirstZero(ps, i + 1)
  }

  /** `ValidatorSet::with_weights`. */
  function WithWeights(ps: seq<(NodeId, nat)>): Result<ValidatorSet, WeightedSetError> {
    if FirstZero(ps, 0) < |ps| then Err(ZeroWeight(FirstZero(ps, 0)))
    else Ok(SetOfPairs(DedupById(SortById(ps))))
  }

  lemma {:induction false} FirstZeroFinds(ps: seq<(NodeId, nat)>, i: nat)
    requires i <= |ps|
    ensures i <= FirstZero(ps, i) <= |ps|
    ensures forall j :: i <= j < FirstZero(ps, i) ==> ps[j].1 > 0
    ensures FirstZero(ps, i) < |ps| ==> ps[FirstZero(ps, i)].1 == 0
    decreases |ps| - i
  {
    if i < |ps| && ps[i].1 != 0 { FirstZeroFinds(ps, i + 1); }
  }

  /** Sorting distinct pairs lists the same map. */
  lemma SortOfDistinct(ps: seq<(NodeId, nat)>)
    requires DistinctIds(ps)
    ensures var s := DedupById(SortById(ps));
      && SortedById(s) && DistinctIds(s) && PairsMap(s) == PairsMap(ps) && |s| == |ps|
      && (forall y :: y in s <==> y in ps)
  {
    SortIsSorted(ps);
    SortKeepsDistinct(ps);
    DedupOfDistinct(SortById(ps));
    SameElementsSameMap(ps, SortById(ps));
  }

  lemma SetOfSortedPairs(s: seq<(NodeId, nat)>)
    requires SortedById(s) && DistinctIds(s) && forall i :: 0 <= i < |s| ==> s[i].1 > 0
    ensures WellFormed(SetOfPairs(s)) && Pairs(SetOfPairs(s)) == s
    ensures AsMap(SetOfPairs(s)) == PairsMap(s)
  {
  }

  /** For distinct ids, `with_weights` accepts exactly positive weights and keeps every weight. */
  lemma WithWeightsDistinct(ps: seq<(NodeId, nat)>)
    requires DistinctIds(ps)
    ensures WithWeights(ps).Ok? <==> forall i :: 0 <= i < |ps| ==> ps[i].1 > 0
    ensures WithWeights(ps).Ok? ==>
      WellFormed(WithWeights(ps).value) && AsMap(WithWeights(ps).value) == PairsMap(ps)
      && |WithWeights(ps).value.members| == |ps|
  {
    FirstZeroFinds(ps, 0);
    SortOfDistinct(ps);
    var s := DedupById(SortById(ps));
    if FirstZero(ps, 0) == |ps| {
      forall i | 0 <= i < |s| ensures s[i].1 > 0 {
        assert s[i] in s;
        var k :| 0 <= k < |ps| && ps[k] == s[i];
      }
      SetOfSortedPairs(s);
    }
  }

  lemma PairsDistinct(vs: ValidatorSet)
    requires WellFormed(vs)
    ensures DistinctIds(Pairs(vs)) && SortedById(Pairs(vs))
  {
  }

  /** `with_weights` of a set's own listing gives the set back. */
  lemma WithWeightsRoundTrip(vs: ValidatorSet)
    requires WellFormed(vs)
    ensures WithWeights(Pairs(vs)) == Ok(vs)
  {
    PairsDistinct(vs);
    WithWeightsDistinct(Pairs(vs));
    SetDetermined(WithWeights(Pairs(vs)).value, vs);
  }
}
