/** Exactly what the persisted forms of the histories are accepted, and what they are restored to. */
module RestoreLaws {
  import opened Common
  import opened ValidatorSets
  import opened SetHistory
  import KeyHistories
  import KeyIndex

  // ---------------------------------------------------------------------------
  // Repeated ids in a weighted set

  /** A stable insertion lets the pair that was there first keep its id. */
  lemma {:induction false} InsertMap(ps: seq<(NodeId, nat)>, x: (NodeId, nat))
    requires SortedById(ps)
    ensures PairsMap(InsertById(ps, x)) == if x.0 in PairsMap(ps) then PairsMap(ps) else PairsMap(ps)[x.0 := x.1]
  {
    if ps != [] && ps[|ps| - 1].0 > x.0 {
      var front, last := ps[..|ps| - 1], ps[|ps| - 1];
      InsertMap(front, x);
      InMap(front, x.0);
      var r := InsertById(front, x);
      assert (r + [last])[..|r|] == r;
    } else {
      assert (ps + [x])[..|ps|] == ps;
    }
  }

  lemma {:induction false} SortMap(ps: seq<(NodeId, nat)>)
    ensures PairsMap(SortById(ps)) == PairsMap(ps)
  {
    hide PairsMap, InsertById;
    if ps == [] {
    } else {
      var front, last := ps[..|ps| - 1], ps[|ps| - 1];
      SortMap(front);
      SortIsSorted(front);
      InsertMap(SortById(front), last);
      PairsMapLast(ps);
    }
  }

  lemma PairsMapLast(ps: seq<(NodeId, nat)>)
    requires ps != []
    ensures var last, m := ps[|ps| - 1], PairsMap(ps[..|ps| - 1]);
      PairsMap(ps) == if last.0 in m then m else m[last.0 := last.1]
  {
  }

  /** Of a sorted list, one pair of each id stays: the first. */
  lemma {:induction false} DedupMap(ps: seq<(NodeId, nat)>)
    requires SortedById(ps)
    ensures var d := DedupById(ps);
      && SortedById(d) && DistinctIds(d) && PairsMap(d) == PairsMap(ps)
      && (forall y :: y in d ==> y in ps) && (ps != [] ==> d != [] && d[|d| - 1].0 == ps[|ps| - 1].0)
  {
    hide PairsMap, SortedById, DistinctIds;
    if |ps| > 1 {
      var front, last := ps[..|ps| - 1], ps[|ps| - 1];
      SortedFront(ps);
      DedupMap(front);
      var d := DedupById(front);
      PairsMapLast(ps);
      InMap(front, last.0);
      assert front[|front| - 1] == ps[|ps| - 2];
      if ps[|ps| - 2].0 != last.0 { DedupAppend(ps, front, d, last); }
    } else {
      Singleton(ps);
    }
  }

  lemma Singleton(ps: seq<(NodeId, nat)>)
    requires |ps| <= 1
    ensures SortedById(ps) && DistinctIds(ps)
  {
  }

  lemma SortedFront(ps: seq<(NodeId, nat)>)
    requires SortedById(ps) && |ps| > 1
    ensures SortedById(ps[..|ps| - 1]) && ps == ps[..|ps| - 1] + [ps[|ps| - 1]]
    ensures forall y :: y in ps[..|ps| - 1] ==> y.0 <= ps[|ps| - 2].0
    ensures ps[|ps| - 2].0 <= ps[|ps| - 1].0
  {
  }

  /** A pair of a new, greater id is appended. */
  lemma DedupAppend(ps: seq<(NodeId, nat)>, front: seq<(NodeId, nat)>, d: seq<(NodeId, nat)>, last: (NodeId, nat))
    requires ps == front + [last] && SortedById(d) && DistinctIds(d) && PairsMap(d) == PairsMap(front)
    requires (forall y :: y in d ==> y in front) && forall y :: y in front ==> y.0 < last.0
    ensures SortedById(d + [last]) && DistinctIds(d + [last]) && PairsMap(d + [last]) == PairsMap(ps)
    ensures forall y :: y in d + [last] ==> y in ps
  {
    hide PairsMap;
    assert (d + [last])[..|d|] == d && ps[..|front|] == front;
    PairsMapLast(d + [last]);
    PairsMapLast(ps);
    forall i | 0 <= i < |d| ensures d[i].0 < last.0 { assert d[i] in d; }
  }

  /**
   * A weighted set is refused if and only if some weight is zero, with the index of the first; otherwise it
   * is well formed and holds every id once, with the weight of its first pair.
   */
  lemma WithWeightsIff(ps: seq<(NodeId, nat)>)
    ensures WithWeights(ps).Ok? <==> forall i :: 0 <= i < |ps| ==> ps[i].1 > 0
    ensures WithWeights(ps).Ok? ==> WellFormed(WithWeights(ps).value) && AsMap(WithWeights(ps).value) == PairsMap(ps)
    ensures WithWeights(ps).Err? ==>
      var k := WithWeights(ps).error.index;
      k < |ps| && ps[k].1 == 0 && forall i :: 0 <= i < k ==> ps[i].1 > 0
  {
    hide PairsMap, SortById, DedupById;
    FirstZeroFinds(ps, 0);
    SortMap(ps);
    SortIsSorted(ps);
    DedupMap(SortById(ps));
    var s := DedupById(SortById(ps));
    if FirstZero(ps, 0) == |ps| {
      forall i | 0 <= i < |s| ensures s[i].1 > 0 {
        assert s[i] in s && s[i] in SortById(ps) && s[i] in ps;
        var k :| 0 <= k < |ps| && ps[k] == s[i];
      }
      SetOfSortedPairs(s);
    }
  }

  // ---------------------------------------------------------------------------
  // The set history

  predicate BoundaryOk(p: PersistedBoundary) {
    |p.members| == |p.weights| && forall i :: 0 <= i < |p.weights| ==> p.weights[i] > 0
  }

  predicate Persistable(ps: seq<PersistedBoundary>) {
    && ps != [] && ps[0].vEff == 0
    && (forall i :: 0 <= i < |ps| ==> BoundaryOk(ps[i]))
    && (forall i :: 0 < i < |ps| ==> ps[i - 1].vEff < ps[i].vEff)
  }

  lemma BoundaryIff(p: PersistedBoundary)
    ensures BoundaryToSet(p).Ok? <==> BoundaryOk(p)
    ensures BoundaryToSet(p).Err? ==> BoundaryToSet(p).error == if |p.members| != |p.weights| then LengthMismatch(p.vEff) else BadSet(p.vEff)
    ensures BoundaryToSet(p).Ok? ==>
      && WellFormed(BoundaryToSet(p).value)
      && AsMap(BoundaryToSet(p).value) == PairsMap(Pairs(ValidatorSet(p.members, p.weights)))
  {
    hide PairsMap, WithWeights;
    if |p.members| == |p.weights| {
      var ps := Pairs(ValidatorSet(p.members, p.weights));
      WithWeightsIff(ps);
      assert forall i :: 0 <= i < |ps| ==> ps[i].1 == p.weights[i];
    }
  }

  /** A persisted set history is accepted if and only if it is persistable; each boundary then has the persisted weights. */
  lemma {:induction false} RestoredIff(ps: seq<PersistedBoundary>)
    ensures Restored(ps).Ok? <==> Persistable(ps)
    ensures Restored(ps).Ok? ==>
      var bs := Restored(ps).value;
      && |bs| == |ps|
      && forall i :: 0 <= i < |ps| ==>
           bs[i].vEff == ps[i].vEff && WellFormed(bs[i].vset) && |ps[i].members| == |ps[i].weights|
           && AsMap(bs[i].vset) == PairsMap(Pairs(ValidatorSet(ps[i].members, ps[i].weights)))
  {
    hide BoundaryToSet, BoundaryOk, AsMap, PairsMap, WellFormed;
    if ps == [] {
    } else {
      var n := |ps| - 1;
      BoundaryIff(ps[n]);
      if BoundaryOk(ps[n]) { BoundaryLengths(ps[n]); }
      if n > 0 {
        RestoredIff(ps[..n]);
        PersistableFront(ps);
        hide Persistable;
      }
    }
  }

  lemma PersistableFront(ps: seq<PersistedBoundary>)
    requires |ps| > 1
    ensures var n := |ps| - 1;
      Persistable(ps) <==> Persistable(ps[..n]) && BoundaryOk(ps[n]) && ps[n - 1].vEff < ps[n].vEff
  {
    hide BoundaryOk;
    assert forall i :: 0 <= i < |ps| - 1 ==> ps[..|ps| - 1][i] == ps[i];
  }

  lemma BoundaryLengths(p: PersistedBoundary)
    requires BoundaryOk(p)
    ensures |p.members| == |p.weights|
  {
  }

  /** The first boundary that is not acceptable decides the refusal. */
  lemma FirstRefusal(ps: seq<PersistedBoundary>, i: nat)
    requires i < |ps| && (i > 0 ==> Persistable(ps[..i]))
    ensures i == 0 && ps[0].vEff != 0 ==> Restored(ps) == Err(FirstNotZero)
    ensures (i == 0 ==> ps[0].vEff == 0) && |ps[i].members| != |ps[i].weights| ==> Restored(ps) == Err(LengthMismatch(ps[i].vEff))
    ensures (i == 0 ==> ps[0].vEff == 0) && |ps[i].members| == |ps[i].weights| && !BoundaryOk(ps[i]) ==> Restored(ps) == Err(BadSet(ps[i].vEff))
    ensures i > 0 && BoundaryOk(ps[i]) && ps[i].vEff <= ps[i - 1].vEff ==> Restored(ps) == Err(NotIncreasing(ps[i].vEff))
  {
    hide BoundaryToSet, AsMap, PairsMap, WellFormed;
    var upto := ps[..i + 1];
    assert upto[..i] == ps[..i];
    BoundaryIff(ps[i]);
    if i > 0 { RestoredIff(ps[..i]); }
    if Restored(upto).Err? { ErrorSticks(ps, i + 1, Restored(upto).error); }
  }

  // ---------------------------------------------------------------------------
  // The signing-key history

  /** Non-empty ascending lists that start with the validator's id, and no key in two of them. */
  predicate KeysPersistable(ps: KeyIndex.Persisted<NodeId>) {
    && (forall i :: 0 <= i < |ps| ==> ps[i].1 != [] && ps[i].1[0].key == ps[i].0 && KeyHistories.Ascending(ps[i].1))
    && (forall i, j, a, b :: 0 <= i < j < |ps| && 0 <= a < |ps[i].1| && 0 <= b < |ps[j].1| ==> ps[i].1[a].key != ps[j].1[b].key)
  }

  /** No key of the list is indexed already. */
  predicate FreeFrom(owner: map<NodeId, NodeId>, ps: KeyIndex.Persisted<NodeId>) {
    forall i, a :: 0 <= i < |ps| && 0 <= a < |ps[i].1| ==> ps[i].1[a].key !in owner
  }

  function ListsOf(lists: KeyHistories.Lists<NodeId>, ps: KeyIndex.Persisted<NodeId>): KeyHistories.Lists<NodeId>
    decreases |ps|
  {
    if ps == [] then lists else ListsOf(lists[ps[0].0 := ps[0].1], ps[1..])
  }

  /** The index names no owner that is still to be restored. */
  predicate OwnersBefore(owner: map<NodeId, NodeId>, ps: KeyIndex.Persisted<NodeId>) {
    forall key, i :: key in owner && 0 <= i < |ps| ==> owner[key] != ps[i].0
  }

  lemma ClaimFree(owner: map<NodeId, NodeId>, id: NodeId, es: seq<KeyHistories.Entry<NodeId>>)
    requires forall key :: key in owner ==> owner[key] != id
    ensures KeyIndex.Claim(owner, id, None, es).Ok? <==>
      KeyHistories.Ascending(es) && forall a :: 0 <= a < |es| ==> es[a].key !in owner
    ensures KeyIndex.Claim(owner, id, None, es).Ok? ==>
      var r := KeyIndex.Claim(owner, id, None, es).value;
      && (forall key :: key in r <==> key in owner || KeyHistories.ListHolds(es, key))
      && (forall key :: key in r ==> r[key] == if KeyHistories.ListHolds(es, key) then id else owner[key])
  {
    hide KeyIndex.Claim;
    KeyIndex.ClaimExact(owner, id, None, es);
  }

  lemma TailPersistable(ps: KeyIndex.Persisted<NodeId>)
    requires ps != []
    ensures KeysPersistable(ps) <==>
      && ps[0].1 != [] && ps[0].1[0].key == ps[0].0 && KeyHistories.Ascending(ps[0].1) && KeysPersistable(ps[1..])
      && forall j, a, b :: 0 <= j < |ps| - 1 && 0 <= a < |ps[0].1| && 0 <= b < |ps[1..][j].1| ==> ps[0].1[a].key != ps[1..][j].1[b].key
  {
    hide KeyHistories.Ascending;
    var t := ps[1..];
    assert forall j :: 0 <= j < |t| ==> t[j] == ps[j + 1];
    assert forall j :: 0 < j < |ps| ==> ps[j] == t[j - 1];
  }

  lemma {:induction false} RestoreFromIff(k: KeyHistories.Keys, ps: KeyIndex.Persisted<NodeId>)
    requires KeyIndex.DistinctIds(ps) && OwnersBefore(k.owner, ps)
    ensures KeyIndex.RestoreFrom(k, ps).Ok? <==> KeysPersistable(ps) && FreeFrom(k.owner, ps)
    ensures KeyIndex.RestoreFrom(k, ps).Ok? ==> KeyIndex.RestoreFrom(k, ps).value.lists == ListsOf(k.lists, ps)
    decreases |ps|
  {
    hide KeyIndex.Claim, KeysPersistable, KeyHistories.Ascending;
    if ps == [] {
      NothingPersistable();
    } else {
      TailPersistable(ps);
      var id, es, rest := ps[0].0, ps[0].1, ps[1..];
      ClaimFree(k.owner, id, es);
      if KeyIndex.Claim(k.owner, id, None, es).Ok? {
        var owner := KeyIndex.Claim(k.owner, id, None, es).value;
        forall key, i | key in owner && 0 <= i < |rest| ensures owner[key] != rest[i].0 {
          assert rest[i] == ps[i + 1];
        }
        RestoreFromIff(KeyHistories.Keys(k.lists[id := es], owner), rest);
        FreeTail(k.owner, owner, ps);
      } else {
        if FreeFrom(k.owner, ps) { FreeHead(k.owner, ps); }
      }
    }
  }

  lemma NothingPersistable()
    ensures KeysPersistable([])
  {
  }

  lemma FreeHead(owner: map<NodeId, NodeId>, ps: KeyIndex.Persisted<NodeId>)
    requires ps != [] && FreeFrom(owner, ps)
    ensures forall a :: 0 <= a < |ps[0].1| ==> ps[0].1[a].key !in owner
  {
  }

  lemma FreeTail(owner: map<NodeId, NodeId>, more: map<NodeId, NodeId>, ps: KeyIndex.Persisted<NodeId>)
    requires ps != [] && forall key :: key in more <==> key in owner || KeyHistories.ListHolds(ps[0].1, key)
    requires forall a :: 0 <= a < |ps[0].1| ==> ps[0].1[a].key !in owner
    ensures FreeFrom(more, ps[1..]) <==>
      && FreeFrom(owner, ps)
      && forall j, a, b :: 0 <= j < |ps| - 1 && 0 <= a < |ps[0].1| && 0 <= b < |ps[1..][j].1| ==> ps[0].1[a].key != ps[1..][j].1[b].key
  {
    var t, es := ps[1..], ps[0].1;
    if FreeFrom(more, t) {
      forall i, a | 0 <= i < |ps| && 0 <= a < |ps[i].1| ensures ps[i].1[a].key !in owner {
        if i > 0 { assert t[i - 1].1[a].key !in more; }
      }
      forall j, a, b | 0 <= j < |t| && 0 <= a < |es| && 0 <= b < |t[j].1| ensures es[a].key != t[j].1[b].key {
        assert KeyHistories.ListHolds(es, es[a].key);
      }
    }
    if FreeFrom(owner, ps) && (forall j, a, b :: 0 <= j < |t| && 0 <= a < |es| && 0 <= b < |t[j].1| ==> es[a].key != t[j].1[b].key) {
      forall i, a | 0 <= i < |t| && 0 <= a < |t[i].1| ensures t[i].1[a].key !in more {
        assert ps[i + 1].1[a].key !in owner;
      }
    }
  }

  /**
   * A persisted key history with distinct validators is accepted if and only if each list is non-empty,
   * ascending and starts with its validator's id, and no key is in two lists; its lists are then kept.
   */
  lemma KeysRestoreIff(ps: KeyIndex.Persisted<NodeId>)
    requires KeyIndex.DistinctIds(ps)
    ensures KeyIndex.Restore(ps).Ok? <==> KeysPersistable(ps)
    ensures KeyIndex.Restore(ps).Ok? ==>
      forall i :: 0 <= i < |ps| ==> ps[i].0 in KeyIndex.Restore(ps).value.lists && KeyIndex.Restore(ps).value.lists[ps[i].0] == ps[i].1
  {
    hide KeyIndex.RestoreFrom, KeysPersistable;
    RestoreFromIff(KeyHistories.Keys(map[], map[]), ps);
    ListsOfHolds(map[], ps);
  }

  lemma {:induction false} ListsOfHolds(lists: KeyHistories.Lists<NodeId>, ps: KeyIndex.Persisted<NodeId>)
    requires KeyIndex.DistinctIds(ps)
    ensures forall i :: 0 <= i < |ps| ==> ps[i].0 in ListsOf(lists, ps) && ListsOf(lists, ps)[ps[i].0] == ps[i].1
    ensures forall id :: id in lists && (forall i :: 0 <= i < |ps| ==> ps[i].0 != id) ==> id in ListsOf(lists, ps) && ListsOf(lists, ps)[id] == lists[id]
    decreases |ps|
  {
    if ps == [] {
    } else {
      var t := ps[1..];
      ListsOfHolds(lists[ps[0].0 := ps[0].1], t);
      assert forall i :: 0 <= i < |t| ==> t[i] == ps[i + 1];
      assert forall i :: 0 < i < |ps| ==> ps[i] == t[i - 1];
    }
  }

  /** The first entry that is not acceptable decides the refusal of a validator. */
  lemma {:induction false} ClaimRefusal(owner: map<NodeId, NodeId>, id: NodeId, prev: Option<nat>, es: seq<KeyHistories.Entry<NodeId>>, j: nat)
    requires j < |es| && KeyIndex.Claim(owner, id, prev, es[..j]).Ok?
    ensures (if j > 0 then es[j].vEff <= es[j - 1].vEff else prev.Some? && es[0].vEff <= prev.value) ==>
      KeyIndex.Claim(owner, id, prev, es) == Err(KeyIndex.EntriesNotIncreasing(id))
    ensures (if j > 0 then es[j].vEff > es[j - 1].vEff else prev.Some? ==> es[0].vEff > prev.value) ==>
      es[j].key in owner && owner[es[j].key] != id ==> KeyIndex.Claim(owner, id, prev, es) == Err(KeyIndex.ClaimedTwice(es[j].key))
    decreases j
  {
    if j > 0 {
      var t := es[1..];
      assert es[..j][1..] == t[..j - 1] && es[..j][0] == es[0];
      ClaimRefusal(owner[es[0].key := id], id, Some(es[0].vEff), t, j - 1);
      assert t[j - 1] == es[j] && (j > 1 ==> t[j - 2] == es[j - 1]);
    }
  }

  lemma {:induction false} RestoreSplit(k: KeyHistories.Keys, ps: KeyIndex.Persisted<NodeId>, i: nat)
    requires i <= |ps| && KeyIndex.RestoreFrom(k, ps[..i]).Ok?
    ensures KeyIndex.RestoreFrom(k, ps) == KeyIndex.RestoreFrom(KeyIndex.RestoreFrom(k, ps[..i]).value, ps[i..])
    decreases i
  {
    hide KeyIndex.Claim;
    if i == 0 {
      assert ps[0..] == ps && ps[..0] == [];
    } else {
      var id, es := ps[0].0, ps[0].1;
      assert ps[..i][0] == ps[0] && ps[..i][1..] == ps[1..][..i - 1] && ps[1..][i - 1..] == ps[i..];
      RestoreSplit(KeyHistories.Keys(k.lists[id := es], KeyIndex.Claim(k.owner, id, None, es).value), ps[1..], i - 1);
    }
  }

  /** The key is in an earlier list. */
  predicate HeldBefore(ps: KeyIndex.Persisted<NodeId>, i: nat, key: NodeId)
    requires i <= |ps|
  {
    exists j :: 0 <= j < i && KeyHistories.ListHolds(ps[j].1, key)
  }

  lemma {:induction false} OwnerAfter(k: KeyHistories.Keys, ps: KeyIndex.Persisted<NodeId>, id: NodeId, key: NodeId)
    requires KeyIndex.DistinctIds(ps) && OwnersBefore(k.owner, ps) && KeyIndex.RestoreFrom(k, ps).Ok?
    requires (forall i :: 0 <= i < |ps| ==> ps[i].0 != id) && forall x :: x in k.owner ==> k.owner[x] != id
    ensures var owner := KeyIndex.RestoreFrom(k, ps).value.owner;
      && (key in owner <==> key in k.owner || HeldBefore(ps, |ps|, key))
      && (key in owner ==> owner[key] != id)
    decreases |ps|
  {
    hide KeyIndex.Claim, KeyHistories.ListHolds;
    if ps == [] {
    } else {
      var first, es, rest := ps[0].0, ps[0].1, ps[1..];
      ClaimFree(k.owner, first, es);
      var owner := KeyIndex.Claim(k.owner, first, None, es).value;
      forall x, i | x in owner && 0 <= i < |rest| ensures owner[x] != rest[i].0 { assert rest[i] == ps[i + 1]; }
      OwnerAfter(KeyHistories.Keys(k.lists[first := es], owner), rest, id, key);
      if HeldBefore(rest, |rest|, key) {
        var j :| 0 <= j < |rest| && KeyHistories.ListHolds(rest[j].1, key);
        assert KeyHistories.ListHolds(ps[j + 1].1, key);
      }
      if HeldBefore(ps, |ps|, key) {
        var j :| 0 <= j < |ps| && KeyHistories.ListHolds(ps[j].1, key);
        if j > 0 { assert rest[j - 1] == ps[j]; }
      }
      if KeyHistories.ListHolds(es, key) { assert HeldBefore(ps, |ps|, key); }
    }
  }

  /** No entry up to `j` is out of order or in an earlier list. */
  predicate EntriesOkTo(ps: KeyIndex.Persisted<NodeId>, i: nat, j: nat)
    requires i < |ps| && j <= |ps[i].1|
  {
    KeyHistories.Ascending(ps[i].1[..j]) && forall a :: 0 <= a < j ==> !HeldBefore(ps, i, ps[i].1[a].key)
  }

  /**
   * The first validator that is not acceptable decides the refusal of a persisted key history, and with
   * it the first of its entries that is out of order or in an earlier list.
   */
  lemma FirstKeyRefusal(ps: KeyIndex.Persisted<NodeId>, i: nat, j: nat)
    requires KeyIndex.DistinctIds(ps) && i < |ps| && KeysPersistable(ps[..i])
    ensures ps[i].1 == [] ==> KeyIndex.Restore(ps) == Err(KeyIndex.NoEntries(ps[i].0))
    ensures ps[i].1 != [] && ps[i].1[0].key != ps[i].0 ==> KeyIndex.Restore(ps) == Err(KeyIndex.FirstKeyDiffers(ps[i].0))
    ensures ps[i].1 != [] && ps[i].1[0].key == ps[i].0 && j < |ps[i].1| && EntriesOkTo(ps, i, j) ==>
      && (j > 0 && ps[i].1[j].vEff <= ps[i].1[j - 1].vEff ==> KeyIndex.Restore(ps) == Err(KeyIndex.EntriesNotIncreasing(ps[i].0)))
      && ((j > 0 ==> ps[i].1[j].vEff > ps[i].1[j - 1].vEff) && HeldBefore(ps, i, ps[i].1[j].key) ==>
            KeyIndex.Restore(ps) == Err(KeyIndex.ClaimedTwice(ps[i].1[j].key)))
  {
    hide KeysPersistable, KeyIndex.Claim, KeyHistories.ListHolds, KeyHistories.Ascending;
    var empty := KeyHistories.Keys(map[], map[]);
    var id, es := ps[i].0, ps[i].1;
    KeysRestoreIff(ps[..i]);
    RestoreSplit(empty, ps, i);
    var k := KeyIndex.Restore(ps[..i]).value;
    assert ps[i..][0] == ps[i];
    forall key ensures (key in k.owner <==> HeldBefore(ps, i, key)) && (key in k.owner ==> k.owner[key] != id) {
      OwnerAfter(empty, ps[..i], id, key);
      HeldPrefix(ps, i, key);
    }
    if es != [] && es[0].key == id && j < |es| && EntriesOkTo(ps, i, j) {
      ClaimFree(k.owner, id, es[..j]);
      ClaimRefusal(k.owner, id, None, es, j);
    }
  }

  lemma HeldPrefix(ps: KeyIndex.Persisted<NodeId>, i: nat, key: NodeId)
    requires i <= |ps|
    ensures HeldBefore(ps[..i], i, key) <==> HeldBefore(ps, i, key)
  {
    hide KeyHistories.ListHolds;
    if HeldBefore(ps, i, key) {
      var j :| 0 <= j < i && KeyHistories.ListHolds(ps[j].1, key);
      assert KeyHistories.ListHolds(ps[..i][j].1, key);
    }
    if HeldBefore(ps[..i], i, key) {
      var j :| 0 <= j < i && KeyHistories.ListHolds(ps[..i][j].1, key);
      assert KeyHistories.ListHolds(ps[j].1, key);
    }
  }
}
