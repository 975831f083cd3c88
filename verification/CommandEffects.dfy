/**
 * Exactly when each of the four kinds of rotation command changes the histories, who must have signed
 * it, and what it then leaves (`history_commitment.rs`).
 */
module CommandEffects {
  import opened Common
  import opened ValidatorSets
  import opened SetHistory
  import opened KeyHistories
  import opened Reconfig
  import opened Histories

  /** The list has an entry in force in the view, and it holds the key. */
  predicate Holds<K(==)>(es: seq<Entry<K>>, view: nat, key: K) {
    exists i :: 0 <= i < |es| && es[i].key == key && es[i].vEff <= view && forall j :: i < j < |es| ==> es[j].vEff > view
  }

  lemma KeyAtHolds<K>(h: Lists<K>, id: NodeId, view: nat)
    requires AscendingLists(h)
    ensures forall key :: KeyAt(h, id, view) == Some(key) <==> id in h && Holds(h[id], view, key)
  {
    if id in h {
      var es := h[id];
      ActiveIsLast(es, view);
      var n := ActiveCount(es, view);
      forall key ensures KeyAt(h, id, view) == Some(key) <==> Holds(es, view, key) {
        if Holds(es, view, key) {
          var i :| 0 <= i < |es| && es[i].key == key && es[i].vEff <= view && forall j :: i < j < |es| ==> es[j].vEff > view;
          assert i == n - 1;
        }
        if n > 0 && es[n - 1].key == key { assert es[n - 1].vEff <= view; }
      }
    }
  }

  /** The rotation is in order for validator `id`: far enough ahead, to a key free for it, after its last entry. */
  predicate InOrder(h: Hist, id: NodeId, r: Rotation, view: nat) {
    && r.validator in h.keys.owner && h.keys.owner[r.validator] == id && id in h.keys.lists && h.keys.lists[id] != []
    && r.vEff >= Min(view + 2, U64_MAX) && r.newKey != r.validator
    && (r.newKey in h.keys.owner ==> h.keys.owner[r.newKey] == id)
    && r.vEff > h.keys.lists[id][|h.keys.lists[id]| - 1].vEff
  }

  /** The new BLS key is there with a valid proof of possession. */
  ghost predicate BlsProved(o: Oracle, r: Rotation) {
    exists key, pop :: r.newBls == Some(key) && r.newPop == Some(pop) && o.checks.pop(pop, key)
  }

  /** One entry more in a validator's list, and the key indexed under it. */
  ghost predicate Rotated(h: Hist, id: NodeId, r: Rotation, h': Hist) {
    && h'.sets == h.sets && h'.ops == h.ops && id in h.keys.lists
    && h'.keys.lists == h.keys.lists[id := h.keys.lists[id] + [Entry(r.vEff, r.newKey)]]
    && h'.keys.owner == h.keys.owner[r.newKey := id]
    && BlsRotated(h.bls, id, r, h'.bls)
  }

  /** The BLS list gains the new key where it has an entry and its last one is earlier. */
  ghost predicate BlsRotated(b: Option<Lists<nat>>, id: NodeId, r: Rotation, b': Option<Lists<nat>>) {
    if b.Some? && r.newBls.Some? && id in b.value && b.value[id] != [] && b.value[id][|b.value[id]| - 1].vEff < r.vEff
    then b' == Some(b.value[id := b.value[id] + [Entry(r.vEff, r.newBls.value)]])
    else b' == b
  }

  lemma SchemeIff(o: Oracle, r: Rotation)
    ensures SchemeConsistent(o, r) <==> BlsProved(o, r)
  {
  }

  lemma RotateBothExact(h: Hist, id: NodeId, r: Rotation, view: nat)
    requires HistOk(h) && r.validator in h.keys.owner && h.keys.owner[r.validator] == id
    ensures InOrder(h, id, r, view) ==> Rotated(h, id, r, RotateBoth(h, r, view))
    ensures !InOrder(h, id, r, view) ==> RotateBoth(h, r, view) == h
  {
    hide ValidHistory, AscendingLists;
  }

  lemma RotatedDiffers(h: Hist, id: NodeId, r: Rotation, h': Hist)
    requires Rotated(h, id, r, h')
    ensures h' != h
  {
    assert |h'.keys.lists[id]| == |h.keys.lists[id]| + 1;
  }

  /**
   * A rotation takes effect if and only if it is signed by the latest key of the validator it names,
   * proves its BLS key and is in order; otherwise it changes nothing.
   */
  lemma RotationIff(o: Oracle, view: nat, h: Hist, env: DualRotation)
    requires HistOk(h)
    ensures var r, h' := env.payload, RotationStep(o, view, h, env);
      h' != h <==>
        exists id :: InOrder(h, id, r, view) && o.rotation(env, h.keys.lists[id][|h.keys.lists[id]| - 1].key) && BlsProved(o, r)
    ensures forall id :: RotationStep(o, view, h, env) != h && InOrder(h, id, env.payload, view) ==>
      Rotated(h, id, env.payload, RotationStep(o, view, h, env))
  {
    hide ValidHistory, AscendingLists, RotateBoth, SchemeConsistent, BlsProved, Rotated;
    var r := env.payload;
    SchemeIff(o, r);
    if r.validator in h.keys.owner {
      var id := h.keys.owner[r.validator];
      RotateBothExact(h, id, r, view);
      if Rotated(h, id, r, RotateBoth(h, r, view)) { RotatedDiffers(h, id, r, RotateBoth(h, r, view)); }
    }
  }

  /**
   * An operator-signed rotation takes effect if and only if it is signed by the operator key in force
   * for the validator it names in the committing view, proves its BLS key and is in order.
   */
  lemma OperatorRotationIff(o: Oracle, view: nat, h: Hist, env: OperatorRotation)
    requires HistOk(h)
    ensures var r, h' := env.payload, OperatorStep(o, view, h, env);
      h' != h <==>
        exists id, key :: InOrder(h, id, r, view) && h.ops.Some? && id in h.ops.value && Holds(h.ops.value[id], view, key)
          && o.operator(env, key) && BlsProved(o, r)
    ensures forall id :: OperatorStep(o, view, h, env) != h && InOrder(h, id, env.payload, view) ==>
      Rotated(h, id, env.payload, OperatorStep(o, view, h, env))
  {
    hide ValidHistory, AscendingLists, RotateBoth, SchemeConsistent, BlsProved, Rotated, Holds, KeyAt;
    var r := env.payload;
    SchemeIff(o, r);
    if r.validator in h.keys.owner {
      var id := h.keys.owner[r.validator];
      RotateBothExact(h, id, r, view);
      if Rotated(h, id, r, RotateBoth(h, r, view)) { RotatedDiffers(h, id, r, RotateBoth(h, r, view)); }
      if h.ops.Some? {
        OkAscends(h);
        KeyAtHolds(h.ops.value, id, view);
      }
    }
  }

  lemma OkAscends(h: Hist)
    requires HistOk(h)
    ensures AscendingLists(h.keys.lists) && (h.ops.Some? ==> AscendingLists(h.ops.value))
    ensures forall id :: id in h.keys.lists ==> h.keys.lists[id] != []
    ensures forall key :: key in h.keys.owner ==> h.keys.owner[key] in h.keys.lists
  {
  }

  /** What the cancellation of a pending entry leaves; the BLS list loses an entry of the same view. */
  ghost predicate Cancelled(h: Hist, id: NodeId, cancelling: nat, h': Hist) {
    && h'.sets == h.sets && h'.ops == h.ops && id in h.keys.lists && h.keys.lists[id] != []
    && var es := h.keys.lists[id];
       && h'.keys.lists == h.keys.lists[id := es[..|es| - 1]]
       && h'.keys.owner == h.keys.owner - {es[|es| - 1].key}
       && (if h.bls.Some? && id in h.bls.value && h.bls.value[id] != []
             && h.bls.value[id][|h.bls.value[id]| - 1].vEff == cancelling
           then h'.bls == Some(h.bls.value[id := h.bls.value[id][..|h.bls.value[id]| - 1]])
           else h'.bls == h.bls)
  }

  /** The last entry of the named validator is pending from the view that is cancelled. */
  predicate PendingAt(h: Hist, id: NodeId, env: RotationCancel, view: nat) {
    && env.validator in h.keys.owner && h.keys.owner[env.validator] == id && id in h.keys.lists && h.keys.lists[id] != []
    && h.keys.lists[id][|h.keys.lists[id]| - 1].vEff == env.cancelling > view
  }

  /**
   * A cancellation takes effect if and only if the rotation it names is pending and it is signed by
   * the key in force in the committing view and by the pending key; it then drops that entry.
   */
  lemma CancellationIff(o: Oracle, view: nat, h: Hist, env: RotationCancel)
    requires HistOk(h)
    ensures CancelStep(o, view, h, env) != h <==>
      exists id, key :: PendingAt(h, id, env, view) && Holds(h.keys.lists[id], view, key)
        && o.cancel(env, key, h.keys.lists[id][|h.keys.lists[id]| - 1].key)
    ensures forall id :: CancelStep(o, view, h, env) != h && PendingAt(h, id, env, view) ==>
      Cancelled(h, id, env.cancelling, CancelStep(o, view, h, env))
  {
    hide ValidHistory, AscendingLists, Holds, KeyAt;
    OkAscends(h);
    if env.validator in h.keys.owner {
      var id := h.keys.owner[env.validator];
      KeyAtHolds(h.keys.lists, id, view);
      if Cancelled(h, id, env.cancelling, CancelStep(o, view, h, env)) {
        assert |CancelStep(o, view, h, env).keys.lists[id]| == |h.keys.lists[id]| - 1;
      }
    }
  }

  /**
   * The rotation of an operator key takes effect if and only if it is signed by the operator key in
   * force in the committing view and is in force after the last one; it then appends that key alone.
   */
  lemma OperatorKeyIff(o: Oracle, view: nat, h: Hist, env: OperatorKeyRotation)
    requires HistOk(h)
    ensures var h' := OperatorKeyStep(o, view, h, env);
      h' != h <==>
        && h.ops.Some? && env.validator in h.ops.value && h.ops.value[env.validator] != []
        && h.ops.value[env.validator][|h.ops.value[env.validator]| - 1].vEff < env.vEff
        && exists key :: Holds(h.ops.value[env.validator], view, key) && o.operatorKey(env, key)
    ensures var h' := OperatorKeyStep(o, view, h, env);
      h' != h ==>
        && h.ops.Some? && env.validator in h.ops.value
        && h' == h.(ops := Some(h.ops.value[env.validator := h.ops.value[env.validator] + [Entry(env.vEff, env.newKey)]]))
  {
    hide ValidHistory, AscendingLists, KeysOk, Holds, KeyAt;
    OkAscends(h);
    if h.ops.Some? {
      KeyAtHolds(h.ops.value, env.validator, view);
      if OperatorKeyStep(o, view, h, env).ops.Some? && env.validator in h.ops.value {
        assert h.ops.value[env.validator] + [Entry(env.vEff, env.newKey)] != h.ops.value[env.validator];
      }
    }
  }
}
