/** What an accepted change of keys means for the key active in every view. */
module KeyEffects {
  import opened Common
  import opened ValidatorSets
  import opened SetHistory
  import opened KeyHistories
  import opened Reconfig
  import opened Histories
  import opened Lockstep

  /** The lists in two histories give one validator a new key from a view on, and nothing else changes. */
  ghost predicate Switches<K>(before: Lists<K>, after: Lists<K>, id: NodeId, vEff: nat, key: K) {
    forall x: NodeId, u: nat :: KeyAt(after, x, u) ==
      if x == id && u >= vEff then Some(key) else KeyAt(before, x, u)
  }

  lemma {:induction false} AppendSwitches<K>(h: Lists<K>, id: NodeId, vEff: nat, key: K)
    requires Append(h, id, vEff, key).Ok?
    ensures Switches(h, Append(h, id, vEff, key).value, id, vEff, key)
  {
  }

  /** In lockstep, an accepted rotation switches the signing key and the BLS key in the same view. */
  lemma {:induction false} RotationSwitchesBoth(h: Hist, r: Rotation, view: nat)
    requires HistOk(h) && InLockstep(h) && Rotate(h.keys, r, view).Ok? && r.newBls.Some?
    ensures var id, h' := h.keys.owner[r.validator], RotateBoth(h, r, view);
      && h'.bls.Some? && h'.sets == h.sets && h'.ops == h.ops
      && Switches(h.keys.lists, h'.keys.lists, id, r.vEff, r.newKey)
      && Switches(h.bls.value, h'.bls.value, id, r.vEff, r.newBls.value)
  {
    hide Switches, ActiveKey, InStep;
    RotateInStep(h, r, view);
    var id := h.keys.owner[r.validator];
    assert h.keys.lists[id] != [] && Append(h.keys.lists, id, r.vEff, r.newKey).Ok?;
    AppendSwitches(h.keys.lists, id, r.vEff, r.newKey);
    AppendSwitches(h.bls.value, id, r.vEff, r.newBls.value);
  }

  /** An accepted rotation of an operator key switches that key and touches no other history. */
  lemma {:induction false} OperatorKeySwitches(o: Oracle, view: nat, h: Hist, env: OperatorKeyRotation)
    requires HistOk(h) && OperatorKeyStep(o, view, h, env) != h
    ensures var h' := OperatorKeyStep(o, view, h, env);
      && h.ops.Some? && h' == h.(ops := h'.ops) && h'.ops.Some?
      && Switches(h.ops.value, h'.ops.value, env.validator, env.vEff, env.newKey)
  {
  }

  /**
   * Cancelling a rotation before it takes effect undoes it: the lists are as before, and the whole
   * history is if and only if the rotation was to a key nobody had held.
   */
  lemma {:induction false} CancelUndoesRotation(k: Keys, r: Rotation, view: nat, key: NodeId, later: nat)
    requires KeysOk(k) && Rotate(k, r, view).Ok? && later < r.vEff
    requires key in k.owner && k.owner[key] == k.owner[r.validator]
    ensures KeysOk(Rotate(k, r, view).value)
    ensures var undone := Cancel(Rotate(k, r, view).value, key, r.vEff, later);
      && undone.Ok? && undone.value.lists == k.lists && undone.value.owner == k.owner - {r.newKey}
      && (undone.value == k <==> r.newKey !in k.owner)
  {
    hide KeysOk, Rotate, Cancel;
    RotateKeepsOk(k, r, view);
    RotatedParts(k, r, view);
    CancelledParts(k, k.owner[r.validator], Entry(r.vEff, r.newKey), key, later);
    assert r.newKey !in k.owner ==> k.owner - {r.newKey} == k.owner;
    assert r.newKey !in k.owner - {r.newKey};
  }

  lemma RotatedParts(k: Keys, r: Rotation, view: nat)
    requires KeysOk(k) && Rotate(k, r, view).Ok?
    ensures r.validator in k.owner && k.owner[r.validator] in k.lists
    ensures var id := k.owner[r.validator];
      && Rotate(k, r, view).value == Keys(k.lists[id := k.lists[id] + [Entry(r.vEff, r.newKey)]], k.owner[r.newKey := id])
      && (r.newKey in k.owner ==> k.owner[r.newKey] == id)
  {
  }

  /** Cancelling the last entry of a list that it was just appended to. */
  lemma CancelledParts(k: Keys, id: NodeId, e: Entry<NodeId>, key: NodeId, later: nat)
    requires id in k.lists && key in k.owner && k.owner[key] == id && later < e.vEff
    requires e.key in k.owner ==> k.owner[e.key] == id
    requires KeysOk(Keys(k.lists[id := k.lists[id] + [e]], k.owner[e.key := id]))
    ensures Cancel(Keys(k.lists[id := k.lists[id] + [e]], k.owner[e.key := id]), key, e.vEff, later)
         == Ok(Keys(k.lists, k.owner - {e.key}))
  {
    hide KeysOk;
    var k' := Keys(k.lists[id := k.lists[id] + [e]], k.owner[e.key := id]);
    var es := k'.lists[id];
    assert es[..|es| - 1] == k.lists[id] && LastEntry(es) == e;
    assert k'.lists[id := k.lists[id]] == k.lists;
    assert k'.owner - {e.key} == k.owner - {e.key};
  }

  // ---------------------------------------------------------------------------
  // Admission

  predicate DistinctItems<K>(items: seq<(NodeId, Option<K>)>) {
    forall i, j :: 0 <= i < j < |items| ==> items[i].0 != items[j].0
  }

  /** An add that is registered gets exactly the key it declared. */
  lemma {:induction false} RegisteredKey<K>(h: Lists<K>, items: seq<(NodeId, Option<K>)>, members: seq<NodeId>, vEff: nat, i: nat)
    requires DistinctItems(items) && i < |items| && items[i].1.Some? && items[i].0 in members && items[i].0 !in h
    ensures var r := RegisterAdds(h, items, members, vEff);
      items[i].0 in r && r[items[i].0] == [Entry(vEff, items[i].1.value)]
    decreases |items|
  {
    var n := |items| - 1;
    var front := items[..n];
    if i < n {
      RegisteredKey(h, front, members, vEff, i);
    } else {
      RegisterAddsExact(h, front, members, vEff);
      assert !HasItem(front, items[n].0);
    }
  }

  /** The adds of an accepted command are members of the new set and distinct. */
  lemma {:induction false} AddIsMember(o: Oracle, delay: nat, view: nat, h: Hist, cmd: ReconfigCommand, vs: ValidatorSet, i: nat)
    requires HistOk(h) && NextSet(o, delay, view, h, cmd) == Some(vs) && i < |cmd.adds|
    ensures Rising(vs.members) && cmd.adds[i].nodeId in vs.members && cmd.adds[i].pop.Some?
    ensures DistinctItems(BlsItems(cmd.adds)) && DistinctItems(OperatorItems(cmd.adds))
  {
    hide KeysOk, ListsOk, AscendingLists;
    var cur := SetAt(h.sets, view);
    AcceptedMeans(o.checks, cmd, cur, view, delay);
    AcceptedAddsHavePop(o.checks, cmd.adds);
    AddsDistinct(cmd.adds);
    var ps := AddPairs(cmd.adds);
    DistinctLookup(ps, i);
    MapOfMember(vs, cmd.adds[i].nodeId);
    forall a, b | 0 <= a < b < |cmd.adds| ensures cmd.adds[a].nodeId != cmd.adds[b].nodeId {
      assert ps[a].0 != ps[b].0;
    }
  }

  /** A list held from a view on: one key from that view, none before. */
  ghost predicate HeldFrom<K>(h: Lists<K>, id: NodeId, vEff: nat, key: K) {
    forall u: nat :: KeyAt(h, id, u) == if u >= vEff then Some(key) else None
  }

  lemma SingleHeld<K>(h: Lists<K>, id: NodeId, vEff: nat, key: K)
    requires id in h && h[id] == [Entry(vEff, key)]
    ensures HeldFrom(h, id, vEff, key)
  {
  }

  /** A validator that an accepted command adds under an unused id signs with that id from the effective view on. */
  lemma {:induction false} AdmittedSigningKey(o: Oracle, delay: nat, view: nat, h: Hist, cmd: ReconfigCommand, vs: ValidatorSet, i: nat)
    requires HistOk(h) && NextSet(o, delay, view, h, cmd) == Some(vs) && i < |cmd.adds|
    requires cmd.adds[i].nodeId !in h.keys.lists && cmd.adds[i].nodeId !in h.keys.owner
    ensures HeldFrom(ReconfigStep(o, delay, view, h, cmd).keys.lists, cmd.adds[i].nodeId, cmd.vEff, cmd.adds[i].nodeId)
  {
    hide NextSet, HistOk, HeldFrom, RegisterAdds, AddMembers;
    KeysOkOf(h);
    AddIsMember(o, delay, view, h, cmd, vs, i);
    AddMembersExact(h.keys, vs.members, cmd.vEff);
    SingleHeld(AddMembers(h.keys, vs.members, cmd.vEff).lists, cmd.adds[i].nodeId, cmd.vEff, cmd.adds[i].nodeId);
  }

  lemma KeysOkOf(h: Hist)
    requires HistOk(h)
    ensures KeysOk(h.keys)
  {
  }

  /**
   * A validator that an accepted command adds, and that no history knows yet, holds exactly the BLS
   * key of its proof of possession and the operator key it declared, from the effective view on and
   * not before.
   */
  lemma {:induction false} AdmittedDeclaredKeys(o: Oracle, delay: nat, view: nat, h: Hist, cmd: ReconfigCommand, vs: ValidatorSet, i: nat)
    requires HistOk(h) && NextSet(o, delay, view, h, cmd) == Some(vs) && i < |cmd.adds|
    ensures cmd.adds[i].pop.Some?
    ensures var a, h' := cmd.adds[i], ReconfigStep(o, delay, view, h, cmd);
      && (h.bls.Some? && a.nodeId !in h.bls.value ==>
            h'.bls.Some? && HeldFrom(h'.bls.value, a.nodeId, cmd.vEff, a.pop.value.pubkey))
      && (h.ops.Some? && a.operator.Some? && a.nodeId !in h.ops.value ==>
            h'.ops.Some? && HeldFrom(h'.ops.value, a.nodeId, cmd.vEff, a.operator.value))
  {
    hide NextSet, HistOk, HeldFrom, RegisterAdds, AddMembers, DistinctItems;
    AddIsMember(o, delay, view, h, cmd, vs, i);
    var a := cmd.adds[i];
    if h.bls.Some? && a.nodeId !in h.bls.value {
      assert BlsItems(cmd.adds)[i] == BlsItem(a);
      RegisteredKey(h.bls.value, BlsItems(cmd.adds), vs.members, cmd.vEff, i);
      SingleHeld(RegisterAdds(h.bls.value, BlsItems(cmd.adds), vs.members, cmd.vEff), a.nodeId, cmd.vEff, a.pop.value.pubkey);
    }
    if h.ops.Some? && a.operator.Some? && a.nodeId !in h.ops.value {
      assert OperatorItems(cmd.adds)[i] == (a.nodeId, a.operator);
      RegisteredKey(h.ops.value, OperatorItems(cmd.adds), vs.members, cmd.vEff, i);
      SingleHeld(RegisterAdds(h.ops.value, OperatorItems(cmd.adds), vs.members, cmd.vEff), a.nodeId, cmd.vEff, a.operator.value);
    }
  }
}
