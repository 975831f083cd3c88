/** The signing-key and BLS-key histories move together. */
module Lockstep {
  import opened Common
  import opened ValidatorSets
  import opened SetHistory
  import opened KeyHistories
  import opened Reconfig
  import opened Histories

  predicate SameVEffs<A, B>(a: seq<Entry<A>>, b: seq<Entry<B>>) {
    |a| == |b| && forall i :: 0 <= i < |a| ==> a[i].vEff == b[i].vEff
  }

  /** The same validators, and for each the same list of effective views. */
  predicate InStep<A, B>(a: Lists<A>, b: Lists<B>) {
    a.Keys == b.Keys && forall id :: id in a ==> SameVEffs(a[id], b[id])
  }

  predicate InLockstep(h: Hist) {
    h.bls.Some? && InStep(h.keys.lists, h.bls.value)
  }

  /** Every member of every set has a key list. */
  predicate MembersKnown(h: Hist) {
    forall i, id :: 0 <= i < |h.sets| && id in h.sets[i].vset.members ==> id in h.keys.lists
  }

  // ---------------------------------------------------------------------------
  // What the add loops produce

  lemma {:induction false} AddMembersExact(k: Keys, members: seq<NodeId>, vEff: nat)
    requires KeysOk(k) && Rising(members)
    ensures var r := AddMembers(k, members, vEff);
      && (forall id :: id in r.lists <==> id in k.lists || (id in members && id !in k.owner))
      && (forall id :: id in r.lists ==>
            r.lists[id] == if id in k.lists then k.lists[id] else [Entry(vEff, id)])
      && (forall id :: id in r.owner ==> id in k.owner || id in members)
      && (forall id :: id in k.owner ==> id in r.owner)
  {
    hide KeysOk;
    if members == [] {
    } else {
      var front, last := members[..|members| - 1], members[|members| - 1];
      assert members == front + [last];
      AddMembersExact(k, front, vEff);
      assert last !in front;
    }
  }

  predicate HasItem<K>(items: seq<(NodeId, Option<K>)>, id: NodeId) {
    exists i :: 0 <= i < |items| && items[i].0 == id && items[i].1.Some?
  }

  lemma {:induction false} RegisterAddsExact<K>(h: Lists<K>, items: seq<(NodeId, Option<K>)>, members: seq<NodeId>, vEff: nat)
    ensures var r := RegisterAdds(h, items, members, vEff);
      && (forall id :: id in r <==> id in h || (id in members && HasItem(items, id)))
      && (forall id :: id in h ==> id in r && r[id] == h[id])
      && (forall id :: id in r && id !in h ==> |r[id]| == 1 && r[id][0].vEff == vEff)
  {
    if items == [] {
    } else {
      var front, last := items[..|items| - 1], items[|items| - 1];
      RegisterAddsExact(h, front, members, vEff);
      forall id ensures HasItem(items, id) <==> HasItem(front, id) || (last.0 == id && last.1.Some?) {
        if HasItem(front, id) {
          var i :| 0 <= i < |front| && front[i].0 == id && front[i].1.Some?;
          assert items[i] == front[i];
        }
        if last.0 == id && last.1.Some? { assert items[|items| - 1].0 == id; }
      }
    }
  }

  // ---------------------------------------------------------------------------
  // Reconfiguration

  /** No new member's identity is refused because some validator already uses it as a key. */
  predicate NoRefusal(k: Keys, members: seq<NodeId>) {
    forall id :: id in members ==> id in k.lists || id !in k.owner
  }

  /** A member of the new set was in the active set or is one of the adds, which carry BLS keys. */
  lemma NewMembersAreAdds(o: Oracle, delay: nat, view: nat, h: Hist, cmd: ReconfigCommand, vs: ValidatorSet, id: NodeId)
    requires HistOk(h) && NextSet(o, delay, view, h, cmd) == Some(vs)
    requires id in vs.members
    ensures Rising(vs.members)
    ensures id in SetAt(h.sets, view).members || HasItem(BlsItems(cmd.adds), id)
  {
    hide KeysOk, AscendingLists, ListsOk, AddMembers, RegisterAdds;
    var cur := SetAt(h.sets, view);
    AcceptedMeans(o.checks, cmd, cur, view, delay);
    MapOfMember(vs, id);
    MapOfMember(cur, id);
    if id !in cur.members {
      InMap(AddPairs(cmd.adds), id);
      var i :| 0 <= i < |cmd.adds| && AddPairs(cmd.adds)[i].0 == id;
      AcceptedAddsHavePop(o.checks, cmd.adds);
      assert BlsItems(cmd.adds)[i] == BlsItem(cmd.adds[i]);
    }
  }

  /**
   * From a state in lockstep, an accepted reconfiguration stays in lockstep if and only if no new
   * member is refused by the key history.
   */
  lemma ReconfigLockstepIff(o: Oracle, delay: nat, view: nat, h: Hist, cmd: ReconfigCommand, vs: ValidatorSet)
    requires HistOk(h) && InLockstep(h) && MembersKnown(h)
    requires NextSet(o, delay, view, h, cmd) == Some(vs)
    ensures InLockstep(ReconfigStep(o, delay, view, h, cmd)) <==> NoRefusal(h.keys, vs.members)
    ensures NoRefusal(h.keys, vs.members) ==> MembersKnown(ReconfigStep(o, delay, view, h, cmd))
  {
    hide KeysOk, AscendingLists, ListsOk, AddMembers, RegisterAdds, NoRefusal;
    AcceptedMeans(o.checks, cmd, SetAt(h.sets, view), view, delay);
    var k, b, items := h.keys, h.bls.value, BlsItems(cmd.adds);
    AddMembersExact(k, vs.members, cmd.vEff);
    RegisterAddsExact(b, items, vs.members, cmd.vEff);
    var k' := AddMembers(k, vs.members, cmd.vEff);
    var b' := RegisterAdds(b, items, vs.members, cmd.vEff);
    forall id | id in vs.members && id !in k.lists ensures HasItem(items, id) {
      NewMembersAreAdds(o, delay, view, h, cmd, vs, id);
      assert id !in h.sets[IndexAt(h.sets, view)].vset.members;
    }
    AddedInStep(k, b, k', b', vs.members, items, cmd.vEff);
  }

  /** Two add loops over the same members leave the lists in step exactly when none is refused. */
  lemma AddedInStep(k: Keys, b: Lists<nat>, k': Keys, b': Lists<nat>, members: seq<NodeId>, items: seq<(NodeId, Option<nat>)>, vEff: nat)
    requires InStep(k.lists, b)
    requires forall id :: id in members && id !in k.lists ==> HasItem(items, id)
    requires forall id :: id in k'.lists <==> id in k.lists || (id in members && id !in k.owner)
    requires forall id :: id in k'.lists ==> k'.lists[id] == if id in k.lists then k.lists[id] else [Entry(vEff, id)]
    requires forall id :: id in b' <==> id in b || (id in members && HasItem(items, id))
    requires forall id :: id in b ==> id in b' && b'[id] == b[id]
    requires forall id :: id in b' && id !in b ==> |b'[id]| == 1 && b'[id][0].vEff == vEff
    ensures InStep(k'.lists, b') <==> NoRefusal(k, members)
  {
  }

  // ---------------------------------------------------------------------------
  // Rotations and cancellations

  /** In lockstep, the BLS half of an accepted rotation always succeeds. */
  lemma RotateInStep(h: Hist, r: Rotation, view: nat)
    requires HistOk(h) && InLockstep(h) && Rotate(h.keys, r, view).Ok? && r.newBls.Some?
    ensures Append(h.bls.value, h.keys.owner[r.validator], r.vEff, r.newBls.value).Ok?
    ensures InLockstep(RotateBoth(h, r, view))
    ensures h.keys.lists.Keys == RotateBoth(h, r, view).keys.lists.Keys
  {
    hide ValidHistory, AscendingLists, Ascending, OwnersOk;
    OwnerListed(h.keys, r.validator);
    var id := h.keys.owner[r.validator];
    assert SameVEffs(h.keys.lists[id], h.bls.value[id]);
    var h' := RotateBoth(h, r, view);
    assert h'.keys.lists == h.keys.lists[id := h.keys.lists[id] + [Entry(r.vEff, r.newKey)]];
    assert h'.bls.value == h.bls.value[id := h.bls.value[id] + [Entry(r.vEff, r.newBls.value)]];
    forall x | x in h'.keys.lists ensures SameVEffs(h'.keys.lists[x], h'.bls.value[x]) {
      assert SameVEffs(h.keys.lists[x], h.bls.value[x]);
    }
  }

  lemma OwnerListed(k: Keys, key: NodeId)
    requires KeysOk(k) && key in k.owner
    ensures k.owner[key] in k.lists && k.lists[k.owner[key]] != []
  {
  }

  /** In lockstep, the BLS half of an accepted cancellation always succeeds. */
  lemma CancelInStep(o: Oracle, view: nat, h: Hist, env: RotationCancel)
    requires HistOk(h) && InLockstep(h) && CancelStep(o, view, h, env) != h
    ensures DropPending(h.bls.value, h.keys.owner[env.validator], env.cancelling, view).Ok?
    ensures InLockstep(CancelStep(o, view, h, env))
    ensures h.keys.lists.Keys == CancelStep(o, view, h, env).keys.lists.Keys
  {
    var id := h.keys.owner[env.validator];
    assert SameVEffs(h.keys.lists[id], h.bls.value[id]);
    var h' := CancelStep(o, view, h, env);
    var es, bs := h.keys.lists[id], h.bls.value[id];
    assert h'.keys.lists == h.keys.lists[id := es[..|es| - 1]];
    assert h'.bls.value == h.bls.value[id := bs[..|bs| - 1]];
    forall x | x in h'.keys.lists ensures SameVEffs(h'.keys.lists[x], h'.bls.value[x]) {
      assert SameVEffs(h.keys.lists[x], h.bls.value[x]);
    }
  }

  // ---------------------------------------------------------------------------
  // Runs

  /** No add is refused when this command is applied. */
  predicate StepUnrefused(o: Oracle, delay: nat, view: nat, pass: Pass, h: Hist, c: Command)
    requires HistOk(h)
  {
    pass == ReconfigPass && c.Reconfigure? && NextSet(o, delay, view, h, c.cmd).Some? ==>
      NoRefusal(h.keys, NextSet(o, delay, view, h, c.cmd).value.members)
  }

  predicate PassUnrefused(o: Oracle, delay: nat, view: nat, pass: Pass, h: Hist, cs: seq<Command>)
    requires HistOk(h)
  {
    cs != [] ==>
      && PassUnrefused(o, delay, view, pass, h, cs[..|cs| - 1])
      && StepUnrefused(o, delay, view, pass, RunPass(o, delay, view, pass, h, cs[..|cs| - 1]), cs[|cs| - 1])
  }

  predicate ChainUnrefused(o: Oracle, delay: nat, h: Hist, bs: seq<CommittedBlock>)
    requires HistOk(h)
  {
    bs != [] ==>
      var b := bs[|bs| - 1];
      && ChainUnrefused(o, delay, h, bs[..|bs| - 1])
      && PassUnrefused(o, delay, b.view, ReconfigPass, ApplyChain(o, delay, h, bs[..|bs| - 1]), b.commands)
  }

  predicate Synced(h: Hist) { InLockstep(h) && MembersKnown(h) }

  lemma MembersStillKnown(h: Hist, h': Hist)
    requires MembersKnown(h) && h'.sets == h.sets && h.keys.lists.Keys <= h'.keys.lists.Keys
    ensures MembersKnown(h')
  {
  }

  lemma RotateSynced(o: Oracle, h: Hist, r: Rotation, view: nat)
    requires HistOk(h) && Synced(h) && SchemeConsistent(o, r)
    ensures Synced(RotateBoth(h, r, view))
  {
    if Rotate(h.keys, r, view).Ok? {
      RotateInStep(h, r, view);
      MembersStillKnown(h, RotateBoth(h, r, view));
    }
  }

  lemma {:induction false} StepSynced(o: Oracle, delay: nat, view: nat, pass: Pass, h: Hist, c: Command)
    requires HistOk(h) && Synced(h) && StepUnrefused(o, delay, view, pass, h, c)
    ensures Synced(Step(o, delay, view, pass, h, c))
  {
    hide InLockstep, MembersKnown, HistOk, NextSet;
    match c
    case Reconfigure(cmd) =>
      if pass == ReconfigPass {
        var n := NextSet(o, delay, view, h, cmd);
        if n.Some? { ReconfigLockstepIff(o, delay, view, h, cmd, n.value); }
      }
    case RotateKey(env) => if SchemeConsistent(o, env.payload) { RotateSynced(o, h, env.payload, view); }
    case CancelKey(env) => CancelSynced(o, view, h, env);
    case OperatorRotateKey(env) => if SchemeConsistent(o, env.payload) { RotateSynced(o, h, env.payload, view); }
    case RotateOperator(env) => OperatorKeySynced(o, view, h, env);
    case Other =>
  }

  lemma CancelSynced(o: Oracle, view: nat, h: Hist, env: RotationCancel)
    requires HistOk(h) && Synced(h)
    ensures Synced(CancelStep(o, view, h, env))
  {
    if CancelStep(o, view, h, env) != h {
      CancelInStep(o, view, h, env);
      MembersStillKnown(h, CancelStep(o, view, h, env));
    }
  }

  lemma OperatorKeySynced(o: Oracle, view: nat, h: Hist, env: OperatorKeyRotation)
    requires HistOk(h) && Synced(h)
    ensures Synced(OperatorKeyStep(o, view, h, env))
  {
  }

  lemma {:induction false} PassSynced(o: Oracle, delay: nat, view: nat, pass: Pass, h: Hist, cs: seq<Command>)
    requires HistOk(h) && Synced(h) && PassUnrefused(o, delay, view, pass, h, cs)
    ensures Synced(RunPass(o, delay, view, pass, h, cs))
  {
    hide Synced, Step, HistOk, StepUnrefused;
    if cs == [] {
    } else {
      PassSynced(o, delay, view, pass, h, cs[..|cs| - 1]);
      StepSynced(o, delay, view, pass, RunPass(o, delay, view, pass, h, cs[..|cs| - 1]), cs[|cs| - 1]);
    }
  }

  lemma {:induction false} OtherPassUnrefused(o: Oracle, delay: nat, view: nat, pass: Pass, h: Hist, cs: seq<Command>)
    requires HistOk(h) && pass != ReconfigPass
    ensures PassUnrefused(o, delay, view, pass, h, cs)
  {
    hide HistOk, Step;
    if cs == [] {
    } else {
      OtherPassUnrefused(o, delay, view, pass, h, cs[..|cs| - 1]);
    }
  }

  lemma {:induction false} BlockSynced(o: Oracle, delay: nat, h: Hist, b: CommittedBlock)
    requires HistOk(h) && Synced(h) && PassUnrefused(o, delay, b.view, ReconfigPass, h, b.commands)
    ensures Synced(ApplyBlock(o, delay, h, b))
  {
    hide HistOk, Synced, RunPass, PassUnrefused;
    var h1 := RunPass(o, delay, b.view, ReconfigPass, h, b.commands);
    var h2 := RunPass(o, delay, b.view, RotationPass, h1, b.commands);
    var h3 := RunPass(o, delay, b.view, CancelPass, h2, b.commands);
    var h4 := RunPass(o, delay, b.view, OperatorPass, h3, b.commands);
    OtherPassUnrefused(o, delay, b.view, RotationPass, h1, b.commands);
    OtherPassUnrefused(o, delay, b.view, CancelPass, h2, b.commands);
    OtherPassUnrefused(o, delay, b.view, OperatorPass, h3, b.commands);
    OtherPassUnrefused(o, delay, b.view, OperatorKeyPass, h4, b.commands);
    PassSynced(o, delay, b.view, ReconfigPass, h, b.commands);
    PassSynced(o, delay, b.view, RotationPass, h1, b.commands);
    PassSynced(o, delay, b.view, CancelPass, h2, b.commands);
    PassSynced(o, delay, b.view, OperatorPass, h3, b.commands);
    PassSynced(o, delay, b.view, OperatorKeyPass, h4, b.commands);
  }

  /**
   * From a genesis that gives every validator a BLS key, every chain on which no add is refused
   * leaves the two histories with the same validators and the same effective views.
   */
  lemma {:induction false} ChainInLockstep(o: Oracle, delay: nat, h: Hist, bs: seq<CommittedBlock>)
    requires HistOk(h) && Synced(h) && ChainUnrefused(o, delay, h, bs)
    ensures Synced(ApplyChain(o, delay, h, bs))
  {
    if bs == [] {
    } else {
      ChainInLockstep(o, delay, h, bs[..|bs| - 1]);
      BlockSynced(o, delay, ApplyChain(o, delay, h, bs[..|bs| - 1]), bs[|bs| - 1]);
    }
  }

  /** In lockstep no BLS list is ever empty, so the panic on an empty list is unreachable. */
  lemma LockstepListsNonEmpty(h: Hist)
    requires HistOk(h) && InLockstep(h)
    ensures ListsOk(h.bls.value)
  {
  }
}
