/**
 * The histories as the objects the node mutates, and the two functions that apply a committed block
 * to them through `&mut` references (`history_commitment.rs`).
 */
module HistoryApply {
  import opened Common
  import opened ValidatorSets
  import opened SetHistory
  import KeyHistories
  import opened Reconfig
  import opened Histories
  import opened LiveHistory
  import KeyEffects
  import SettledPast

  lemma GenesisNone()
    ensures KeyHistories.GenesisKeys([]) == KeyHistories.Keys(map[], map[])
  {
  }

  lemma GenesisNext(members: seq<NodeId>, id: NodeId)
    ensures var k := KeyHistories.GenesisKeys(members);
      KeyHistories.GenesisKeys(members + [id]) ==
        KeyHistories.Keys(if id in k.lists then k.lists else k.lists[id := [KeyHistories.Entry(0, id)]],
                          k.owner[id := id])
  {
  }

  /** `ValidatorKeyHistory`. */
  class ValidatorKeyHistory {
    var byStableId: KeyHistories.Lists<NodeId>
    var pubkeyToStableId: map<NodeId, NodeId>

    function Value(): KeyHistories.Keys
      reads this
    {
      KeyHistories.Keys(byStableId, pubkeyToStableId)
    }

    ghost predicate Valid()
      reads this
    {
      KeyHistories.KeysOk(Value())
    }

    constructor FromGenesis(genesis: seq<NodeId>)
      ensures Value() == KeyHistories.GenesisKeys(genesis)
    {
      hide KeyHistories.GenesisKeys;
      new;
      GenesisNone();
      byStableId, pubkeyToStableId := map[], map[];
      for i := 0 to |genesis|
        invariant Value() == KeyHistories.GenesisKeys(genesis[..i])
      {
        var id := genesis[i];
        if id !in byStableId {
          byStableId := byStableId[id := [KeyHistories.Entry(0, id)]];
        }
        pubkeyToStableId := pubkeyToStableId[id := id];
        assert genesis[..i + 1] == genesis[..i] + [id];
        GenesisNext(genesis[..i], id);
      }
      assert genesis[..|genesis|] == genesis;
    }

    /** `add_validator`. */
    method AddValidator(id: NodeId, vEff: nat) returns (ok: bool)
      modifies this
      ensures var r := KeyHistories.AddValidator(old(Value()), id, vEff);
        ok == r.Ok? && Value() == if r.Ok? then r.value else old(Value())
    {
      if id in pubkeyToStableId {
        return false;
      }
      byStableId := byStableId[id := [KeyHistories.Entry(vEff, id)]];
      pubkeyToStableId := pubkeyToStableId[id := id];
      return true;
    }

    /** `apply_rotation`. */
    method ApplyRotation(rotation: KeyHistories.Rotation, commitView: nat) returns (ok: bool)
      requires Valid()
      modifies this
      ensures var r := KeyHistories.Rotate(old(Value()), rotation, commitView);
        ok == r.Ok? && Value() == if r.Ok? then r.value else old(Value())
    {
      if KeyHistories.ValidateRotation(rotation, commitView).Err? || rotation.validator !in pubkeyToStableId {
        return false;
      }
      var id := pubkeyToStableId[rotation.validator];
      if rotation.newKey in pubkeyToStableId && pubkeyToStableId[rotation.newKey] != id {
        return false;
      }
      var entries := byStableId[id];
      if rotation.vEff <= entries[|entries| - 1].vEff {
        return false;
      }
      byStableId := byStableId[id := entries + [KeyHistories.Entry(rotation.vEff, rotation.newKey)]];
      pubkeyToStableId := pubkeyToStableId[rotation.newKey := id];
      return true;
    }

    /** `cancel_pending_rotation`. */
    method CancelPendingRotation(key: NodeId, cancelling: nat, commitView: nat) returns (ok: bool)
      requires Valid()
      modifies this
      ensures var r := KeyHistories.Cancel(old(Value()), key, cancelling, commitView);
        ok == r.Ok? && Value() == if r.Ok? then r.value else old(Value())
    {
      if key !in pubkeyToStableId {
        return false;
      }
      var id := pubkeyToStableId[key];
      var entries := byStableId[id];
      var last := entries[|entries| - 1];
      if last.vEff != cancelling || cancelling <= commitView {
        return false;
      }
      byStableId := byStableId[id := entries[..|entries| - 1]];
      pubkeyToStableId := pubkeyToStableId - {last.key};
      return true;
    }
  }

  /** `BlsKeyHistory` and `OperatorKeyHistory`; the latter never cancels. */
  class VersionedKeys<K> {
    var byStableId: KeyHistories.Lists<K>

    constructor WithGenesis(genesis: KeyHistories.Lists<K>)
      ensures byStableId == genesis
    {
      byStableId := genesis;
    }

    /** `register`. */
    method Register(id: NodeId, vEff: nat, key: K) returns (ok: bool)
      modifies this
      ensures var r := KeyHistories.Register(old(byStableId), id, vEff, key);
        ok == r.Ok? && byStableId == if r.Ok? then r.value else old(byStableId)
      ensures ok ==> KeyEffects.HeldFrom(byStableId, id, vEff, key)
    {
      if id in byStableId {
        return false;
      }
      byStableId := byStableId[id := [KeyHistories.Entry(vEff, key)]];
      KeyEffects.SingleHeld(byStableId, id, vEff, key);
      return true;
    }

    /** `apply_rotation`. */
    method ApplyRotation(id: NodeId, vEff: nat, key: K) returns (ok: bool)
      modifies this
      ensures var r := KeyHistories.Append(old(byStableId), id, vEff, key);
        ok == r.Ok? && byStableId == if r.Ok? then r.value else old(byStableId)
      ensures ok ==> KeyEffects.Switches(old(byStableId), byStableId, id, vEff, key)
    {
      if id !in byStableId || byStableId[id] == [] {
        return false;
      }
      var entries := byStableId[id];
      if vEff <= entries[|entries| - 1].vEff {
        return false;
      }
      KeyEffects.AppendSwitches(byStableId, id, vEff, key);
      byStableId := byStableId[id := entries + [KeyHistories.Entry(vEff, key)]];
      return true;
    }

    /** `cancel_pending_rotation`. */
    method CancelPendingRotation(id: NodeId, cancelling: nat, commitView: nat) returns (ok: bool)
      modifies this
      ensures var r := KeyHistories.DropPending(old(byStableId), id, cancelling, commitView);
        ok == r.Ok? && byStableId == if r.Ok? then r.value else old(byStableId)
      ensures forall x: NodeId, u: nat :: u <= commitView ==> KeyHistories.KeyAt(byStableId, x, u) == KeyHistories.KeyAt(old(byStableId), x, u)
    {
      if id !in byStableId || byStableId[id] == [] {
        return false;
      }
      var entries := byStableId[id];
      if entries[|entries| - 1].vEff != cancelling || cancelling <= commitView {
        return false;
      }
      SettledPast.DropLater(byStableId, id, commitView);
      byStableId := byStableId[id := entries[..|entries| - 1]];
      return true;
    }
  }

  /** The four histories behind the references passed to the apply functions, with no aliasing. */
  datatype Refs = Refs(sets: ValidatorSetHistory, keys: ValidatorKeyHistory,
                       bls: VersionedKeys?<nat>, ops: VersionedKeys?<NodeId>)
  {
    ghost predicate Apart() { bls != null && ops != null ==> bls != ops }

    ghost function Objects(): set<object> {
      {sets, keys} + (if bls != null then {bls} else {}) + (if ops != null then {ops} else {})
    }

    ghost function Value(): Hist
      reads sets, keys, bls, ops
    {
      Hist(sets.boundaries, keys.Value(),
           if bls == null then None else Some(bls.byStableId),
           if ops == null then None else Some(ops.byStableId))
    }
  }

  /** Registration of the adds of an accepted reconfiguration. */
  method RegisterItems<K>(h: VersionedKeys<K>, items: seq<(NodeId, Option<K>)>, members: seq<NodeId>, vEff: nat)
    modifies h
    ensures h.byStableId == RegisterAdds(old(h.byStableId), items, members, vEff)
  {
    for i := 0 to |items|
      invariant h.byStableId == RegisterAdds(old(h.byStableId), items[..i], members, vEff)
    {
      assert items[..i + 1][..i] == items[..i];
      if items[i].1.Some? && items[i].0 in members && items[i].0 !in h.byStableId {
        var _ := h.Register(items[i].0, vEff, items[i].1.value);
      }
    }
    assert items[..|items|] == items;
  }

  /** Key lists for members that have none yet. */
  method AddNewMembers(h: ValidatorKeyHistory, members: seq<NodeId>, vEff: nat)
    requires h.Valid()
    modifies h
    ensures h.Valid() && h.Value() == AddMembers(old(h.Value()), members, vEff)
  {
    for i := 0 to |members|
      invariant h.Valid() && h.Value() == AddMembers(old(h.Value()), members[..i], vEff)
    {
      assert members[..i + 1][..i] == members[..i];
      if members[i] !in h.byStableId {
        AddValidatorKeepsOkIfNew(h.Value(), members[i], vEff);
        var _ := h.AddValidator(members[i], vEff);
      }
    }
    assert members[..|members|] == members;
  }

  /** One reconfiguration command. */
  method ApplyReconfig(o: Oracle, delay: nat, view: nat, r: Refs, cmd: ReconfigCommand)
    requires r.Apart() && HistOk(r.Value())
    modifies r.Objects()
    ensures r.Value() == ReconfigStep(o, delay, view, old(r.Value()), cmd)
  {
    hide Validate, WithWeights, AddMembers, RegisterAdds, KeyHistories.KeysOk, KeyHistories.ListsOk;
    var next := ValidateAgainst(o.checks, cmd, SetAt(r.sets.boundaries, view), view, delay);
    if next.Err? { return; }
    var conflict := r.sets.AnyBoundaryAfter(view);
    if conflict { return; }
    var vset := WithWeights(next.value);
    if vset.Err? { return; }
    var ok := r.sets.InsertBoundary(cmd.vEff, vset.value);
    if !ok { return; }
    var members := vset.value.members;
    AddNewMembers(r.keys, members, cmd.vEff);
    if r.ops != null { RegisterItems(r.ops, OperatorItems(cmd.adds), members, cmd.vEff); }
    if r.bls != null { RegisterItems(r.bls, BlsItems(cmd.adds), members, cmd.vEff); }
  }

  /** A verified rotation, in both key histories; the BLS result is ignored. */
  method ApplyVerifiedRotation(r: Refs, rotation: KeyHistories.Rotation, view: nat)
    requires r.Apart() && HistOk(r.Value()) && rotation.validator in r.keys.pubkeyToStableId
    modifies r.Objects()
    ensures r.Value() == RotateBoth(old(r.Value()), rotation, view)
  {
    var stable := r.keys.pubkeyToStableId[rotation.validator];
    var ok := r.keys.ApplyRotation(rotation, view);
    if ok && r.bls != null && rotation.newBls.Some? {
      var _ := r.bls.ApplyRotation(stable, rotation.vEff, rotation.newBls.value);
    }
  }

  /** One command of the rotation pass. */
  method ApplyRotation(o: Oracle, view: nat, r: Refs, env: DualRotation)
    requires r.Apart() && HistOk(r.Value())
    modifies r.Objects()
    ensures r.Value() == RotationStep(o, view, old(r.Value()), env)
  {
    hide RotateBoth, KeyHistories.KeysOk;
    var current := KeyHistories.CurrentKey(r.keys.Value(), env.payload.validator);
    if current.None? { return; }
    if !o.rotation(env, current.value) || !SchemeConsistent(o, env.payload) { return; }
    ApplyVerifiedRotation(r, env.payload, view);
  }

  /** `apply_rotation_cancel_command`. */
  method ApplyRotationCancel(o: Oracle, view: nat, r: Refs, env: RotationCancel)
    requires r.Apart() && HistOk(r.Value())
    modifies r.Objects()
    ensures r.Value() == CancelStep(o, view, old(r.Value()), env)
  {
    var pending := KeyHistories.PendingNewKey(r.keys.Value(), env.validator, env.cancelling, view);
    if pending.None? { return; }
    var stable := r.keys.pubkeyToStableId[env.validator];
    var current := KeyHistories.KeyAt(r.keys.byStableId, stable, view);
    if current.None? || !o.cancel(env, current.value, pending.value) { return; }
    var ok := r.keys.CancelPendingRotation(env.validator, env.cancelling, view);
    if ok && r.bls != null {
      var _ := r.bls.CancelPendingRotation(stable, env.cancelling, view);
    }
  }

  /** `apply_operator_rotation_command`. */
  method ApplyOperatorRotation(o: Oracle, view: nat, r: Refs, env: OperatorRotation)
    requires r.Apart() && HistOk(r.Value())
    modifies r.Objects()
    ensures r.Value() == OperatorStep(o, view, old(r.Value()), env)
  {
    hide RotateBoth, KeyHistories.KeysOk, KeyHistories.ListsOk;
    if r.ops == null || env.payload.validator !in r.keys.pubkeyToStableId { return; }
    var stable := r.keys.pubkeyToStableId[env.payload.validator];
    var operator := KeyHistories.KeyAt(r.ops.byStableId, stable, view);
    if operator.None? || !o.operator(env, operator.value) || !SchemeConsistent(o, env.payload) { return; }
    ApplyVerifiedRotation(r, env.payload, view);
  }

  /** `apply_operator_key_rotation_command`. */
  method ApplyOperatorKeyRotation(o: Oracle, view: nat, r: Refs, env: OperatorKeyRotation)
    requires r.Apart() && HistOk(r.Value())
    modifies r.Objects()
    ensures r.Value() == OperatorKeyStep(o, view, old(r.Value()), env)
  {
    if r.ops == null { return; }
    var current := KeyHistories.KeyAt(r.ops.byStableId, env.validator, view);
    if current.None? || !o.operatorKey(env, current.value) { return; }
    var _ := r.ops.ApplyRotation(env.validator, env.vEff, env.newKey);
  }

  /** One command in one pass. */
  method ApplyCommand(o: Oracle, delay: nat, view: nat, pass: Pass, r: Refs, c: Command)
    requires r.Apart() && HistOk(r.Value())
    modifies r.Objects()
    ensures HistOk(r.Value()) && r.Value() == Step(o, delay, view, pass, old(r.Value()), c)
  {
    hide HistOk, ReconfigStep, RotationStep, CancelStep, OperatorStep, OperatorKeyStep;
    StepKeepsOk(o, delay, view, pass, r.Value(), c);
    match pass
    case ReconfigPass => if c.Reconfigure? { ApplyReconfig(o, delay, view, r, c.cmd); }
    case RotationPass => if c.RotateKey? { ApplyRotation(o, view, r, c.rotation); }
    case CancelPass => if c.CancelKey? { ApplyRotationCancel(o, view, r, c.cancel); }
    case OperatorPass => if c.OperatorRotateKey? { ApplyOperatorRotation(o, view, r, c.operatorRotation); }
    case OperatorKeyPass => if c.RotateOperator? { ApplyOperatorKeyRotation(o, view, r, c.operatorKey); }
  }

  /** One loop over the commands of the block. */
  method ApplyPass(o: Oracle, delay: nat, b: CommittedBlock, pass: Pass, r: Refs)
    requires r.Apart() && HistOk(r.Value())
    modifies r.Objects()
    ensures HistOk(r.Value()) && r.Value() == RunPass(o, delay, b.view, pass, old(r.Value()), b.commands)
  {
    hide HistOk, Step;
    ghost var h0 := r.Value();
    for i := 0 to |b.commands|
      invariant HistOk(r.Value()) && r.Value() == RunPass(o, delay, b.view, pass, h0, b.commands[..i])
    {
      assert b.commands[..i + 1][..i] == b.commands[..i];
      ApplyCommand(o, delay, b.view, pass, r, b.commands[i]);
    }
    assert b.commands[..|b.commands|] == b.commands;
  }

  /** `apply_reconfig_commands_to_set_history`. */
  method ApplyReconfigCommands(o: Oracle, delay: nat, b: CommittedBlock, r: Refs)
    requires r.Apart() && HistOk(r.Value())
    modifies r.Objects()
    ensures HistOk(r.Value()) && r.Value() == RunPass(o, delay, b.view, ReconfigPass, old(r.Value()), b.commands)
  {
    ApplyPass(o, delay, b, ReconfigPass, r);
  }

  /** `apply_rotation_commands_to_histories`: four passes, in this order. */
  method ApplyRotationCommands(o: Oracle, delay: nat, b: CommittedBlock, r: Refs)
    requires r.Apart() && HistOk(r.Value())
    modifies r.Objects()
    ensures var h1 := old(r.Value());
      var h2 := RunPass(o, delay, b.view, RotationPass, h1, b.commands);
      var h3 := RunPass(o, delay, b.view, CancelPass, h2, b.commands);
      var h4 := RunPass(o, delay, b.view, OperatorPass, h3, b.commands);
      HistOk(r.Value()) && r.Value() == RunPass(o, delay, b.view, OperatorKeyPass, h4, b.commands)
  {
    hide HistOk, RunPass;
    ApplyPass(o, delay, b, RotationPass, r);
    ApplyPass(o, delay, b, CancelPass, r);
    ApplyPass(o, delay, b, OperatorPass, r);
    ApplyPass(o, delay, b, OperatorKeyPass, r);
  }

  /** Both apply functions, in the order the rebuild calls them. */
  method ApplyCommittedBlock(o: Oracle, delay: nat, b: CommittedBlock, r: Refs)
    requires r.Apart() && HistOk(r.Value())
    modifies r.Objects()
    ensures HistOk(r.Value()) && r.Value() == ApplyBlock(o, delay, old(r.Value()), b)
  {
    hide HistOk, RunPass;
    ApplyReconfigCommands(o, delay, b, r);
    ApplyRotationCommands(o, delay, b, r);
  }

  // ---------------------------------------------------------------------------
  // The running node

  /** One reconfiguration command in `apply_committed_reconfigs`: no entry into the signing-key history. */
  method ApplyLiveReconfig(o: Oracle, delay: nat, view: nat, r: Refs, cmd: ReconfigCommand)
    requires r.Apart() && HistOk(r.Value())
    modifies r.Objects() - {r.keys}
    ensures r.Value() == ReconfigStep(o, delay, view, old(r.Value()), cmd).(keys := old(r.Value().keys))
  {
    hide Validate, WithWeights, AddMembers, RegisterAdds, KeyHistories.KeysOk, KeyHistories.ListsOk;
    var next := ValidateAgainst(o.checks, cmd, SetAt(r.sets.boundaries, view), view, delay);
    if next.Err? { return; }
    var conflict := r.sets.AnyBoundaryAfter(view);
    if conflict { return; }
    var vset := WithWeights(next.value);
    if vset.Err? { return; }
    var ok := r.sets.InsertBoundary(cmd.vEff, vset.value);
    if !ok { return; }
    var members := vset.value.members;
    if r.ops != null { RegisterItems(r.ops, OperatorItems(cmd.adds), members, cmd.vEff); }
    if r.bls != null { RegisterItems(r.bls, BlsItems(cmd.adds), members, cmd.vEff); }
  }

  /** `apply_committed_reconfigs`. */
  method ApplyLiveReconfigs(o: Oracle, delay: nat, b: CommittedBlock, r: Refs)
    requires r.Apart() && HistOk(r.Value())
    modifies r.Objects() - {r.keys}
    ensures HistOk(r.Value()) && r.Value() == LivePass(o, delay, b.view, ReconfigPass, old(r.Value()), b.commands)
  {
    hide HistOk, ReconfigStep;
    ghost var h0 := r.Value();
    for i := 0 to |b.commands|
      invariant HistOk(r.Value()) && r.Value() == LivePass(o, delay, b.view, ReconfigPass, h0, b.commands[..i])
    {
      assert b.commands[..i + 1][..i] == b.commands[..i];
      ghost var now := LiveStep(o, delay, b.view, ReconfigPass, r.Value(), b.commands[i]);
      if b.commands[i].Reconfigure? { ApplyLiveReconfig(o, delay, b.view, r, b.commands[i].cmd); }
      assert r.Value() == now;
    }
    assert b.commands[..|b.commands|] == b.commands;
  }

  /** `apply_committed_reconfigs`, then `apply_committed_rotations`. */
  method ApplyLiveBlock(o: Oracle, delay: nat, b: CommittedBlock, r: Refs)
    requires r.Apart() && HistOk(r.Value())
    modifies r.Objects()
    ensures HistOk(r.Value()) && r.Value() == LiveBlock(o, delay, old(r.Value()), b)
  {
    hide HistOk, RunPass, LivePass;
    ApplyLiveReconfigs(o, delay, b, r);
    OtherPassIsLive(o, delay, b.view, RotationPass, r.Value(), b.commands);
    ApplyPass(o, delay, b, RotationPass, r);
    OtherPassIsLive(o, delay, b.view, CancelPass, r.Value(), b.commands);
    ApplyPass(o, delay, b, CancelPass, r);
    OtherPassIsLive(o, delay, b.view, OperatorPass, r.Value(), b.commands);
    ApplyPass(o, delay, b, OperatorPass, r);
    OtherPassIsLive(o, delay, b.view, OperatorKeyPass, r.Value(), b.commands);
    ApplyPass(o, delay, b, OperatorKeyPass, r);
  }
}
