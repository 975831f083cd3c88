/**
 * How a committed block changes the validator-set, signing-key, BLS-key and operator-key histories
 * (`history_commitment.rs`): five passes over its commands, each command applied or ignored.
 * Signature verification is a family of predicates supplied by the caller.
 */
module Histories {
  import opened Common
  import opened ValidatorSets
  import opened SetHistory
  import opened KeyHistories
  import opened Reconfig

  datatype DualRotation = DualRotation(payload: Rotation, sigOld: nat, sigNew: nat)
  datatype OperatorRotation = OperatorRotation(payload: Rotation, sigOperator: nat, sigNew: nat)
  datatype RotationCancel = RotationCancel(validator: NodeId, cancelling: nat, sigOld: nat, sigNew: nat)
  datatype OperatorKeyRotation =
    OperatorKeyRotation(validator: NodeId, newKey: NodeId, vEff: nat, sigOld: nat, sigNew: nat)

  /** A command by its tag; malformed and untagged bytes are `Other`. */
  datatype Command =
    | Reconfigure(cmd: ReconfigCommand)
    | RotateKey(rotation: DualRotation)
    | CancelKey(cancel: RotationCancel)
    | OperatorRotateKey(operatorRotation: OperatorRotation)
    | RotateOperator(operatorKey: OperatorKeyRotation)
    | Other

  /** The signature checks, each against the keys the source passes. */
  datatype Oracle = Oracle(
    checks: Checks,
    rotation: (DualRotation, NodeId) -> bool,
    cancel: (RotationCancel, NodeId, NodeId) -> bool,
    operator: (OperatorRotation, NodeId) -> bool,
    operatorKey: (OperatorKeyRotation, NodeId) -> bool)

  /** Signature checks that accept everything, for concrete chains. */
  const Anyone: Oracle :=
    Oracle(Checks((p, k) => true, (a, s, v) => true), (e, k) => true, (e, a, b) => true, (e, k) => true, (e, k) => true)

  datatype CommittedBlock = CommittedBlock(view: nat, commands: seq<Command>)

  /** The four histories a node carries. */
  datatype Hist = Hist(sets: seq<Boundary>, keys: Keys, bls: Option<Lists<nat>>, ops: Option<Lists<NodeId>>)

  predicate HistOk(h: Hist) {
    && ValidHistory(h.sets) && KeysOk(h.keys)
    && (h.bls.Some? ==> AscendingLists(h.bls.value))
    && (h.ops.Some? ==> ListsOk(h.ops.value))
  }

  // ---------------------------------------------------------------------------
  // Reconfiguration

  /** New members that the key history does not know yet; a refused add is ignored. */
  function AddMember(k: Keys, id: NodeId, vEff: nat): (r: Keys)
    requires KeysOk(k)
    ensures KeysOk(r)
  {
    AddValidatorKeepsOkIfNew(k, id, vEff);
    if id in k.lists || AddValidator(k, id, vEff).Err? then k else AddValidator(k, id, vEff).value
  }

  lemma AddValidatorKeepsOkIfNew(k: Keys, id: NodeId, vEff: nat)
    requires KeysOk(k)
    ensures id !in k.lists && AddValidator(k, id, vEff).Ok? ==> KeysOk(AddValidator(k, id, vEff).value)
  {
    if id !in k.lists { AddValidatorKeepsOk(k, id, vEff); }
  }

  function AddMembers(k: Keys, members: seq<NodeId>, vEff: nat): (r: Keys)
    requires KeysOk(k)
    ensures KeysOk(r)
  {
    if members == [] then k
    else AddMember(AddMembers(k, members[..|members| - 1], vEff), members[|members| - 1], vEff)
  }

  /** One add of the command: registered when it carries a key, is a member, and has no list yet. */
  function RegisterAdd<K>(h: Lists<K>, item: (NodeId, Option<K>), members: seq<NodeId>, vEff: nat): (r: Lists<K>)
    ensures AscendingLists(h) ==> AscendingLists(r)
    ensures ListsOk(h) ==> ListsOk(r)
  {
    if item.1.Some? && item.0 in members && item.0 !in h then h[item.0 := [Entry(vEff, item.1.value)]] else h
  }

  function RegisterAdds<K>(h: Lists<K>, items: seq<(NodeId, Option<K>)>, members: seq<NodeId>, vEff: nat): (r: Lists<K>)
    ensures AscendingLists(h) ==> AscendingLists(r)
    ensures ListsOk(h) ==> ListsOk(r)
  {
    if items == [] then h
    else RegisterAdd(RegisterAdds(h, items[..|items| - 1], members, vEff), items[|items| - 1], members, vEff)
  }

  function OperatorItems(adds: seq<AddEntry>): seq<(NodeId, Option<NodeId>)> {
    seq(|adds|, i requires 0 <= i < |adds| => (adds[i].nodeId, adds[i].operator))
  }

  function BlsItem(a: AddEntry): (NodeId, Option<nat>) {
    (a.nodeId, if a.pop.Some? then Some(a.pop.value.pubkey) else None)
  }

  function BlsItems(adds: seq<AddEntry>): seq<(NodeId, Option<nat>)> {
    seq(|adds|, i requires 0 <= i < |adds| => BlsItem(adds[i]))
  }

  predicate BoundaryAhead(bs: seq<Boundary>, view: nat) {
    exists i :: 0 <= i < |bs| && bs[i].vEff != 0 && bs[i].vEff > view
  }

  /** The set a command would install, if every check passes and no boundary is pending. */
  function NextSet(o: Oracle, delay: nat, view: nat, h: Hist, cmd: ReconfigCommand): Option<ValidatorSet>
    requires HistOk(h)
  {
    match Validate(o.checks, cmd, SetAt(h.sets, view), view, delay)
    case Err(_) => None
    case Ok(next) =>
      if BoundaryAhead(h.sets, view) then None
      else
        match WithWeights(next)
        case Err(_) => None
        case Ok(vs) => if cmd.vEff <= h.sets[|h.sets| - 1].vEff then None else Some(vs)
  }

  /** One command of `apply_reconfig_commands_to_set_history`. */
  function ReconfigStep(o: Oracle, delay: nat, view: nat, h: Hist, cmd: ReconfigCommand): Hist
    requires HistOk(h)
  {
    match NextSet(o, delay, view, h, cmd)
    case None => h
    case Some(vs) =>
      Hist(h.sets + [Boundary(cmd.vEff, vs)],
           AddMembers(h.keys, vs.members, cmd.vEff),
           if h.bls.Some? then Some(RegisterAdds(h.bls.value, BlsItems(cmd.adds), vs.members, cmd.vEff)) else None,
           if h.ops.Some? then Some(RegisterAdds(h.ops.value, OperatorItems(cmd.adds), vs.members, cmd.vEff)) else None)
  }

  // ---------------------------------------------------------------------------
  // Rotations

  /** `validate_scheme_consistency`: both BLS fields present, and the proof verifies. */
  predicate SchemeConsistent(o: Oracle, r: Rotation) {
    r.newBls.Some? && r.newPop.Some? && o.checks.pop(r.newPop.value, r.newBls.value)
  }

  /** The BLS half of a rotation; its refusal is ignored. */
  function AppendBls(bls: Option<Lists<nat>>, id: NodeId, vEff: nat, key: Option<nat>): Option<Lists<nat>>
  {
    if bls.Some? && key.Some? && Append(bls.value, id, vEff, key.value).Ok?
    then Some(Append(bls.value, id, vEff, key.value).value) else bls
  }

  /** The BLS half of a cancellation; its refusal is ignored. */
  function DropBls(bls: Option<Lists<nat>>, id: NodeId, cancelling: nat, view: nat): Option<Lists<nat>>
  {
    if bls.Some? && DropPending(bls.value, id, cancelling, view).Ok?
    then Some(DropPending(bls.value, id, cancelling, view).value) else bls
  }

  /** A rotation whose signatures and scheme are in order. */
  function RotateBoth(h: Hist, r: Rotation, view: nat): Hist
    requires HistOk(h)
  {
    match Rotate(h.keys, r, view)
    case Err(_) => h
    case Ok(keys) => h.(keys := keys, bls := AppendBls(h.bls, h.keys.owner[r.validator], r.vEff, r.newBls))
  }

  /** One command of the rotation pass of `apply_rotation_commands_to_histories`. */
  function RotationStep(o: Oracle, view: nat, h: Hist, env: DualRotation): Hist
    requires HistOk(h)
  {
    var cur := CurrentKey(h.keys, env.payload.validator);
    if cur.None? || !o.rotation(env, cur.value) || !SchemeConsistent(o, env.payload) then h
    else RotateBoth(h, env.payload, view)
  }

  /** `apply_rotation_cancel_command`. */
  function CancelStep(o: Oracle, view: nat, h: Hist, env: RotationCancel): Hist
    requires HistOk(h)
  {
    var pending := PendingNewKey(h.keys, env.validator, env.cancelling, view);
    if pending.None? then h
    else
      var stable := h.keys.owner[env.validator];
      var cur := KeyAt(h.keys.lists, stable, view);
      if cur.None? || !o.cancel(env, cur.value, pending.value) then h
      else
        match Cancel(h.keys, env.validator, env.cancelling, view)
        case Err(_) => h
        case Ok(keys) => h.(keys := keys, bls := DropBls(h.bls, stable, env.cancelling, view))
  }

  /** `apply_operator_rotation_command`. */
  function OperatorStep(o: Oracle, view: nat, h: Hist, env: OperatorRotation): Hist
    requires HistOk(h)
  {
    if h.ops.None? || env.payload.validator !in h.keys.owner then h
    else
      var op := KeyAt(h.ops.value, h.keys.owner[env.payload.validator], view);
      if op.None? || !o.operator(env, op.value) || !SchemeConsistent(o, env.payload) then h
      else RotateBoth(h, env.payload, view)
  }

  /** `apply_operator_key_rotation_command`. */
  function OperatorKeyStep(o: Oracle, view: nat, h: Hist, env: OperatorKeyRotation): Hist
    requires HistOk(h)
  {
    if h.ops.None? then h
    else
      var cur := KeyAt(h.ops.value, env.validator, view);
      if cur.None? || !o.operatorKey(env, cur.value) then h
      else
        match Append(h.ops.value, env.validator, env.vEff, env.newKey)
        case Err(_) => h
        case Ok(ops) => h.(ops := Some(ops))
  }

  // ---------------------------------------------------------------------------
  // Passes, blocks and chains

  datatype Pass = ReconfigPass | RotationPass | CancelPass | OperatorPass | OperatorKeyPass

  /** The pass in which a command can have an effect. */
  function PassOf(c: Command): Pass {
    match c
    case Reconfigure(_) => ReconfigPass
    case RotateKey(_) => RotationPass
    case CancelKey(_) => CancelPass
    case OperatorRotateKey(_) => OperatorPass
    case RotateOperator(_) => OperatorKeyPass
    case Other => ReconfigPass
  }

  /** What one command does in one pass; a command of another kind is skipped. */
  function Step(o: Oracle, delay: nat, view: nat, pass: Pass, h: Hist, c: Command): Hist
    requires HistOk(h)
  {
    match pass
    case ReconfigPass => if c.Reconfigure? then ReconfigStep(o, delay, view, h, c.cmd) else h
    case RotationPass => if c.RotateKey? then RotationStep(o, view, h, c.rotation) else h
    case CancelPass => if c.CancelKey? then CancelStep(o, view, h, c.cancel) else h
    case OperatorPass => if c.OperatorRotateKey? then OperatorStep(o, view, h, c.operatorRotation) else h
    case OperatorKeyPass => if c.RotateOperator? then OperatorKeyStep(o, view, h, c.operatorKey) else h
  }

  lemma RotateBothKeepsOk(h: Hist, r: Rotation, view: nat)
    requires HistOk(h)
    ensures HistOk(RotateBoth(h, r, view))
  {
    RotateKeepsOk(h.keys, r, view);
    if Rotate(h.keys, r, view).Ok? && h.bls.Some? && r.newBls.Some? {
      var id := h.keys.owner[r.validator];
      if Append(h.bls.value, id, r.vEff, r.newBls.value).Ok? {
        AppendKeepsLists(h.bls.value, id, r.vEff, r.newBls.value);
      }
    }
  }

  lemma ReconfigStepKeepsOk(o: Oracle, delay: nat, view: nat, h: Hist, cmd: ReconfigCommand)
    requires HistOk(h)
    ensures HistOk(ReconfigStep(o, delay, view, h, cmd))
  {
    hide KeysOk, AscendingLists, ListsOk, AddMembers, RegisterAdds;
    if NextSet(o, delay, view, h, cmd).Some? {
      AcceptedMeans(o.checks, cmd, SetAt(h.sets, view), view, delay);
    }
  }

  lemma CancelStepKeepsOk(o: Oracle, view: nat, h: Hist, env: RotationCancel)
    requires HistOk(h)
    ensures HistOk(CancelStep(o, view, h, env))
  {
    if CancelStep(o, view, h, env) != h {
      var stable := h.keys.owner[env.validator];
      PendingIsNotAlone(h.keys.lists[stable], view);
      CancelKeepsOk(h.keys, env.validator, env.cancelling, view);
    }
  }

  lemma OperatorKeyStepKeepsOk(o: Oracle, view: nat, h: Hist, env: OperatorKeyRotation)
    requires HistOk(h)
    ensures HistOk(OperatorKeyStep(o, view, h, env))
  {
    if h.ops.Some? && Append(h.ops.value, env.validator, env.vEff, env.newKey).Ok? {
      AppendKeepsLists(h.ops.value, env.validator, env.vEff, env.newKey);
    }
  }

  /** Every command of every pass keeps all four histories well formed. */
  lemma StepKeepsOk(o: Oracle, delay: nat, view: nat, pass: Pass, h: Hist, c: Command)
    requires HistOk(h)
    ensures HistOk(Step(o, delay, view, pass, h, c))
  {
    hide HistOk, ReconfigStep, CancelStep, OperatorKeyStep, RotateBoth;
    match c
    case Reconfigure(cmd) => ReconfigStepKeepsOk(o, delay, view, h, cmd);
    case RotateKey(env) => RotateBothKeepsOk(h, env.payload, view);
    case CancelKey(env) => CancelStepKeepsOk(o, view, h, env);
    case OperatorRotateKey(env) => RotateBothKeepsOk(h, env.payload, view);
    case RotateOperator(env) => OperatorKeyStepKeepsOk(o, view, h, env);
    case Other =>
  }

  /** One pass over the commands of a block. */
  function RunPass(o: Oracle, delay: nat, view: nat, pass: Pass, h: Hist, cs: seq<Command>): (r: Hist)
    requires HistOk(h)
    ensures HistOk(r)
  {
    if cs == [] then h
    else
      var m := RunPass(o, delay, view, pass, h, cs[..|cs| - 1]);
      StepKeepsOk(o, delay, view, pass, m, cs[|cs| - 1]);
      Step(o, delay, view, pass, m, cs[|cs| - 1])
  }

  /** Both apply functions on one block, as a rebuild and the stamping of a proposal call them. */
  function ApplyBlock(o: Oracle, delay: nat, h: Hist, b: CommittedBlock): (r: Hist)
    requires HistOk(h)
    ensures HistOk(r)
  {
    var h1 := RunPass(o, delay, b.view, ReconfigPass, h, b.commands);
    var h2 := RunPass(o, delay, b.view, RotationPass, h1, b.commands);
    var h3 := RunPass(o, delay, b.view, CancelPass, h2, b.commands);
    var h4 := RunPass(o, delay, b.view, OperatorPass, h3, b.commands);
    RunPass(o, delay, b.view, OperatorKeyPass, h4, b.commands)
  }

  /** Blocks folded in chain order. */
  function ApplyChain(o: Oracle, delay: nat, h: Hist, bs: seq<CommittedBlock>): (r: Hist)
    requires HistOk(h)
    ensures HistOk(r)
  {
    if bs == [] then h else ApplyBlock(o, delay, ApplyChain(o, delay, h, bs[..|bs| - 1]), bs[|bs| - 1])
  }
}
