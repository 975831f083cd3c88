/** A committed block never changes what is active at or before its own view. */
module SettledPast {
  import opened Common
  import opened ValidatorSets
  import opened SetHistory
  import opened KeyHistories
  import opened Reconfig
  import opened Histories

  /** Sets, signing keys and BLS keys agree in every view up to `w`. */
  ghost predicate SamePast(g: Hist, h: Hist, w: nat)
    requires |g.sets| > 0 && |h.sets| > 0
  {
    && (forall u: nat :: u <= w ==> SetAt(h.sets, u) == SetAt(g.sets, u))
    && SameLists(g.keys.lists, h.keys.lists, w)
    && (g.bls.Some? <==> h.bls.Some?)
    && (g.bls.Some? ==> SameLists(g.bls.value, h.bls.value, w))
  }

  ghost predicate SameLists<K>(g: Lists<K>, h: Lists<K>, w: nat) {
    forall id: NodeId, u: nat :: u <= w ==> KeyAt(h, id, u) == KeyAt(g, id, u)
  }

  lemma NewListLater<K>(h: Lists<K>, id: NodeId, e: Entry<K>, w: nat)
    requires id !in h && e.vEff > w
    ensures SameLists(h, h[id := [e]], w)
  {
  }

  lemma AppendLater<K>(h: Lists<K>, id: NodeId, e: Entry<K>, w: nat)
    requires id in h && e.vEff > w
    ensures SameLists(h, h[id := h[id] + [e]], w)
  {
  }

  lemma DropLater<K>(h: Lists<K>, id: NodeId, w: nat)
    requires id in h && h[id] != [] && LastEntry(h[id]).vEff > w
    ensures SameLists(h, h[id := h[id][..|h[id]| - 1]], w)
  {
  }

  lemma {:induction false} AddMembersLater(k: Keys, members: seq<NodeId>, vEff: nat, w: nat)
    requires KeysOk(k) && vEff > w
    ensures SameLists(k.lists, AddMembers(k, members, vEff).lists, w)
  {
    if members == [] {
    } else {
      var front, last := members[..|members| - 1], members[|members| - 1];
      AddMembersLater(k, front, vEff, w);
      var m := AddMembers(k, front, vEff);
      if last !in m.lists && last !in m.owner {
        NewListLater(m.lists, last, Entry(vEff, last), w);
      }
    }
  }

  lemma {:induction false} RegisterAddsLater<K>(h: Lists<K>, items: seq<(NodeId, Option<K>)>, members: seq<NodeId>, vEff: nat, w: nat)
    requires vEff > w
    ensures SameLists(h, RegisterAdds(h, items, members, vEff), w)
  {
    if items == [] {
    } else {
      var front, last := items[..|items| - 1], items[|items| - 1];
      RegisterAddsLater(h, front, members, vEff, w);
      var m := RegisterAdds(h, front, members, vEff);
      if last.1.Some? && last.0 !in m {
        NewListLater(m, last.0, Entry(vEff, last.1.value), w);
      }
    }
  }

  lemma ReconfigSettled(o: Oracle, delay: nat, view: nat, h: Hist, cmd: ReconfigCommand)
    requires HistOk(h)
    ensures SamePast(h, ReconfigStep(o, delay, view, h, cmd), view)
  {
    var n := NextSet(o, delay, view, h, cmd);
    if n.Some? {
      hide ReconfigStep, AddMembers, RegisterAdds, HistOk, WithWeights, NextPairs, SetAt;
      AcceptedIsLater(o, delay, view, h, cmd);
      ReconfigStepShape(o, delay, view, h, cmd, n.value);
      var vs := n.value;
      forall u: nat | u <= view ensures SetAt(h.sets + [Boundary(cmd.vEff, vs)], u) == SetAt(h.sets, u) {
        LaterBoundaryInvisible(h.sets, Boundary(cmd.vEff, vs), u);
      }
      AddMembersLater(h.keys, vs.members, cmd.vEff, view);
      if h.bls.Some? {
        RegisterAddsLater(h.bls.value, BlsItems(cmd.adds), vs.members, cmd.vEff, view);
      }
    }
  }

  lemma AcceptedIsLater(o: Oracle, delay: nat, view: nat, h: Hist, cmd: ReconfigCommand)
    requires HistOk(h) && NextSet(o, delay, view, h, cmd).Some?
    ensures cmd.vEff >= view + 4 && |h.sets| > 0 && KeysOk(h.keys)
  {
  }

  lemma ReconfigStepShape(o: Oracle, delay: nat, view: nat, h: Hist, cmd: ReconfigCommand, vs: ValidatorSet)
    requires HistOk(h) && KeysOk(h.keys) && NextSet(o, delay, view, h, cmd) == Some(vs)
    ensures var r := ReconfigStep(o, delay, view, h, cmd);
      && r.sets == h.sets + [Boundary(cmd.vEff, vs)]
      && r.keys == AddMembers(h.keys, vs.members, cmd.vEff)
      && r.bls == (if h.bls.Some? then Some(RegisterAdds(h.bls.value, BlsItems(cmd.adds), vs.members, cmd.vEff)) else None)
      && r.ops == (if h.ops.Some? then Some(RegisterAdds(h.ops.value, OperatorItems(cmd.adds), vs.members, cmd.vEff)) else None)
  {
  }

  lemma RotateSettled(h: Hist, r: Rotation, view: nat)
    requires HistOk(h) && view < U64_MAX
    ensures SamePast(h, RotateBoth(h, r, view), view)
  {
    if Rotate(h.keys, r, view).Ok? {
      var id := h.keys.owner[r.validator];
      assert r.vEff > view;
      AppendLater(h.keys.lists, id, Entry(r.vEff, r.newKey), view);
      if h.bls.Some? && r.newBls.Some? && Append(h.bls.value, id, r.vEff, r.newBls.value).Ok? {
        AppendLater(h.bls.value, id, Entry(r.vEff, r.newBls.value), view);
      }
    }
  }

  lemma CancelStepShape(o: Oracle, view: nat, h: Hist, env: RotationCancel)
    requires HistOk(h) && CancelStep(o, view, h, env) != h
    ensures env.validator in h.keys.owner && h.keys.owner[env.validator] in h.keys.lists
    ensures var id := h.keys.owner[env.validator];
      var es, r := h.keys.lists[id], CancelStep(o, view, h, env);
      && es != [] && LastEntry(es).vEff > view
      && r.sets == h.sets && r.keys.lists == h.keys.lists[id := es[..|es| - 1]]
      && r.bls == DropBls(h.bls, id, env.cancelling, view)
  {
  }

  lemma DropBlsSettled(bls: Option<Lists<nat>>, id: NodeId, cancelling: nat, view: nat)
    ensures var r := DropBls(bls, id, cancelling, view);
      (r.Some? <==> bls.Some?) && (bls.Some? ==> SameLists(bls.value, r.value, view))
  {
  }

  lemma {:induction false} CancelSettled(o: Oracle, view: nat, h: Hist, env: RotationCancel)
    requires HistOk(h)
    ensures SamePast(h, CancelStep(o, view, h, env), view)
  {
    hide CancelStep, DropBls, SameLists;
    if CancelStep(o, view, h, env) == h {
      SamePastReflexive(h, view);
    } else {
      CancelStepShape(o, view, h, env);
      var id := h.keys.owner[env.validator];
      DropLater(h.keys.lists, id, view);
      DropBlsSettled(h.bls, id, env.cancelling, view);
    }
  }

  lemma {:induction false} StepSettled(o: Oracle, delay: nat, view: nat, pass: Pass, h: Hist, c: Command)
    requires HistOk(h) && |h.sets| > 0 && view < U64_MAX
    ensures HistOk(Step(o, delay, view, pass, h, c)) && |Step(o, delay, view, pass, h, c).sets| > 0
    ensures SamePast(h, Step(o, delay, view, pass, h, c), view)
  {
    StepKeepsOk(o, delay, view, pass, h, c);
    match c
    case Reconfigure(cmd) => ReconfigSettled(o, delay, view, h, cmd);
    case RotateKey(env) => RotateSettled(h, env.payload, view);
    case CancelKey(env) => CancelSettled(o, view, h, env);
    case OperatorRotateKey(env) => RotateSettled(h, env.payload, view);
    case _ =>
  }

  lemma {:induction false} PassSettled(o: Oracle, delay: nat, view: nat, pass: Pass, h: Hist, cs: seq<Command>)
    requires HistOk(h) && |h.sets| > 0 && view < U64_MAX
    ensures |RunPass(o, delay, view, pass, h, cs).sets| > 0
    ensures SamePast(h, RunPass(o, delay, view, pass, h, cs), view)
  {
    hide HistOk, Step;
    if cs == [] {
    } else {
      PassSettled(o, delay, view, pass, h, cs[..|cs| - 1]);
      StepSettled(o, delay, view, pass, RunPass(o, delay, view, pass, h, cs[..|cs| - 1]), cs[|cs| - 1]);
    }
  }

  /**
   * Applying a block at any view below `u64::MAX`, whatever mix of commands it carries, changes no
   * active set, signing key or BLS key in any view up to its own.
   */
  lemma BlockSettled(o: Oracle, delay: nat, h: Hist, b: CommittedBlock)
    requires HistOk(h) && |h.sets| > 0 && b.view < U64_MAX
    ensures |ApplyBlock(o, delay, h, b).sets| > 0
    ensures SamePast(h, ApplyBlock(o, delay, h, b), b.view)
  {
    hide HistOk, RunPass;
    var h1 := RunPass(o, delay, b.view, ReconfigPass, h, b.commands);
    var h2 := RunPass(o, delay, b.view, RotationPass, h1, b.commands);
    var h3 := RunPass(o, delay, b.view, CancelPass, h2, b.commands);
    var h4 := RunPass(o, delay, b.view, OperatorPass, h3, b.commands);
    PassSettled(o, delay, b.view, ReconfigPass, h, b.commands);
    PassSettled(o, delay, b.view, RotationPass, h1, b.commands);
    PassSettled(o, delay, b.view, CancelPass, h2, b.commands);
    PassSettled(o, delay, b.view, OperatorPass, h3, b.commands);
    PassSettled(o, delay, b.view, OperatorKeyPass, h4, b.commands);
  }

  lemma SamePastReflexive(h: Hist, w: nat)
    requires |h.sets| > 0
    ensures SamePast(h, h, w)
  {
  }

  lemma SamePastTransitive(g: Hist, h: Hist, k: Hist, w: nat, later: nat)
    requires |g.sets| > 0 && |h.sets| > 0 && |k.sets| > 0 && w <= later
    requires SamePast(g, h, w) && SamePast(h, k, later)
    ensures SamePast(g, k, w)
  {
  }

  /** What is active up to view `w` is settled: no chain of blocks from `w` on can change it. */
  lemma {:induction false} ChainSettled(o: Oracle, delay: nat, h: Hist, bs: seq<CommittedBlock>, w: nat)
    requires HistOk(h) && |h.sets| > 0
    requires forall i :: 0 <= i < |bs| ==> w <= bs[i].view < U64_MAX
    ensures |ApplyChain(o, delay, h, bs).sets| > 0
    ensures SamePast(h, ApplyChain(o, delay, h, bs), w)
  {
    hide HistOk, SamePast, ApplyBlock;
    if bs != [] {
      var front := bs[..|bs| - 1];
      ChainSettled(o, delay, h, front, w);
      var m := ApplyChain(o, delay, h, front);
      BlockSettled(o, delay, m, bs[|bs| - 1]);
      SamePastTransitive(h, m, ApplyChain(o, delay, h, bs), w, bs[|bs| - 1].view);
    } else {
      SamePastReflexive(h, w);
    }
  }

  /**
   * Operator keys are not settled: an accepted operator-key rotation leaves every view up to the
   * committing one alone exactly when it takes effect later or repeats the latest key.
   */
  lemma OperatorPastIff(o: Oracle, view: nat, h: Hist, env: OperatorKeyRotation)
    requires HistOk(h) && h.ops.Some? && env.validator in h.ops.value
    requires OperatorKeyStep(o, view, h, env) != h
    ensures SameLists(h.ops.value, OperatorKeyStep(o, view, h, env).ops.value, view)
       <==> env.vEff > view || env.newKey == LastEntry(h.ops.value[env.validator]).key
  {
  }

  // ---------------------------------------------------------------------------
  // Operator keys whose rotations take effect later

  predicate OperatorsLater(b: CommittedBlock) {
    forall i :: 0 <= i < |b.commands| && b.commands[i].RotateOperator? ==> b.commands[i].operatorKey.vEff > b.view
  }

  ghost predicate SameOperators(g: Hist, h: Hist, w: nat) {
    (g.ops.Some? <==> h.ops.Some?) && (g.ops.Some? ==> SameLists(g.ops.value, h.ops.value, w))
  }

  lemma StepOperators(o: Oracle, delay: nat, view: nat, pass: Pass, h: Hist, c: Command)
    requires HistOk(h) && (c.RotateOperator? ==> c.operatorKey.vEff > view)
    ensures SameOperators(h, Step(o, delay, view, pass, h, c), view)
  {
    hide SameLists, RegisterAdds, AddMembers, Validate, WithWeights, KeyAt, Rotate, Cancel, AppendBls, DropBls, SchemeConsistent, CurrentKey, PendingNewKey;
    if h.ops.Some? {
      SameListsReflexive(h.ops.value, view);
      if c.RotateOperator? && Append(h.ops.value, c.operatorKey.validator, c.operatorKey.vEff, c.operatorKey.newKey).Ok? {
        AppendLater(h.ops.value, c.operatorKey.validator, Entry(c.operatorKey.vEff, c.operatorKey.newKey), view);
      }
      if c.Reconfigure? && NextSet(o, delay, view, h, c.cmd).Some? {
        AcceptedIsLater(o, delay, view, h, c.cmd);
        RegisterAddsLater(h.ops.value, OperatorItems(c.cmd.adds), NextSet(o, delay, view, h, c.cmd).value.members, c.cmd.vEff, view);
      }
    }
  }

  lemma SameListsReflexive<K>(h: Lists<K>, w: nat)
    ensures SameLists(h, h, w)
  {
  }

  lemma SameOperatorsTransitive(g: Hist, h: Hist, k: Hist, w: nat, later: nat)
    requires w <= later && SameOperators(g, h, w) && SameOperators(h, k, later)
    ensures SameOperators(g, k, w)
  {
    hide KeyAt;
  }

  lemma {:induction false} PassOperators(o: Oracle, delay: nat, view: nat, pass: Pass, h: Hist, cs: seq<Command>)
    requires HistOk(h) && forall i :: 0 <= i < |cs| && cs[i].RotateOperator? ==> cs[i].operatorKey.vEff > view
    ensures SameOperators(h, RunPass(o, delay, view, pass, h, cs), view)
  {
    hide HistOk, SameLists, Step;
    if cs == [] {
      if h.ops.Some? { SameListsReflexive(h.ops.value, view); }
    } else {
      var m := RunPass(o, delay, view, pass, h, cs[..|cs| - 1]);
      PassOperators(o, delay, view, pass, h, cs[..|cs| - 1]);
      StepOperators(o, delay, view, pass, m, cs[|cs| - 1]);
      SameOperatorsTransitive(h, m, RunPass(o, delay, view, pass, h, cs), view, view);
    }
  }

  lemma BlockOperators(o: Oracle, delay: nat, h: Hist, b: CommittedBlock)
    requires HistOk(h) && OperatorsLater(b)
    ensures SameOperators(h, ApplyBlock(o, delay, h, b), b.view)
  {
    hide HistOk, SameOperators, RunPass;
    var h1 := RunPass(o, delay, b.view, ReconfigPass, h, b.commands);
    var h2 := RunPass(o, delay, b.view, RotationPass, h1, b.commands);
    var h3 := RunPass(o, delay, b.view, CancelPass, h2, b.commands);
    var h4 := RunPass(o, delay, b.view, OperatorPass, h3, b.commands);
    var h5 := RunPass(o, delay, b.view, OperatorKeyPass, h4, b.commands);
    PassOperators(o, delay, b.view, ReconfigPass, h, b.commands);
    PassOperators(o, delay, b.view, RotationPass, h1, b.commands);
    PassOperators(o, delay, b.view, CancelPass, h2, b.commands);
    PassOperators(o, delay, b.view, OperatorPass, h3, b.commands);
    PassOperators(o, delay, b.view, OperatorKeyPass, h4, b.commands);
    SameOperatorsTransitive(h, h1, h2, b.view, b.view);
    SameOperatorsTransitive(h, h2, h3, b.view, b.view);
    SameOperatorsTransitive(h, h3, h4, b.view, b.view);
    SameOperatorsTransitive(h, h4, h5, b.view, b.view);
  }

  /** Operator keys are settled too over every chain whose operator-key rotations take effect after their block. */
  lemma {:induction false} ChainOperatorsSettled(o: Oracle, delay: nat, h: Hist, bs: seq<CommittedBlock>, w: nat)
    requires HistOk(h) && forall i :: 0 <= i < |bs| ==> w <= bs[i].view && OperatorsLater(bs[i])
    ensures SameOperators(h, ApplyChain(o, delay, h, bs), w)
  {
    hide HistOk, SameLists, ApplyBlock, OperatorsLater;
    if bs == [] {
      if h.ops.Some? { SameListsReflexive(h.ops.value, w); }
    } else {
      var front, last := bs[..|bs| - 1], bs[|bs| - 1];
      ChainOperatorsSettled(o, delay, h, front, w);
      var m := ApplyChain(o, delay, h, front);
      BlockOperators(o, delay, m, last);
      SameOperatorsTransitive(h, m, ApplyChain(o, delay, h, bs), w, last.view);
    }
  }

  // Validator 1 replaces operator key 7 by 8 from view 3 on, in a block of view 5.
  function OneValidator(): Hist {
    Hist([Boundary(0, ValidatorSet([1], [1]))], GenesisKeys([1]), None, Some(map[1 := [Entry(0, 7)]]))
  }

  function LateNotice(): OperatorKeyRotation { OperatorKeyRotation(1, 8, 3, 0, 0) }

  lemma OneValidatorOk()
    ensures HistOk(OneValidator())
  {
    var h := OneValidator();
    assert h.keys.lists[1][0].key == 1;
  }

  lemma {:induction false} OnlyOperatorPass(o: Oracle, delay: nat, view: nat, pass: Pass, h: Hist, env: OperatorKeyRotation)
    requires HistOk(h)
    ensures RunPass(o, delay, view, pass, h, [RotateOperator(env)]) == if pass == OperatorKeyPass then OperatorKeyStep(o, view, h, env) else h
  {
    hide HistOk, OperatorKeyStep;
    var c := RotateOperator(env);
    assert [c][..0] == [];
    assert RunPass(o, delay, view, pass, h, []) == h;
  }

  /** A committed block that changes the operator key of view 4 although it is of view 5. */
  lemma OperatorPastChanges()
    ensures HistOk(OneValidator())
    ensures var h' := ApplyBlock(Anyone, 0, OneValidator(), CommittedBlock(5, [RotateOperator(LateNotice())]));
      && h'.ops.Some? && KeyAt(OneValidator().ops.value, 1, 4) == Some(7) && KeyAt(h'.ops.value, 1, 4) == Some(8)
  {
    hide HistOk, RunPass;
    OneValidatorOk();
    var h := OneValidator();
    OnlyOperatorPass(Anyone, 0, 5, ReconfigPass, h, LateNotice());
    OnlyOperatorPass(Anyone, 0, 5, RotationPass, h, LateNotice());
    OnlyOperatorPass(Anyone, 0, 5, CancelPass, h, LateNotice());
    OnlyOperatorPass(Anyone, 0, 5, OperatorPass, h, LateNotice());
    OnlyOperatorPass(Anyone, 0, 5, OperatorKeyPass, h, LateNotice());
    var es: seq<Entry<NodeId>> := [Entry(0, 7)];
    assert es + [Entry(3, 8)] == [Entry(0, 7), Entry(3, 8)];
  }
}
