/**
 * Who answers for every change of a key over a chain: the cancellation behind each entry that
 * disappears, and the command behind each entry of an operator's list.
 */
module Accountability {
  import opened Common
  import opened ValidatorSets
  import opened SetHistory
  import opened KeyHistories
  import opened Reconfig
  import opened Histories
  import opened Lockstep
  import opened Provenance
  import opened CommandEffects

  // ---------------------------------------------------------------------------
  // Entries that disappear

  /**
   * On histories `m`, the command cancels the entry of validator `id`: it is the validator's last and
   * still pending, and both the key in force and the pending key have signed.
   */
  ghost predicate Cancels(o: Oracle, view: nat, m: Hist, c: Command, id: NodeId, e: Entry<NodeId>) {
    && c.CancelKey? && c.cancel.validator in m.keys.owner && m.keys.owner[c.cancel.validator] == id
    && id in m.keys.lists && m.keys.lists[id] != [] && m.keys.lists[id][|m.keys.lists[id]| - 1] == e
    && e.vEff == c.cancel.cancelling > view
    && exists key :: Holds(m.keys.lists[id], view, key) && o.cancel(c.cancel, key, e.key)
  }

  /** Command `j` of block `k` cancelled the entry. */
  ghost predicate CancelledAt(o: Oracle, delay: nat, g: Hist, bs: seq<CommittedBlock>, k: nat, j: nat, id: NodeId, e: Entry<NodeId>)
    requires HistOk(g)
  {
    && k < |bs| && j < |bs[k].commands|
    && Cancels(o, bs[k].view, Before(o, delay, ApplyChain(o, delay, g, bs[..k]), bs[k], j), bs[k].commands[j], id, e)
  }

  ghost predicate WasCancelled(o: Oracle, delay: nat, g: Hist, bs: seq<CommittedBlock>, id: NodeId, e: Entry<NodeId>)
    requires HistOk(g)
  {
    exists k: nat, j: nat :: CancelledAt(o, delay, g, bs, k, j, id, e)
  }

  predicate KeptAt(lists: Lists<NodeId>, id: NodeId, i: nat, e: Entry<NodeId>) {
    id in lists && i < |lists[id]| && lists[id][i] == e
  }

  /** Every entry is still in its place or was cancelled. */
  ghost predicate KeptOrCancelled(o: Oracle, delay: nat, g: Hist, bs: seq<CommittedBlock>, before: Lists<NodeId>, after: Lists<NodeId>)
    requires HistOk(g)
  {
    forall id, i :: id in before && 0 <= i < |before[id]| ==>
      KeptAt(after, id, i, before[id][i]) || WasCancelled(o, delay, g, bs, id, before[id][i])
  }

  lemma RotatedKeeps(h: Hist, id: NodeId, r: Rotation, h': Hist, x: NodeId, i: nat)
    requires Rotated(h, id, r, h') && x in h.keys.lists && i < |h.keys.lists[x]|
    ensures KeptAt(h'.keys.lists, x, i, h.keys.lists[x][i])
  {
  }

  lemma ReconfigKeeps(o: Oracle, delay: nat, view: nat, h: Hist, cmd: ReconfigCommand, x: NodeId, i: nat)
    requires HistOk(h) && x in h.keys.lists && i < |h.keys.lists[x]|
    ensures KeptAt(ReconfigStep(o, delay, view, h, cmd).keys.lists, x, i, h.keys.lists[x][i])
  {
    hide AddMembers, RegisterAdds, Validate, WithWeights, KeysOk, ListsOk, AscendingLists;
    var next := NextSet(o, delay, view, h, cmd);
    if next.Some? {
      AcceptedMeans(o.checks, cmd, SetAt(h.sets, view), view, delay);
      AddMembersExact(h.keys, next.value.members, cmd.vEff);
    }
  }

  /** One command in its pass: what it takes away it cancels. */
  lemma StepKeepsOrCancels(o: Oracle, delay: nat, view: nat, pass: Pass, h: Hist, c: Command, x: NodeId, i: nat)
    requires HistOk(h) && x in h.keys.lists && i < |h.keys.lists[x]|
    ensures KeptAt(Step(o, delay, view, pass, h, c).keys.lists, x, i, h.keys.lists[x][i])
      || (pass == PassOf(c) && Cancels(o, view, h, c, x, h.keys.lists[x][i]))
  {
    hide HistOk, ReconfigStep, RotationStep, CancelStep, OperatorStep, Rotated, Cancelled, InOrder, Holds;
    if Step(o, delay, view, pass, h, c) != h {
      match c
      case Reconfigure(cmd) => ReconfigKeeps(o, delay, view, h, cmd, x, i);
      case RotateKey(env) =>
        RotationIff(o, view, h, env);
        var id :| InOrder(h, id, env.payload, view);
        RotatedKeeps(h, id, env.payload, RotationStep(o, view, h, env), x, i);
      case OperatorRotateKey(env) =>
        OperatorRotationIff(o, view, h, env);
        var id :| InOrder(h, id, env.payload, view);
        RotatedKeeps(h, id, env.payload, OperatorStep(o, view, h, env), x, i);
      case CancelKey(env) => CancelTakesLast(o, view, h, env, x, i);
      case RotateOperator(_) =>
    }
  }

  lemma CancelTakesLast(o: Oracle, view: nat, h: Hist, env: RotationCancel, x: NodeId, i: nat)
    requires HistOk(h) && x in h.keys.lists && i < |h.keys.lists[x]| && CancelStep(o, view, h, env) != h
    ensures KeptAt(CancelStep(o, view, h, env).keys.lists, x, i, h.keys.lists[x][i])
      || Cancels(o, view, h, CancelKey(env), x, h.keys.lists[x][i])
  {
    hide HistOk, CancelStep, Holds;
    CancellationIff(o, view, h, env);
    var id, key :| PendingAt(h, id, env, view) && Holds(h.keys.lists[id], view, key)
      && o.cancel(env, key, h.keys.lists[id][|h.keys.lists[id]| - 1].key);
    assert Cancelled(h, id, env.cancelling, CancelStep(o, view, h, env));
  }

  lemma KeptCompose(o: Oracle, delay: nat, g: Hist, bs: seq<CommittedBlock>, a: Lists<NodeId>, b: Lists<NodeId>, c: Lists<NodeId>)
    requires HistOk(g) && KeptOrCancelled(o, delay, g, bs, a, b) && KeptOrCancelled(o, delay, g, bs, b, c)
    ensures KeptOrCancelled(o, delay, g, bs, a, c)
  {
    hide WasCancelled;
    forall id, i | id in a && 0 <= i < |a[id]| ensures KeptAt(c, id, i, a[id][i]) || WasCancelled(o, delay, g, bs, id, a[id][i]) {
      if KeptAt(b, id, i, a[id][i]) { assert b[id][i] == a[id][i]; }
    }
  }

  lemma CancelHere(o: Oracle, delay: nat, g: Hist, bs: seq<CommittedBlock>, k: nat, j: nat, id: NodeId, e: Entry<NodeId>)
    requires HistOk(g) && CancelledAt(o, delay, g, bs, k, j, id, e)
    ensures WasCancelled(o, delay, g, bs, id, e)
  {
    hide CancelledAt;
  }

  /** The first `n` commands of a pass over the last block. */
  lemma {:induction false} PassKeepsOrCancels(o: Oracle, delay: nat, g: Hist, bs: seq<CommittedBlock>, pass: Pass, n: nat)
    requires HistOk(g) && |bs| > 0 && n <= |bs[|bs| - 1].commands|
    ensures var b, h := bs[|bs| - 1], ApplyChain(o, delay, g, bs[..|bs| - 1]);
      var start := AtPass(o, delay, h, b, pass);
      KeptOrCancelled(o, delay, g, bs, start.keys.lists, RunPass(o, delay, b.view, pass, start, b.commands[..n]).keys.lists)
  {
    hide HistOk, Step, Cancels, AtPass, ApplyChain, WasCancelled;
    if n > 0 {
      var k, j, b := |bs| - 1, n - 1, bs[|bs| - 1];
      var c := b.commands[j];
      var start := AtPass(o, delay, ApplyChain(o, delay, g, bs[..k]), b, pass);
      PassKeepsOrCancels(o, delay, g, bs, pass, j);
      assert b.commands[..n][..j] == b.commands[..j];
      var m := RunPass(o, delay, b.view, pass, start, b.commands[..j]);
      var r := Step(o, delay, b.view, pass, m, c);
      assert r == RunPass(o, delay, b.view, pass, start, b.commands[..n]);
      forall id, i | id in m.keys.lists && 0 <= i < |m.keys.lists[id]|
        ensures KeptAt(r.keys.lists, id, i, m.keys.lists[id][i]) || WasCancelled(o, delay, g, bs, id, m.keys.lists[id][i])
      {
        StepKeepsOrCancels(o, delay, b.view, pass, m, c, id, i);
        if !KeptAt(r.keys.lists, id, i, m.keys.lists[id][i]) { CancelHere(o, delay, g, bs, k, j, id, m.keys.lists[id][i]); }
      }
      KeptCompose(o, delay, g, bs, start.keys.lists, m.keys.lists, r.keys.lists);
    }
  }

  lemma WholePassKeepsOrCancels(o: Oracle, delay: nat, g: Hist, bs: seq<CommittedBlock>, pass: Pass)
    requires HistOk(g) && |bs| > 0
    ensures var b, h := bs[|bs| - 1], ApplyChain(o, delay, g, bs[..|bs| - 1]);
      var start := AtPass(o, delay, h, b, pass);
      KeptOrCancelled(o, delay, g, bs, start.keys.lists, RunPass(o, delay, b.view, pass, start, b.commands).keys.lists)
  {
    hide HistOk, KeptOrCancelled, RunPass, ApplyChain, AtPass;
    var b := bs[|bs| - 1];
    PassKeepsOrCancels(o, delay, g, bs, pass, |b.commands|);
    assert b.commands[..|b.commands|] == b.commands;
  }

  lemma BlockKeepsOrCancels(o: Oracle, delay: nat, g: Hist, bs: seq<CommittedBlock>)
    requires HistOk(g) && |bs| > 0
    ensures KeptOrCancelled(o, delay, g, bs, ApplyChain(o, delay, g, bs[..|bs| - 1]).keys.lists, ApplyChain(o, delay, g, bs).keys.lists)
  {
    hide HistOk, KeptOrCancelled, RunPass;
    var b, h := bs[|bs| - 1], ApplyChain(o, delay, g, bs[..|bs| - 1]);
    var h1 := RunPass(o, delay, b.view, ReconfigPass, h, b.commands);
    var h2 := RunPass(o, delay, b.view, RotationPass, h1, b.commands);
    var h3 := RunPass(o, delay, b.view, CancelPass, h2, b.commands);
    var h4 := RunPass(o, delay, b.view, OperatorPass, h3, b.commands);
    var h5 := RunPass(o, delay, b.view, OperatorKeyPass, h4, b.commands);
    WholePassKeepsOrCancels(o, delay, g, bs, ReconfigPass);
    WholePassKeepsOrCancels(o, delay, g, bs, RotationPass);
    WholePassKeepsOrCancels(o, delay, g, bs, CancelPass);
    WholePassKeepsOrCancels(o, delay, g, bs, OperatorPass);
    WholePassKeepsOrCancels(o, delay, g, bs, OperatorKeyPass);
    KeptCompose(o, delay, g, bs, h.keys.lists, h1.keys.lists, h2.keys.lists);
    KeptCompose(o, delay, g, bs, h.keys.lists, h2.keys.lists, h3.keys.lists);
    KeptCompose(o, delay, g, bs, h.keys.lists, h3.keys.lists, h4.keys.lists);
    KeptCompose(o, delay, g, bs, h.keys.lists, h4.keys.lists, h5.keys.lists);
  }

  lemma CancelledStill(o: Oracle, delay: nat, g: Hist, bs: seq<CommittedBlock>, more: seq<CommittedBlock>, id: NodeId, e: Entry<NodeId>)
    requires HistOk(g) && bs <= more && WasCancelled(o, delay, g, bs, id, e)
    ensures WasCancelled(o, delay, g, more, id, e)
  {
    hide HistOk, Cancels, Before, ApplyChain;
    var k: nat, j: nat :| CancelledAt(o, delay, g, bs, k, j, id, e);
    assert more[..k] == bs[..k];
    assert CancelledAt(o, delay, g, more, k, j, id, e);
  }

  /**
   * Over every chain, an entry of a key list at the start of any stretch of it is in its place at the
   * end, or a command of the chain cancelled it, signed by the key then in force and by the pending key.
   */
  lemma {:induction false} RemovalsSigned(o: Oracle, delay: nat, g: Hist, bs: seq<CommittedBlock>, n: nat)
    requires HistOk(g) && n <= |bs|
    ensures KeptOrCancelled(o, delay, g, bs, ApplyChain(o, delay, g, bs[..n]).keys.lists, ApplyChain(o, delay, g, bs).keys.lists)
    decreases |bs|
  {
    hide HistOk, WasCancelled, ApplyChain;
    if n == |bs| {
      assert bs[..n] == bs;
    } else {
      var front := bs[..|bs| - 1];
      assert front[..n] == bs[..n];
      RemovalsSigned(o, delay, g, front, n);
      var a, m := ApplyChain(o, delay, g, bs[..n]).keys.lists, ApplyChain(o, delay, g, front).keys.lists;
      forall id, i | id in a && 0 <= i < |a[id]| ensures KeptAt(m, id, i, a[id][i]) || WasCancelled(o, delay, g, bs, id, a[id][i]) {
        if !KeptAt(m, id, i, a[id][i]) { CancelledStill(o, delay, g, front, bs, id, a[id][i]); }
      }
      BlockKeepsOrCancels(o, delay, g, bs);
      KeptCompose(o, delay, g, bs, a, m, ApplyChain(o, delay, g, bs).keys.lists);
    }
  }

  // ---------------------------------------------------------------------------
  // Entries of operator keys

  function Operators(h: Hist): Lists<NodeId> { if h.ops.Some? then h.ops.value else map[] }

  /** On histories `m`, the rotation of an operator key to the entry, signed by the operator key in force. */
  ghost predicate RotatesOperator(o: Oracle, view: nat, m: Hist, c: Command, id: NodeId, e: Entry<NodeId>) {
    && c.RotateOperator? && c.operatorKey.validator == id && e == Entry(c.operatorKey.vEff, c.operatorKey.newKey)
    && id in Operators(m) && exists key :: Holds(Operators(m)[id], view, key) && o.operatorKey(c.operatorKey, key)
  }

  /** On histories `m`, an accepted reconfiguration that declares the entry for a validator it adds. */
  predicate DeclaresOperator(o: Oracle, delay: nat, view: nat, m: Hist, c: Command, id: NodeId, e: Entry<NodeId>)
    requires HistOk(m)
  {
    && c.Reconfigure? && NextSet(o, delay, view, m, c.cmd).Some? && e.vEff == c.cmd.vEff
    && exists a :: 0 <= a < |c.cmd.adds| && c.cmd.adds[a].nodeId == id && c.cmd.adds[a].operator == Some(e.key)
  }

  /** Command `j` of block `k` put the entry at position `i`. */
  ghost predicate PutAt(o: Oracle, delay: nat, g: Hist, bs: seq<CommittedBlock>, k: nat, j: nat, id: NodeId, i: nat, e: Entry<NodeId>)
    requires HistOk(g)
  {
    && k < |bs| && j < |bs[k].commands|
    && var m, c := Before(o, delay, ApplyChain(o, delay, g, bs[..k]), bs[k], j), bs[k].commands[j];
       if i == 0 then DeclaresOperator(o, delay, bs[k].view, m, c, id, e) else RotatesOperator(o, bs[k].view, m, c, id, e)
  }

  ghost predicate WasPut(o: Oracle, delay: nat, g: Hist, bs: seq<CommittedBlock>, id: NodeId, i: nat, e: Entry<NodeId>)
    requires HistOk(g)
  {
    exists k: nat, j: nat :: PutAt(o, delay, g, bs, k, j, id, i, e)
  }

  /** Nothing is lost from the lists, and every entry that is new was put there. */
  ghost predicate OperatorsExplained(o: Oracle, delay: nat, g: Hist, bs: seq<CommittedBlock>, before: Lists<NodeId>, after: Lists<NodeId>)
    requires HistOk(g)
  {
    && (forall id, i :: id in before && 0 <= i < |before[id]| ==> KeptAt(after, id, i, before[id][i]))
    && (forall id, i :: id in after && 0 <= i < |after[id]| ==>
          KeptAt(before, id, i, after[id][i]) || WasPut(o, delay, g, bs, id, i, after[id][i]))
  }

  /** One add more or less in the loop of registrations. */
  lemma {:induction false} RegisteredFrom<K>(h: Lists<K>, items: seq<(NodeId, Option<K>)>, members: seq<NodeId>, vEff: nat, id: NodeId)
    ensures var r := RegisterAdds(h, items, members, vEff);
      && (id in h ==> id in r && r[id] == h[id])
      && (id in r && id !in h ==>
            exists a :: 0 <= a < |items| && items[a].0 == id && items[a].1.Some? && r[id] == [Entry(vEff, items[a].1.value)])
  {
    if items == [] {
    } else {
      var n := |items| - 1;
      RegisteredFrom(h, items[..n], members, vEff, id);
      var m := RegisterAdds(h, items[..n], members, vEff);
      if id in m && id !in h {
        var a :| 0 <= a < n && items[..n][a].0 == id && items[..n][a].1.Some? && m[id] == [Entry(vEff, items[..n][a].1.value)];
        assert items[a].0 == id;
      } else if id !in m && id in RegisterAdds(h, items, members, vEff) {
        assert items[n].0 == id;
      }
    }
  }

  lemma ReconfigDeclares(o: Oracle, delay: nat, view: nat, h: Hist, cmd: ReconfigCommand, id: NodeId)
    requires HistOk(h)
    ensures var a, b := Operators(h), Operators(ReconfigStep(o, delay, view, h, cmd));
      && (id in a ==> id in b && b[id] == a[id])
      && (id in b && id !in a ==> |b[id]| == 1 && DeclaresOperator(o, delay, view, h, Reconfigure(cmd), id, b[id][0]))
  {
    hide HistOk, AddMembers, RegisterAdds, NextSet;
    var next := NextSet(o, delay, view, h, cmd);
    if next.Some? && h.ops.Some? {
      var items := OperatorItems(cmd.adds);
      RegisteredFrom(h.ops.value, items, next.value.members, cmd.vEff, id);
      var b := RegisterAdds(h.ops.value, items, next.value.members, cmd.vEff);
      if id in b && id !in h.ops.value {
        var a :| 0 <= a < |items| && items[a].0 == id && items[a].1.Some? && b[id] == [Entry(cmd.vEff, items[a].1.value)];
        assert cmd.adds[a].nodeId == id && cmd.adds[a].operator == Some(b[id][0].key);
      }
    }
  }

  /** One command in any pass: it takes no entry away, and it declares or signs for the entry it puts. */
  lemma StepExplainsOperators(o: Oracle, delay: nat, view: nat, pass: Pass, h: Hist, c: Command, id: NodeId, i: nat)
    requires HistOk(h)
    ensures var a, b := Operators(h), Operators(Step(o, delay, view, pass, h, c));
      && (id in a && i < |a[id]| ==> KeptAt(b, id, i, a[id][i]))
      && (id in b && i < |b[id]| && !KeptAt(a, id, i, b[id][i]) ==>
            && pass == PassOf(c)
            && if i == 0 then DeclaresOperator(o, delay, view, h, c, id, b[id][i]) else RotatesOperator(o, view, h, c, id, b[id][i]))
  {
    hide HistOk, ReconfigStep, RotationStep, CancelStep, OperatorStep, OperatorKeyStep, Holds, InOrder, DeclaresOperator;
    var r := Step(o, delay, view, pass, h, c);
    if r != h {
      match c
      case Reconfigure(cmd) => ReconfigDeclares(o, delay, view, h, cmd, id);
      case RotateKey(env) => RotationIff(o, view, h, env);
      case OperatorRotateKey(env) => OperatorRotationIff(o, view, h, env);
      case CancelKey(env) => CancellationIff(o, view, h, env);
      case RotateOperator(env) => OperatorKeyIff(o, view, h, env);
    }
  }

  lemma ExplainedCompose(o: Oracle, delay: nat, g: Hist, bs: seq<CommittedBlock>, a: Lists<NodeId>, b: Lists<NodeId>, c: Lists<NodeId>)
    requires HistOk(g) && OperatorsExplained(o, delay, g, bs, a, b) && OperatorsExplained(o, delay, g, bs, b, c)
    ensures OperatorsExplained(o, delay, g, bs, a, c)
  {
    hide WasPut;
    forall id, i | id in a && 0 <= i < |a[id]| ensures KeptAt(c, id, i, a[id][i]) {
      assert KeptAt(b, id, i, a[id][i]) && b[id][i] == a[id][i];
    }
    forall id, i | id in c && 0 <= i < |c[id]| ensures KeptAt(a, id, i, c[id][i]) || WasPut(o, delay, g, bs, id, i, c[id][i]) {
      if KeptAt(b, id, i, c[id][i]) { assert b[id][i] == c[id][i]; }
    }
  }

  lemma PutHere(o: Oracle, delay: nat, g: Hist, bs: seq<CommittedBlock>, k: nat, j: nat, id: NodeId, i: nat, e: Entry<NodeId>)
    requires HistOk(g) && PutAt(o, delay, g, bs, k, j, id, i, e)
    ensures WasPut(o, delay, g, bs, id, i, e)
  {
    hide PutAt;
  }

  lemma {:induction false} PassExplainsOperators(o: Oracle, delay: nat, g: Hist, bs: seq<CommittedBlock>, pass: Pass, n: nat)
    requires HistOk(g) && |bs| > 0 && n <= |bs[|bs| - 1].commands|
    ensures var b, h := bs[|bs| - 1], ApplyChain(o, delay, g, bs[..|bs| - 1]);
      var start := AtPass(o, delay, h, b, pass);
      OperatorsExplained(o, delay, g, bs, Operators(start), Operators(RunPass(o, delay, b.view, pass, start, b.commands[..n])))
  {
    hide HistOk, Step, RotatesOperator, DeclaresOperator, AtPass, ApplyChain, WasPut, Operators;
    if n > 0 {
      var k, j, b := |bs| - 1, n - 1, bs[|bs| - 1];
      var c := b.commands[j];
      var start := AtPass(o, delay, ApplyChain(o, delay, g, bs[..k]), b, pass);
      PassExplainsOperators(o, delay, g, bs, pass, j);
      assert b.commands[..n][..j] == b.commands[..j];
      var m := RunPass(o, delay, b.view, pass, start, b.commands[..j]);
      var r := Step(o, delay, b.view, pass, m, c);
      assert r == RunPass(o, delay, b.view, pass, start, b.commands[..n]);
      var x, y := Operators(m), Operators(r);
      forall id, i | id in x && 0 <= i < |x[id]| ensures KeptAt(y, id, i, x[id][i]) {
        StepExplainsOperators(o, delay, b.view, pass, m, c, id, i);
      }
      forall id, i | id in y && 0 <= i < |y[id]|
        ensures KeptAt(x, id, i, y[id][i]) || WasPut(o, delay, g, bs, id, i, y[id][i])
      {
        StepExplainsOperators(o, delay, b.view, pass, m, c, id, i);
        if !KeptAt(x, id, i, y[id][i]) { PutHere(o, delay, g, bs, k, j, id, i, y[id][i]); }
      }
      ExplainedCompose(o, delay, g, bs, Operators(start), x, y);
    }
  }

  lemma WholePassExplainsOperators(o: Oracle, delay: nat, g: Hist, bs: seq<CommittedBlock>, pass: Pass)
    requires HistOk(g) && |bs| > 0
    ensures var b, h := bs[|bs| - 1], ApplyChain(o, delay, g, bs[..|bs| - 1]);
      var start := AtPass(o, delay, h, b, pass);
      OperatorsExplained(o, delay, g, bs, Operators(start), Operators(RunPass(o, delay, b.view, pass, start, b.commands)))
  {
    hide HistOk, OperatorsExplained, RunPass, ApplyChain, AtPass, Operators;
    var b := bs[|bs| - 1];
    PassExplainsOperators(o, delay, g, bs, pass, |b.commands|);
    assert b.commands[..|b.commands|] == b.commands;
  }

  lemma BlockExplainsOperators(o: Oracle, delay: nat, g: Hist, bs: seq<CommittedBlock>)
    requires HistOk(g) && |bs| > 0
    ensures OperatorsExplained(o, delay, g, bs, Operators(ApplyChain(o, delay, g, bs[..|bs| - 1])), Operators(ApplyChain(o, delay, g, bs)))
  {
    hide HistOk, OperatorsExplained, RunPass, Operators;
    var b, h := bs[|bs| - 1], ApplyChain(o, delay, g, bs[..|bs| - 1]);
    var h1 := RunPass(o, delay, b.view, ReconfigPass, h, b.commands);
    var h2 := RunPass(o, delay, b.view, RotationPass, h1, b.commands);
    var h3 := RunPass(o, delay, b.view, CancelPass, h2, b.commands);
    var h4 := RunPass(o, delay, b.view, OperatorPass, h3, b.commands);
    var h5 := RunPass(o, delay, b.view, OperatorKeyPass, h4, b.commands);
    WholePassExplainsOperators(o, delay, g, bs, ReconfigPass);
    WholePassExplainsOperators(o, delay, g, bs, RotationPass);
    WholePassExplainsOperators(o, delay, g, bs, CancelPass);
    WholePassExplainsOperators(o, delay, g, bs, OperatorPass);
    WholePassExplainsOperators(o, delay, g, bs, OperatorKeyPass);
    ExplainedCompose(o, delay, g, bs, Operators(h), Operators(h1), Operators(h2));
    ExplainedCompose(o, delay, g, bs, Operators(h), Operators(h2), Operators(h3));
    ExplainedCompose(o, delay, g, bs, Operators(h), Operators(h3), Operators(h4));
    ExplainedCompose(o, delay, g, bs, Operators(h), Operators(h4), Operators(h5));
  }

  lemma PutStill(o: Oracle, delay: nat, g: Hist, bs: seq<CommittedBlock>, more: seq<CommittedBlock>, id: NodeId, i: nat, e: Entry<NodeId>)
    requires HistOk(g) && bs <= more && WasPut(o, delay, g, bs, id, i, e)
    ensures WasPut(o, delay, g, more, id, i, e)
  {
    hide HistOk, RotatesOperator, DeclaresOperator, Before, ApplyChain;
    var k: nat, j: nat :| PutAt(o, delay, g, bs, k, j, id, i, e);
    assert more[..k] == bs[..k];
    assert PutAt(o, delay, g, more, k, j, id, i, e);
  }

  /**
   * Over every chain operator keys are never taken away. Each that is new was put there by a command
   * of the chain: a validator's first by the accepted reconfiguration that declared it, every later one
   * by a rotation signed by the operator key in force in its block's view.
   */
  lemma {:induction false} OperatorKeysSigned(o: Oracle, delay: nat, g: Hist, bs: seq<CommittedBlock>)
    requires HistOk(g)
    ensures OperatorsExplained(o, delay, g, bs, Operators(g), Operators(ApplyChain(o, delay, g, bs)))
  {
    hide HistOk, WasPut, ApplyChain, Operators;
    if bs == [] {
      ApplyNone(o, delay, g);
    } else {
      var front := bs[..|bs| - 1];
      OperatorKeysSigned(o, delay, g, front);
      var a, m := Operators(g), Operators(ApplyChain(o, delay, g, front));
      forall id, i | id in m && 0 <= i < |m[id]| ensures KeptAt(a, id, i, m[id][i]) || WasPut(o, delay, g, bs, id, i, m[id][i]) {
        if !KeptAt(a, id, i, m[id][i]) { PutStill(o, delay, g, front, bs, id, i, m[id][i]); }
      }
      BlockExplainsOperators(o, delay, g, bs);
      ExplainedCompose(o, delay, g, bs, a, m, Operators(ApplyChain(o, delay, g, bs)));
    }
  }

  lemma ApplyNone(o: Oracle, delay: nat, g: Hist)
    requires HistOk(g)
    ensures ApplyChain(o, delay, g, []) == g
  {
  }
}
