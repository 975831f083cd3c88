/** Every key a chain puts into force after a validator's first one traces to an authorised command. */
module Provenance {
  import opened Common
  import opened ValidatorSets
  import opened SetHistory
  import opened KeyHistories
  import opened Reconfig
  import opened Histories
  import opened Lockstep

  /** A rotation to the entry's key and view, far enough ahead, with a proof of possession for its BLS key. */
  predicate Schedules(o: Oracle, view: nat, r: Rotation, e: Entry<NodeId>) {
    r.newKey == e.key && r.vEff == e.vEff && SatAdd64(view, V_EFF_MIN_DELAY) <= e.vEff && SchemeConsistent(o, r)
  }

  /**
   * On histories `m`, the command schedules the entry for validator `id`: the key it names belongs to
   * that validator, and it is signed by the validator's latest key or by its operator's active key.
   */
  predicate Authorises(o: Oracle, view: nat, m: Hist, c: Command, id: NodeId, e: Entry<NodeId>)
    requires HistOk(m)
  {
    match c
    case RotateKey(env) =>
      && env.payload.validator in m.keys.owner && m.keys.owner[env.payload.validator] == id && id in m.keys.lists
      && m.keys.lists[id] != [] && o.rotation(env, LastEntry(m.keys.lists[id]).key) && Schedules(o, view, env.payload, e)
    case OperatorRotateKey(env) =>
      && env.payload.validator in m.keys.owner && m.keys.owner[env.payload.validator] == id
      && m.ops.Some? && KeyAt(m.ops.value, id, view).Some? && o.operator(env, KeyAt(m.ops.value, id, view).value)
      && Schedules(o, view, env.payload, e)
    case _ => false
  }

  /** The histories with which a pass over the block starts. */
  function AtPass(o: Oracle, delay: nat, h: Hist, b: CommittedBlock, pass: Pass): (r: Hist)
    requires HistOk(h)
    ensures HistOk(r)
  {
    if pass == ReconfigPass then h
    else
      var h1 := RunPass(o, delay, b.view, ReconfigPass, h, b.commands);
      if pass == RotationPass then h1
      else
        var h2 := RunPass(o, delay, b.view, RotationPass, h1, b.commands);
        if pass == CancelPass then h2
        else
          var h3 := RunPass(o, delay, b.view, CancelPass, h2, b.commands);
          if pass == OperatorPass then h3 else RunPass(o, delay, b.view, OperatorPass, h3, b.commands)
  }

  /** The histories on which command `j` of the block is carried out, in its own pass. */
  function Before(o: Oracle, delay: nat, h: Hist, b: CommittedBlock, j: nat): (r: Hist)
    requires HistOk(h) && j < |b.commands|
    ensures HistOk(r)
  {
    var pass := PassOf(b.commands[j]);
    RunPass(o, delay, b.view, pass, AtPass(o, delay, h, b, pass), b.commands[..j])
  }

  /** Command `j` of block `k` scheduled the entry for the validator. */
  predicate TracedTo(o: Oracle, delay: nat, g: Hist, bs: seq<CommittedBlock>, k: nat, j: nat, id: NodeId, e: Entry<NodeId>)
    requires HistOk(g)
  {
    && k < |bs| && j < |bs[k].commands|
    && Authorises(o, bs[k].view, Before(o, delay, ApplyChain(o, delay, g, bs[..k]), bs[k], j), bs[k].commands[j], id, e)
  }

  ghost predicate Traced(o: Oracle, delay: nat, g: Hist, bs: seq<CommittedBlock>, id: NodeId, e: Entry<NodeId>)
    requires HistOk(g)
  {
    exists k: nat, j: nat :: TracedTo(o, delay, g, bs, k, j, id, e)
  }

  /** Every entry after the first of every list is traced. */
  ghost predicate AllTraced(o: Oracle, delay: nat, g: Hist, bs: seq<CommittedBlock>, lists: Lists<NodeId>)
    requires HistOk(g)
  {
    forall id, i :: id in lists && 0 < i < |lists[id]| ==> Traced(o, delay, g, bs, id, lists[id][i])
  }

  lemma TracedStill(o: Oracle, delay: nat, g: Hist, bs: seq<CommittedBlock>, more: seq<CommittedBlock>, lists: Lists<NodeId>)
    requires HistOk(g) && AllTraced(o, delay, g, bs, lists) && bs <= more
    ensures AllTraced(o, delay, g, more, lists)
  {
    hide HistOk, Authorises, Before, ApplyChain;
    forall id, i | id in lists && 0 < i < |lists[id]| ensures Traced(o, delay, g, more, id, lists[id][i]) {
      var k: nat, j: nat :| TracedTo(o, delay, g, bs, k, j, id, lists[id][i]);
      assert more[..k] == bs[..k];
      assert TracedTo(o, delay, g, more, k, j, id, lists[id][i]);
    }
  }

  /** What one command leaves: an entry after the first was there before, or the command authorises it. */
  ghost predicate NewAuthorised(o: Oracle, view: nat, m: Hist, c: Command, r: Hist)
    requires HistOk(m)
  {
    forall id, i :: id in r.keys.lists && 0 < i < |r.keys.lists[id]| ==>
      || (id in m.keys.lists && i < |m.keys.lists[id]| && m.keys.lists[id][i] == r.keys.lists[id][i])
      || Authorises(o, view, m, c, id, r.keys.lists[id][i])
  }

  /** New validators have only a first entry. */
  lemma ReconfigAuthorised(o: Oracle, delay: nat, view: nat, h: Hist, cmd: ReconfigCommand)
    requires HistOk(h)
    ensures NewAuthorised(o, view, h, Reconfigure(cmd), ReconfigStep(o, delay, view, h, cmd))
  {
    hide AddMembers, RegisterAdds, Validate, WithWeights, KeysOk, ListsOk, AscendingLists;
    var next := NextSet(o, delay, view, h, cmd);
    if next.Some? {
      AcceptedMeans(o.checks, cmd, SetAt(h.sets, view), view, delay);
      AddMembersExact(h.keys, next.value.members, cmd.vEff);
    }
  }

  lemma RotationAuthorised(o: Oracle, view: nat, h: Hist, env: DualRotation)
    requires HistOk(h)
    ensures NewAuthorised(o, view, h, RotateKey(env), RotationStep(o, view, h, env))
  {
    hide SchemeConsistent, AppendBls, ValidHistory, AscendingLists;
  }

  lemma CancelAuthorised(o: Oracle, view: nat, h: Hist, env: RotationCancel)
    requires HistOk(h)
    ensures NewAuthorised(o, view, h, CancelKey(env), CancelStep(o, view, h, env))
  {
    hide Authorises, DropBls, KeyAt, ValidHistory, AscendingLists;
  }

  lemma OperatorAuthorised(o: Oracle, view: nat, h: Hist, env: OperatorRotation)
    requires HistOk(h)
    ensures NewAuthorised(o, view, h, OperatorRotateKey(env), OperatorStep(o, view, h, env))
  {
    hide SchemeConsistent, AppendBls, ValidHistory, AscendingLists, KeyAt;
  }

  /** One command in any pass, on any histories: each later entry it adds it has authorised. */
  lemma StepAuthorised(o: Oracle, delay: nat, view: nat, pass: Pass, h: Hist, c: Command)
    requires HistOk(h)
    ensures NewAuthorised(o, view, h, c, Step(o, delay, view, pass, h, c))
    ensures Step(o, delay, view, pass, h, c) != h ==> pass == PassOf(c)
  {
    hide HistOk, ReconfigStep, RotationStep, CancelStep, OperatorStep, Authorises;
    match c
    case Reconfigure(cmd) => ReconfigAuthorised(o, delay, view, h, cmd);
    case RotateKey(env) => RotationAuthorised(o, view, h, env);
    case CancelKey(env) => CancelAuthorised(o, view, h, env);
    case OperatorRotateKey(env) => OperatorAuthorised(o, view, h, env);
    case _ =>
  }

  lemma OnlyRotationsAuthorise(o: Oracle, view: nat, m: Hist, c: Command, id: NodeId, e: Entry<NodeId>)
    requires HistOk(m) && Authorises(o, view, m, c, id, e)
    ensures c.RotateKey? || c.OperatorRotateKey?
  {
  }

  /** The first `n` commands of a pass over the last block. */
  lemma {:induction false} PassTraced(o: Oracle, delay: nat, g: Hist, bs: seq<CommittedBlock>, pass: Pass, n: nat)
    requires HistOk(g) && |bs| > 0 && n <= |bs[|bs| - 1].commands|
    requires var b, h := bs[|bs| - 1], ApplyChain(o, delay, g, bs[..|bs| - 1]);
      AllTraced(o, delay, g, bs, AtPass(o, delay, h, b, pass).keys.lists)
    ensures var b, h := bs[|bs| - 1], ApplyChain(o, delay, g, bs[..|bs| - 1]);
      AllTraced(o, delay, g, bs, RunPass(o, delay, b.view, pass, AtPass(o, delay, h, b, pass), b.commands[..n]).keys.lists)
  {
    hide HistOk, Step, Authorises, AtPass, ApplyChain, Traced;
    if n == 0 {
    } else {
      var k, j, b := |bs| - 1, n - 1, bs[|bs| - 1];
      var c := b.commands[j];
      var start := AtPass(o, delay, ApplyChain(o, delay, g, bs[..k]), b, pass);
      PassTraced(o, delay, g, bs, pass, j);
      assert b.commands[..n][..j] == b.commands[..j];
      var m := RunPass(o, delay, b.view, pass, start, b.commands[..j]);
      var r := Step(o, delay, b.view, pass, m, c);
      assert r == RunPass(o, delay, b.view, pass, start, b.commands[..n]);
      StepAuthorised(o, delay, b.view, pass, m, c);
      forall id, i | id in r.keys.lists && 0 < i < |r.keys.lists[id]|
        ensures Traced(o, delay, g, bs, id, r.keys.lists[id][i])
      {
        if !(id in m.keys.lists && i < |m.keys.lists[id]| && m.keys.lists[id][i] == r.keys.lists[id][i]) {
          OnlyRotationsAuthorise(o, b.view, m, c, id, r.keys.lists[id][i]);
          TraceHere(o, delay, g, bs, k, j, id, r.keys.lists[id][i]);
        }
      }
    }
  }

  lemma TraceHere(o: Oracle, delay: nat, g: Hist, bs: seq<CommittedBlock>, k: nat, j: nat, id: NodeId, e: Entry<NodeId>)
    requires HistOk(g) && TracedTo(o, delay, g, bs, k, j, id, e)
    ensures Traced(o, delay, g, bs, id, e)
  {
    hide TracedTo;
  }

  lemma WholePassTraced(o: Oracle, delay: nat, g: Hist, bs: seq<CommittedBlock>, pass: Pass)
    requires HistOk(g) && |bs| > 0
    requires var b, h := bs[|bs| - 1], ApplyChain(o, delay, g, bs[..|bs| - 1]);
      AllTraced(o, delay, g, bs, AtPass(o, delay, h, b, pass).keys.lists)
    ensures var b, h := bs[|bs| - 1], ApplyChain(o, delay, g, bs[..|bs| - 1]);
      AllTraced(o, delay, g, bs, RunPass(o, delay, b.view, pass, AtPass(o, delay, h, b, pass), b.commands).keys.lists)
  {
    hide HistOk, AllTraced, RunPass, ApplyChain, AtPass;
    var b := bs[|bs| - 1];
    PassTraced(o, delay, g, bs, pass, |b.commands|);
    assert b.commands[..|b.commands|] == b.commands;
  }

  lemma BlockTraced(o: Oracle, delay: nat, g: Hist, bs: seq<CommittedBlock>)
    requires HistOk(g) && |bs| > 0 && AllTraced(o, delay, g, bs, ApplyChain(o, delay, g, bs[..|bs| - 1]).keys.lists)
    ensures AllTraced(o, delay, g, bs, ApplyBlock(o, delay, ApplyChain(o, delay, g, bs[..|bs| - 1]), bs[|bs| - 1]).keys.lists)
  {
    hide HistOk, AllTraced, RunPass, ApplyChain;
    WholePassTraced(o, delay, g, bs, ReconfigPass);
    WholePassTraced(o, delay, g, bs, RotationPass);
    WholePassTraced(o, delay, g, bs, CancelPass);
    WholePassTraced(o, delay, g, bs, OperatorPass);
    WholePassTraced(o, delay, g, bs, OperatorKeyPass);
  }

  /**
   * From a genesis with one key per validator, over every chain, every later key in a validator's list
   * was scheduled by a rotation of that validator in the chain, signed by the key that was then the
   * validator's latest or by its operator's key active in the committing view.
   */
  lemma {:induction false} ChainTraced(o: Oracle, delay: nat, g: Hist, bs: seq<CommittedBlock>)
    requires HistOk(g) && forall id :: id in g.keys.lists ==> |g.keys.lists[id]| == 1
    ensures AllTraced(o, delay, g, bs, ApplyChain(o, delay, g, bs).keys.lists)
  {
    hide HistOk, ApplyBlock, Traced;
    if bs == [] {
    } else {
      var front := bs[..|bs| - 1];
      ChainTraced(o, delay, g, front);
      TracedStill(o, delay, g, front, bs, ApplyChain(o, delay, g, front).keys.lists);
      BlockTraced(o, delay, g, bs);
    }
  }
}
