/**
 * Rebuilding the histories after a restart (`consensus_node/persistence.rs`): genesis seeds are read
 * out of the loaded histories, the stored chain is folded over them, and the result is compared.
 */
module Rebuild {
  import opened Common
  import opened ValidatorSets
  import opened SetHistory
  import opened KeyHistories
  import opened Reconfig
  import opened Histories

  // ---------------------------------------------------------------------------
  // Seeds

  /** The entries in force from view 0. */
  function ZeroEntries<K>(es: seq<Entry<K>>): seq<Entry<K>> {
    if es == [] then [] else if es[0].vEff == 0 then [es[0]] + ZeroEntries(es[1..]) else ZeroEntries(es[1..])
  }

  /** `genesis_only_bls_seed` and `genesis_only_operator_seed`. */
  function GenesisOnly<K>(h: Lists<K>): Lists<K> {
    map id | id in h && ZeroEntries(h[id]) != [] :: ZeroEntries(h[id])[..1]
  }

  /** The state the rebuild starts from. */
  function Seeds(h: Hist): (r: Hist)
    requires HistOk(h)
    ensures HistOk(r)
  {
    WithWeightsRoundTrip(h.sets[0].vset);
    var genesis := WithWeights(Pairs(h.sets[0].vset)).value;
    Hist([Boundary(0, genesis)], GenesisKeys(genesis.members),
         if h.bls.Some? then Some(GenesisOnly(h.bls.value)) else None,
         if h.ops.Some? then Some(GenesisOnly(h.ops.value)) else None)
  }

  // ---------------------------------------------------------------------------
  // Histories that have grown from a genesis

  /** Every list is a single entry in force from view 0. */
  predicate GenesisLists<K>(g: Lists<K>) {
    forall id :: id in g ==> |g[id]| == 1 && g[id][0].vEff == 0
  }

  predicate IsGenesis(g: Hist) {
    && |g.sets| == 1 && g.sets[0].vEff == 0 && WellFormed(g.sets[0].vset)
    && g.keys == GenesisKeys(g.sets[0].vset.members)
    && (g.bls.Some? ==> GenesisLists(g.bls.value))
    && (g.ops.Some? ==> GenesisLists(g.ops.value))
  }

  lemma GenesisIsOk(g: Hist)
    requires IsGenesis(g)
    ensures HistOk(g)
  {
  }

  /** Genesis entries are still first in their lists, and every other entry is in force later. */
  predicate Grown<K(==)>(g: Lists<K>, h: Lists<K>) {
    && GenesisLists(g)
    && (forall id :: id in g ==> id in h && h[id] != [] && h[id][0] == g[id][0])
    && (forall id, i :: id in h && 0 <= i < |h[id]| && (id !in g || i > 0) ==> h[id][i].vEff > 0)
  }

  predicate OptGrown<K(==)>(g: Option<Lists<K>>, h: Option<Lists<K>>) {
    (g.Some? <==> h.Some?) && (g.Some? ==> Grown(g.value, h.value))
  }

  predicate GrownFrom(g: Hist, h: Hist) {
    && g.sets <= h.sets && OptGrown(g.bls, h.bls) && OptGrown(g.ops, h.ops)
  }

  lemma {:induction false} NoZeroEntries<K>(es: seq<Entry<K>>)
    requires forall i :: 0 <= i < |es| ==> es[i].vEff > 0
    ensures ZeroEntries(es) == []
  {
    if es == [] {
    } else {
      NoZeroEntries(es[1..]);
    }
  }

  /** Filtering a grown history gives the genesis lists back. */
  lemma GenesisOnlyOfGrown<K>(g: Lists<K>, h: Lists<K>)
    requires Grown(g, h)
    ensures GenesisOnly(h) == g
  {
    forall id | id in h ensures ZeroEntries(h[id]) == if id in g then [g[id][0]] else [] {
      if id in g { NoZeroEntries(h[id][1..]); } else { NoZeroEntries(h[id]); }
    }
    forall id | id in g ensures GenesisOnly(h)[id] == g[id] {
      assert g[id] == [g[id][0]];
    }
  }

  /** Whatever the chain did since, the seeds are exactly the genesis histories. */
  lemma SeedsAreGenesis(g: Hist, h: Hist)
    requires IsGenesis(g) && HistOk(h) && GrownFrom(g, h)
    ensures Seeds(h) == g
  {
    assert h.sets[0] == g.sets[0];
    WithWeightsRoundTrip(h.sets[0].vset);
    if g.bls.Some? { GenesisOnlyOfGrown(g.bls.value, h.bls.value); }
    if g.ops.Some? { GenesisOnlyOfGrown(g.ops.value, h.ops.value); }
  }

  // ---------------------------------------------------------------------------
  // Every command keeps a history grown

  lemma {:induction false} RegisterGrown<K>(g: Lists<K>, h: Lists<K>, items: seq<(NodeId, Option<K>)>, members: seq<NodeId>, vEff: nat)
    requires Grown(g, h) && vEff > 0
    ensures Grown(g, RegisterAdds(h, items, members, vEff))
  {
    if items == [] {
    } else {
      RegisterGrown(g, h, items[..|items| - 1], members, vEff);
    }
  }

  lemma ReconfigGrown(o: Oracle, delay: nat, view: nat, g: Hist, h: Hist, cmd: ReconfigCommand)
    requires HistOk(h) && GrownFrom(g, h)
    ensures GrownFrom(g, ReconfigStep(o, delay, view, h, cmd))
  {
    hide Validate, WithWeights, AddMembers, Grown, RegisterAdds;
    var next := NextSet(o, delay, view, h, cmd);
    if next.Some? {
      if g.bls.Some? { RegisterGrown(g.bls.value, h.bls.value, BlsItems(cmd.adds), next.value.members, cmd.vEff); }
      if g.ops.Some? { RegisterGrown(g.ops.value, h.ops.value, OperatorItems(cmd.adds), next.value.members, cmd.vEff); }
    }
  }

  lemma RotateGrown(g: Hist, h: Hist, r: Rotation, view: nat)
    requires HistOk(h) && GrownFrom(g, h)
    ensures GrownFrom(g, RotateBoth(h, r, view))
  {
  }

  lemma CancelGrown(o: Oracle, view: nat, g: Hist, h: Hist, env: RotationCancel)
    requires HistOk(h) && GrownFrom(g, h)
    ensures GrownFrom(g, CancelStep(o, view, h, env))
  {
  }

  lemma OperatorKeyGrown(o: Oracle, view: nat, g: Hist, h: Hist, env: OperatorKeyRotation)
    requires HistOk(h) && GrownFrom(g, h)
    ensures GrownFrom(g, OperatorKeyStep(o, view, h, env))
  {
  }

  lemma StepGrown(o: Oracle, delay: nat, view: nat, pass: Pass, g: Hist, h: Hist, c: Command)
    requires HistOk(h) && GrownFrom(g, h)
    ensures GrownFrom(g, Step(o, delay, view, pass, h, c))
  {
    hide HistOk, GrownFrom, ReconfigStep, RotateBoth, CancelStep, OperatorKeyStep;
    match c
    case Reconfigure(cmd) => ReconfigGrown(o, delay, view, g, h, cmd);
    case RotateKey(env) => RotateGrown(g, h, env.payload, view);
    case CancelKey(env) => CancelGrown(o, view, g, h, env);
    case OperatorRotateKey(env) => RotateGrown(g, h, env.payload, view);
    case RotateOperator(env) => OperatorKeyGrown(o, view, g, h, env);
    case Other =>
  }

  lemma {:induction false} PassGrown(o: Oracle, delay: nat, view: nat, pass: Pass, g: Hist, h: Hist, cs: seq<Command>)
    requires HistOk(h) && GrownFrom(g, h)
    ensures GrownFrom(g, RunPass(o, delay, view, pass, h, cs))
  {
    hide HistOk, GrownFrom, Step;
    if cs == [] {
    } else {
      PassGrown(o, delay, view, pass, g, h, cs[..|cs| - 1]);
      StepGrown(o, delay, view, pass, g, RunPass(o, delay, view, pass, h, cs[..|cs| - 1]), cs[|cs| - 1]);
    }
  }

  lemma BlockGrown(o: Oracle, delay: nat, g: Hist, h: Hist, b: CommittedBlock)
    requires HistOk(h) && GrownFrom(g, h)
    ensures GrownFrom(g, ApplyBlock(o, delay, h, b))
  {
    hide HistOk, GrownFrom, RunPass;
    var h1 := RunPass(o, delay, b.view, ReconfigPass, h, b.commands);
    var h2 := RunPass(o, delay, b.view, RotationPass, h1, b.commands);
    var h3 := RunPass(o, delay, b.view, CancelPass, h2, b.commands);
    var h4 := RunPass(o, delay, b.view, OperatorPass, h3, b.commands);
    PassGrown(o, delay, b.view, ReconfigPass, g, h, b.commands);
    PassGrown(o, delay, b.view, RotationPass, g, h1, b.commands);
    PassGrown(o, delay, b.view, CancelPass, g, h2, b.commands);
    PassGrown(o, delay, b.view, OperatorPass, g, h3, b.commands);
    PassGrown(o, delay, b.view, OperatorKeyPass, g, h4, b.commands);
  }

  lemma {:induction false} ChainGrown(o: Oracle, delay: nat, g: Hist, bs: seq<CommittedBlock>)
    requires HistOk(g) && IsGenesis(g)
    ensures GrownFrom(g, ApplyChain(o, delay, g, bs))
  {
    if bs == [] {
    } else {
      ChainGrown(o, delay, g, bs[..|bs| - 1]);
      BlockGrown(o, delay, g, ApplyChain(o, delay, g, bs[..|bs| - 1]), bs[|bs| - 1]);
    }
  }

  /** For every chain, the seeds read out of the histories its fold produced are exactly the genesis histories. */
  lemma SeedsOfFold(o: Oracle, delay: nat, g: Hist, bs: seq<CommittedBlock>)
    requires HistOk(g) && IsGenesis(g)
    ensures Seeds(ApplyChain(o, delay, g, bs)) == g
  {
    hide ApplyChain;
    ChainGrown(o, delay, g, bs);
    SeedsAreGenesis(g, ApplyChain(o, delay, g, bs));
  }

  // ---------------------------------------------------------------------------
  // The consistency check

  datatype Verdict = Consistent | CommitmentMismatch(index: nat) | SetsDiffer | KeysDiffer | BlsDiffers

  /** What the commitment covers: the persisted forms, without the reverse index. */
  datatype Covered = Covered(sets: seq<Boundary>, keys: Lists<NodeId>, bls: Option<Lists<nat>>, ops: Lists<NodeId>)

  /** `validator_history_commitment_v2`, before hashing: a missing operator history counts as empty. */
  function Cover(h: Hist): Covered {
    Covered(h.sets, h.keys.lists, h.bls, if h.ops.Some? then h.ops.value else map[])
  }

  /** A stored block and the history commitment in its header. */
  datatype StoredBlock = StoredBlock(block: CommittedBlock, claimed: nat)

  function Blocks(chain: seq<StoredBlock>): seq<CommittedBlock> {
    seq(|chain|, i requires 0 <= i < |chain| => chain[i].block)
  }

  /** Block `i` claims the commitment of the histories after the first `i + 1` blocks. */
  predicate ClaimHolds(o: Oracle, delay: nat, commit: Covered -> nat, seed: Hist, chain: seq<StoredBlock>, i: nat)
    requires HistOk(seed) && i < |chain|
  {
    chain[i].claimed == commit(Cover(ApplyChain(o, delay, seed, Blocks(chain)[..i + 1])))
  }

  /** Every claim holds of the rebuild, and the loaded set, key and BLS histories equal it. */
  predicate Passes(o: Oracle, delay: nat, commit: Covered -> nat, loaded: Hist, chain: seq<StoredBlock>)
    requires HistOk(loaded)
  {
    var seed := Seeds(loaded);
    var rebuilt := ApplyChain(o, delay, seed, Blocks(chain));
    && (forall i :: 0 <= i < |chain| ==> ClaimHolds(o, delay, commit, seed, chain, i))
    && loaded.sets == rebuilt.sets && loaded.keys.lists == rebuilt.keys.lists && loaded.bls == rebuilt.bls
  }

  /** The walk of `verify_persisted_history_consistency` over the stored chain. */
  method VerifyPersistedHistory(o: Oracle, delay: nat, commit: Covered -> nat, loaded: Hist, chain: seq<StoredBlock>)
    returns (v: Verdict)
    requires HistOk(loaded)
    ensures v.Consistent? <==> Passes(o, delay, commit, loaded, chain)
    ensures v.CommitmentMismatch? ==>
      && v.index < |chain| && !ClaimHolds(o, delay, commit, Seeds(loaded), chain, v.index)
      && forall i :: 0 <= i < v.index ==> ClaimHolds(o, delay, commit, Seeds(loaded), chain, i)
    ensures !v.CommitmentMismatch? ==> forall i :: 0 <= i < |chain| ==> ClaimHolds(o, delay, commit, Seeds(loaded), chain, i)
    ensures var fold := ApplyChain(o, delay, Seeds(loaded), Blocks(chain));
      && (v.SetsDiffer? ==> loaded.sets != fold.sets)
      && (v.KeysDiffer? ==> loaded.sets == fold.sets && loaded.keys.lists != fold.keys.lists)
      && (v.BlsDiffers? ==> loaded.sets == fold.sets && loaded.keys.lists == fold.keys.lists && loaded.bls != fold.bls)
  {
    hide ApplyBlock, HistOk, Seeds;
    var rebuilt := Seeds(loaded);
    ghost var seed := rebuilt;
    ghost var blocks := Blocks(chain);
    for i := 0 to |chain|
      invariant HistOk(rebuilt) && rebuilt == ApplyChain(o, delay, seed, blocks[..i])
      invariant forall j :: 0 <= j < i ==> ClaimHolds(o, delay, commit, seed, chain, j)
    {
      assert blocks[..i + 1][..i] == blocks[..i];
      rebuilt := ApplyBlock(o, delay, rebuilt, chain[i].block);
      if chain[i].claimed != commit(Cover(rebuilt)) {
        assert !ClaimHolds(o, delay, commit, seed, chain, i);
        return CommitmentMismatch(i);
      }
    }
    assert blocks[..|chain|] == blocks;
    if loaded.sets != rebuilt.sets { return SetsDiffer; }
    if loaded.keys.lists != rebuilt.keys.lists { return KeysDiffer; }
    if loaded.bls != rebuilt.bls { return BlsDiffers; }
    return Consistent;
  }

  /** With an injective commitment, a rebuild that passes every claim is the history the chain had when stamped. */
  lemma {:induction false} PassedClaimsMeanStamped(o: Oracle, delay: nat, commit: Covered -> nat, g: Hist, loaded: Hist, chain: seq<StoredBlock>)
    requires HistOk(g) && HistOk(loaded) && |chain| > 0
    requires forall a, b :: commit(a) == commit(b) ==> a == b
    requires forall i :: 0 <= i < |chain| ==> ClaimHolds(o, delay, commit, g, chain, i)
    requires forall i :: 0 <= i < |chain| ==> ClaimHolds(o, delay, commit, Seeds(loaded), chain, i)
    ensures Cover(ApplyChain(o, delay, Seeds(loaded), Blocks(chain))) == Cover(ApplyChain(o, delay, g, Blocks(chain)))
  {
    hide ApplyChain, HistOk, Seeds;
    var n := |chain| - 1;
    assert Blocks(chain)[..n + 1] == Blocks(chain);
    assert ClaimHolds(o, delay, commit, g, chain, n);
    assert ClaimHolds(o, delay, commit, Seeds(loaded), chain, n);
  }
}
