/** What a restart makes of the histories a node has persisted while running. */
module Restart {
  import opened Common
  import opened ValidatorSets
  import opened SetHistory
  import opened KeyHistories
  import opened Reconfig
  import opened Histories
  import opened Lockstep
  import opened Rebuild
  import opened LiveHistory
  import KeyIndex

  // ---------------------------------------------------------------------------
  // The seeds of a live history

  lemma {:induction false} LivePassGrown(o: Oracle, delay: nat, view: nat, pass: Pass, g: Hist, h: Hist, cs: seq<Command>)
    requires HistOk(h) && GrownFrom(g, h)
    ensures GrownFrom(g, LivePass(o, delay, view, pass, h, cs))
  {
    hide HistOk, OptGrown, Step;
    if cs == [] {
    } else {
      var m := LivePass(o, delay, view, pass, h, cs[..|cs| - 1]);
      LivePassGrown(o, delay, view, pass, g, h, cs[..|cs| - 1]);
      StepGrown(o, delay, view, pass, g, m, cs[|cs| - 1]);
    }
  }

  lemma LiveBlockGrown(o: Oracle, delay: nat, g: Hist, h: Hist, b: CommittedBlock)
    requires HistOk(h) && GrownFrom(g, h)
    ensures GrownFrom(g, LiveBlock(o, delay, h, b))
  {
    hide HistOk, GrownFrom, LivePass;
    var h1 := LivePass(o, delay, b.view, ReconfigPass, h, b.commands);
    var h2 := LivePass(o, delay, b.view, RotationPass, h1, b.commands);
    var h3 := LivePass(o, delay, b.view, CancelPass, h2, b.commands);
    var h4 := LivePass(o, delay, b.view, OperatorPass, h3, b.commands);
    LivePassGrown(o, delay, b.view, ReconfigPass, g, h, b.commands);
    LivePassGrown(o, delay, b.view, RotationPass, g, h1, b.commands);
    LivePassGrown(o, delay, b.view, CancelPass, g, h2, b.commands);
    LivePassGrown(o, delay, b.view, OperatorPass, g, h3, b.commands);
    LivePassGrown(o, delay, b.view, OperatorKeyPass, g, h4, b.commands);
  }

  lemma {:induction false} LiveChainGrown(o: Oracle, delay: nat, g: Hist, bs: seq<CommittedBlock>)
    requires HistOk(g) && IsGenesis(g)
    ensures GrownFrom(g, LiveChain(o, delay, g, bs))
  {
    hide HistOk, LiveBlock;
    if bs == [] {
    } else {
      LiveChainGrown(o, delay, g, bs[..|bs| - 1]);
      LiveBlockGrown(o, delay, g, LiveChain(o, delay, g, bs[..|bs| - 1]), bs[|bs| - 1]);
    }
  }

  /** For every chain, the seeds read out of the live histories are exactly the genesis histories. */
  lemma SeedsOfLive(o: Oracle, delay: nat, g: Hist, bs: seq<CommittedBlock>)
    requires HistOk(g) && IsGenesis(g)
    ensures Seeds(LiveChain(o, delay, g, bs)) == g
  {
    hide LiveChain;
    LiveChainGrown(o, delay, g, bs);
    SeedsAreGenesis(g, LiveChain(o, delay, g, bs));
  }

  // ---------------------------------------------------------------------------
  // Stamps

  /**
   * Block `i` claims what `compute_post_block_commitment` gives on the histories of a node that has
   * committed the first `applied[i]` blocks. A leader stamps its proposal on its committed histories, so
   * `applied[i]` is at most `i`, and less than `i` while ancestors of the block are not committed yet.
   */
  predicate StampedOn(o: Oracle, delay: nat, commit: Covered -> nat, g: Hist, chain: seq<StoredBlock>, applied: seq<nat>)
    requires HistOk(g)
  {
    && |applied| == |chain|
    && forall i :: 0 <= i < |chain| ==>
         && applied[i] <= i
         && chain[i].claimed == commit(Cover(ApplyBlock(o, delay, LiveChain(o, delay, g, Blocks(chain)[..applied[i]]), chain[i].block)))
  }

  /** The block does to the histories at its stamp what it does to those of all its ancestors. */
  predicate StampCurrent(o: Oracle, delay: nat, commit: Covered -> nat, g: Hist, chain: seq<StoredBlock>, applied: nat, i: nat)
    requires HistOk(g) && applied <= i < |chain|
  {
    commit(Cover(ApplyBlock(o, delay, ApplyChain(o, delay, g, Blocks(chain)[..applied]), chain[i].block)))
      == commit(Cover(ApplyBlock(o, delay, ApplyChain(o, delay, g, Blocks(chain)[..i]), chain[i].block)))
  }

  ghost predicate Injective(commit: Covered -> nat) { forall a, b :: commit(a) == commit(b) ==> a == b }

  lemma {:induction false} KnownPrefix(o: Oracle, delay: nat, g: Hist, bs: seq<CommittedBlock>, i: nat)
    requires HistOk(g) && ChainKnown(o, delay, g, bs) && i <= |bs|
    ensures ChainKnown(o, delay, g, bs[..i])
    decreases |bs|
  {
    hide HistOk, PassKnown;
    if i == |bs| {
      assert bs[..i] == bs;
    } else {
      assert bs[..|bs| - 1][..i] == bs[..i];
      KnownPrefix(o, delay, g, bs[..|bs| - 1], i);
    }
  }

  /** With known members at the stamp, a claim holds exactly when the stamp is current. */
  lemma KnownClaimIff(o: Oracle, delay: nat, commit: Covered -> nat, g: Hist, chain: seq<StoredBlock>, applied: seq<nat>, i: nat)
    requires HistOk(g) && StampedOn(o, delay, commit, g, chain, applied) && i < |chain|
    requires ChainKnown(o, delay, g, Blocks(chain)[..applied[i]])
    ensures ClaimHolds(o, delay, commit, g, chain, i) <==> StampCurrent(o, delay, commit, g, chain, applied[i], i)
  {
    hide HistOk, ChainKnown, LiveChain, ApplyBlock;
    var bs := Blocks(chain);
    LiveEqualsFoldIff(o, delay, g, bs[..applied[i]]);
    assert bs[..i + 1][..i] == bs[..i];
  }

  /** A block without history commands. */
  predicate NoCommands(b: CommittedBlock) { forall j :: 0 <= j < |b.commands| ==> b.commands[j].Other? }

  lemma {:induction false} OthersDoNothing(o: Oracle, delay: nat, view: nat, pass: Pass, h: Hist, cs: seq<Command>)
    requires HistOk(h) && forall j :: 0 <= j < |cs| ==> cs[j].Other?
    ensures RunPass(o, delay, view, pass, h, cs) == h
  {
    hide HistOk;
    if cs == [] {
    } else {
      OthersDoNothing(o, delay, view, pass, h, cs[..|cs| - 1]);
    }
  }

  lemma NoCommandsNoChange(o: Oracle, delay: nat, h: Hist, b: CommittedBlock)
    requires HistOk(h) && NoCommands(b)
    ensures ApplyBlock(o, delay, h, b) == h
  {
    hide HistOk, RunPass;
    OthersDoNothing(o, delay, b.view, ReconfigPass, h, b.commands);
    OthersDoNothing(o, delay, b.view, RotationPass, h, b.commands);
    OthersDoNothing(o, delay, b.view, CancelPass, h, b.commands);
    OthersDoNothing(o, delay, b.view, OperatorPass, h, b.commands);
    OthersDoNothing(o, delay, b.view, OperatorKeyPass, h, b.commands);
  }

  /**
   * The claim of a block without history commands holds if and only if no ancestor added an unknown
   * validator and the ancestors not yet committed at its stamp leave the covered histories as they were.
   */
  lemma QuietClaimIff(o: Oracle, delay: nat, commit: Covered -> nat, g: Hist, chain: seq<StoredBlock>, applied: seq<nat>, i: nat)
    requires HistOk(g) && Injective(commit) && StampedOn(o, delay, commit, g, chain, applied) && i < |chain|
    requires NoCommands(chain[i].block)
    ensures ClaimHolds(o, delay, commit, g, chain, i) <==>
      && ChainKnown(o, delay, g, Blocks(chain)[..i])
      && Cover(ApplyChain(o, delay, g, Blocks(chain)[..applied[i]])) == Cover(ApplyChain(o, delay, g, Blocks(chain)[..i]))
  {
    hide HistOk, ChainKnown, LiveChain, ApplyBlock;
    var bs, c := Blocks(chain), applied[i];
    assert bs[..i + 1][..i] == bs[..i] && bs[..i][..c] == bs[..c];
    NoCommandsNoChange(o, delay, LiveChain(o, delay, g, bs[..c]), chain[i].block);
    NoCommandsNoChange(o, delay, ApplyChain(o, delay, g, bs[..i]), chain[i].block);
    assert ClaimHolds(o, delay, commit, g, chain, i) <==>
      Cover(LiveChain(o, delay, g, bs[..c])) == Cover(ApplyChain(o, delay, g, bs[..i]));
    if ChainKnown(o, delay, g, bs[..i]) {
      KnownPrefix(o, delay, g, bs[..i], c);
      LiveEqualsFoldIff(o, delay, g, bs[..c]);
    } else {
      ChainLiveOrGrows(o, delay, g, bs[..i]);
      LiveListsFixed(o, delay, g, bs[..c]);
    }
  }

  /**
   * A receiver that has committed the first `n` blocks recomputes the claim of a proposal on its own
   * histories. It finds the stamp of a block without history commands right if and only if its
   * covered histories are those of the leader.
   */
  lemma QuietStampAcceptedIff(o: Oracle, delay: nat, commit: Covered -> nat, g: Hist, chain: seq<StoredBlock>, applied: seq<nat>, i: nat, n: nat)
    requires HistOk(g) && Injective(commit) && StampedOn(o, delay, commit, g, chain, applied) && i < |chain| && n <= i
    requires NoCommands(chain[i].block)
    ensures
      chain[i].claimed == commit(Cover(ApplyBlock(o, delay, LiveChain(o, delay, g, Blocks(chain)[..n]), chain[i].block))) <==>
      Cover(LiveChain(o, delay, g, Blocks(chain)[..n])) == Cover(LiveChain(o, delay, g, Blocks(chain)[..applied[i]]))
  {
    hide HistOk, LiveChain, ApplyBlock, Cover, NoCommands;
    NoCommandsNoChange(o, delay, LiveChain(o, delay, g, Blocks(chain)[..n]), chain[i].block);
    NoCommandsNoChange(o, delay, LiveChain(o, delay, g, Blocks(chain)[..applied[i]]), chain[i].block);
  }

  /** Exactly indexed histories with the same persisted forms are equal. */
  lemma SameCoverSameHist(a: Hist, b: Hist)
    requires KeyIndex.Indexed(a.keys) && KeyIndex.Indexed(b.keys) && Cover(a) == Cover(b) && (a.ops.Some? <==> b.ops.Some?)
    ensures a == b
  {
    hide KeysOk, ExactIndex;
    ExactIndexDetermined(a.keys, b.keys);
  }

  /** Whatever the block carries, its claim holds if the ancestors not yet committed at its stamp leave the covered histories alone. */
  lemma UntouchedClaimHolds(o: Oracle, delay: nat, commit: Covered -> nat, g: Hist, chain: seq<StoredBlock>, applied: seq<nat>, i: nat)
    requires HistOk(g) && StampedOn(o, delay, commit, g, chain, applied) && i < |chain|
    requires ChainKnown(o, delay, g, Blocks(chain)[..applied[i]])
    requires var c, all := ApplyChain(o, delay, g, Blocks(chain)[..applied[i]]), ApplyChain(o, delay, g, Blocks(chain)[..i]);
      Cover(c) == Cover(all) && (c.ops.Some? <==> all.ops.Some?) && KeyIndex.Indexed(c.keys) && KeyIndex.Indexed(all.keys)
    ensures ClaimHolds(o, delay, commit, g, chain, i)
  {
    hide HistOk, ChainKnown, ApplyChain, ApplyBlock, ClaimHolds, StampedOn, KeyIndex.Indexed;
    StampBound(o, delay, commit, g, chain, applied, i);
    SameCoverSameHist(ApplyChain(o, delay, g, Blocks(chain)[..applied[i]]), ApplyChain(o, delay, g, Blocks(chain)[..i]));
    KnownClaimIff(o, delay, commit, g, chain, applied, i);
  }

  lemma StampBound(o: Oracle, delay: nat, commit: Covered -> nat, g: Hist, chain: seq<StoredBlock>, applied: seq<nat>, i: nat)
    requires HistOk(g) && StampedOn(o, delay, commit, g, chain, applied) && i < |chain|
    ensures |applied| == |chain| && applied[i] <= i
  {
  }

  // ---------------------------------------------------------------------------
  // The check after a restart

  /** With an unknown member on the chain no claims help: the live key lists differ from the rebuild. */
  lemma UnknownNeverPasses(o: Oracle, delay: nat, commit: Covered -> nat, g: Hist, chain: seq<StoredBlock>)
    requires HistOk(g) && IsGenesis(g) && !ChainKnown(o, delay, g, Blocks(chain))
    ensures !Passes(o, delay, commit, LiveChain(o, delay, g, Blocks(chain)), chain)
  {
    hide HistOk, IsGenesis, ChainKnown, LiveChain, ApplyChain, ClaimHolds, Seeds;
    SeedsOfLive(o, delay, g, Blocks(chain));
    LiveEqualsFoldIff(o, delay, g, Blocks(chain));
  }

  ghost predicate AllCurrent(o: Oracle, delay: nat, commit: Covered -> nat, g: Hist, chain: seq<StoredBlock>, applied: seq<nat>)
    requires HistOk(g) && StampedOn(o, delay, commit, g, chain, applied)
  {
    forall i :: 0 <= i < |chain| ==> StampCurrent(o, delay, commit, g, chain, applied[i], i)
  }

  /**
   * A node that ran from genesis and stored its key history passes the check after a restart if and
   * only if no accepted reconfiguration added a validator that the key history did not know, and every
   * block does to the histories at its stamp what it does to those of all its ancestors.
   */
  lemma RestartPassesIff(o: Oracle, delay: nat, commit: Covered -> nat, g: Hist, chain: seq<StoredBlock>, applied: seq<nat>)
    requires HistOk(g) && IsGenesis(g) && StampedOn(o, delay, commit, g, chain, applied)
    ensures Passes(o, delay, commit, LiveChain(o, delay, g, Blocks(chain)), chain) <==>
      ChainKnown(o, delay, g, Blocks(chain)) && AllCurrent(o, delay, commit, g, chain, applied)
  {
    hide HistOk, IsGenesis, ChainKnown, LiveChain, ApplyChain, StampedOn, ClaimHolds, Seeds, StampCurrent;
    var bs := Blocks(chain);
    SeedsOfLive(o, delay, g, bs);
    LiveEqualsFoldIff(o, delay, g, bs);
    if ChainKnown(o, delay, g, bs) {
      forall i | 0 <= i < |chain|
        ensures |applied| == |chain| && applied[i] <= i
        ensures ClaimHolds(o, delay, commit, g, chain, i) <==> StampCurrent(o, delay, commit, g, chain, applied[i], i)
      {
        StampBound(o, delay, commit, g, chain, applied, i);
        KnownPrefix(o, delay, g, bs, applied[i]);
        KnownClaimIff(o, delay, commit, g, chain, applied, i);
      }
    }
  }

  /** With every block stamped on all its ancestors, known members alone decide. */
  lemma RestartPassesWhenApplied(o: Oracle, delay: nat, commit: Covered -> nat, g: Hist, chain: seq<StoredBlock>, applied: seq<nat>)
    requires HistOk(g) && IsGenesis(g) && StampedOn(o, delay, commit, g, chain, applied)
    requires forall i :: 0 <= i < |chain| ==> applied[i] == i
    ensures Passes(o, delay, commit, LiveChain(o, delay, g, Blocks(chain)), chain) <==> ChainKnown(o, delay, g, Blocks(chain))
  {
    hide HistOk, IsGenesis, ChainKnown, Passes, LiveChain, ApplyChain, ApplyBlock;
    RestartPassesIff(o, delay, commit, g, chain, applied);
  }

  /**
   * If every block is stamped on all its ancestors or carries no history command, the check passes if
   * and only if no unknown validator is added and, for the blocks without commands, the ancestors not
   * yet committed at the stamp leave the covered histories as they were.
   */
  lemma QuietOrAppliedPassesIff(o: Oracle, delay: nat, commit: Covered -> nat, g: Hist, chain: seq<StoredBlock>, applied: seq<nat>)
    requires HistOk(g) && IsGenesis(g) && Injective(commit) && StampedOn(o, delay, commit, g, chain, applied)
    requires forall i :: 0 <= i < |chain| ==> applied[i] == i || NoCommands(chain[i].block)
    ensures Passes(o, delay, commit, LiveChain(o, delay, g, Blocks(chain)), chain) <==>
      && ChainKnown(o, delay, g, Blocks(chain))
      && forall i :: 0 <= i < |chain| ==>
           Cover(ApplyChain(o, delay, g, Blocks(chain)[..applied[i]])) == Cover(ApplyChain(o, delay, g, Blocks(chain)[..i]))
  {
    hide HistOk, IsGenesis, ChainKnown, Passes, LiveChain, ApplyChain, ApplyBlock, NoCommands, Cover;
    RestartPassesIff(o, delay, commit, g, chain, applied);
    forall i | 0 <= i < |chain|
      ensures StampCurrent(o, delay, commit, g, chain, applied[i], i) <==>
        Cover(ApplyChain(o, delay, g, Blocks(chain)[..applied[i]])) == Cover(ApplyChain(o, delay, g, Blocks(chain)[..i]))
    {
      if applied[i] != i {
        NoCommandsNoChange(o, delay, ApplyChain(o, delay, g, Blocks(chain)[..applied[i]]), chain[i].block);
        NoCommandsNoChange(o, delay, ApplyChain(o, delay, g, Blocks(chain)[..i]), chain[i].block);
      }
    }
  }

  /**
   * With an injective commitment, one block without history commands that was stamped while an
   * ancestor that changes the covered histories was not committed fails every restart.
   */
  lemma StaleStampFailsRestart(o: Oracle, delay: nat, commit: Covered -> nat, g: Hist, chain: seq<StoredBlock>, applied: seq<nat>, i: nat)
    requires HistOk(g) && IsGenesis(g) && Injective(commit) && StampedOn(o, delay, commit, g, chain, applied) && i < |chain|
    requires NoCommands(chain[i].block)
    requires Cover(ApplyChain(o, delay, g, Blocks(chain)[..applied[i]])) != Cover(ApplyChain(o, delay, g, Blocks(chain)[..i]))
    ensures !Passes(o, delay, commit, LiveChain(o, delay, g, Blocks(chain)), chain)
  {
    hide HistOk, IsGenesis, ChainKnown, LiveChain, ApplyChain, ClaimHolds, Seeds, NoCommands, StampedOn, Cover;
    QuietClaimIff(o, delay, commit, g, chain, applied, i);
    SeedsOfLive(o, delay, g, Blocks(chain));
  }

  /**
   * Whatever has been stored: with the genesis entries intact and every claim true of the fold, the
   * check passes if and only if the stored sets, signing keys and BLS keys are those of the fold.
   */
  lemma StoredPassesIff(o: Oracle, delay: nat, commit: Covered -> nat, g: Hist, stored: Hist, chain: seq<StoredBlock>)
    requires HistOk(g) && IsGenesis(g) && HistOk(stored) && GrownFrom(g, stored)
    requires forall i :: 0 <= i < |chain| ==> ClaimHolds(o, delay, commit, g, chain, i)
    ensures Passes(o, delay, commit, stored, chain) <==>
      var fold := ApplyChain(o, delay, g, Blocks(chain));
      stored.sets == fold.sets && stored.keys.lists == fold.keys.lists && stored.bls == fold.bls
  {
    hide HistOk, IsGenesis, GrownFrom, ApplyChain, ClaimHolds, Seeds;
    SeedsAreGenesis(g, stored);
  }

  // ---------------------------------------------------------------------------
  // Lockstep of the live histories

  /**
   * From a live state in lockstep, an accepted reconfiguration stays in lockstep if and only if every
   * member of the new set already has a key list.
   */
  lemma LiveLockstepIff(o: Oracle, delay: nat, view: nat, h: Hist, cmd: ReconfigCommand, vs: ValidatorSet)
    requires HistOk(h) && InLockstep(h) && MembersKnown(h) && NextSet(o, delay, view, h, cmd) == Some(vs)
    ensures InLockstep(LiveStep(o, delay, view, ReconfigPass, h, Reconfigure(cmd))) <==>
      forall id :: id in vs.members ==> id in h.keys.lists
  {
    hide HistOk, AddMembers, RegisterAdds, SameVEffs, NextSet;
    var b, items := h.bls.value, BlsItems(cmd.adds);
    RegisterAddsExact(b, items, vs.members, cmd.vEff);
    var r := RegisterAdds(b, items, vs.members, cmd.vEff);
    if id :| id in vs.members && id !in h.keys.lists {
      NewMembersAreAdds(o, delay, view, h, cmd, vs, id);
      UnknownIsNew(h, view, id);
      assert id in r;
    } else {
      assert r.Keys == b.Keys;
      assert r == b;
    }
  }

  lemma UnknownIsNew(h: Hist, view: nat, id: NodeId)
    requires HistOk(h) && MembersKnown(h) && id !in h.keys.lists
    ensures id !in SetAt(h.sets, view).members
  {
  }

  // ---------------------------------------------------------------------------
  // A chain that fails: validator 5 is added, then validator 1 rotates its key

  function Four(): ValidatorSet { ValidatorSet([1, 2, 3, 4], [1, 1, 1, 1]) }
  function FourBls(): Lists<nat> { map id | id in Four().members :: [Entry(0, 10 + id)] }
  function Origin(): Hist { Hist([Boundary(0, Four())], GenesisKeys(Four().members), Some(FourBls()), Some(map[])) }

  function AddFive(): ReconfigCommand { ReconfigCommand([AddEntry(5, Some(Pop(15, 0)), 1, None, None)], [], [], 10) }
  function RotateOne(): Rotation { Rotation(1, 9, 10, Some(19), Some(Pop(19, 0))) }

  function AddBlock(): CommittedBlock { CommittedBlock(1, [Reconfigure(AddFive())]) }
  function RotateBlock(): CommittedBlock { CommittedBlock(2, [RotateKey(DualRotation(RotateOne(), 0, 0))]) }

  lemma OriginIsGenesis()
    ensures IsGenesis(Origin())
  {
  }

  lemma OriginSynced()
    ensures Synced(Origin())
  {
  }

  lemma OriginOk()
    ensures IsGenesis(Origin()) && HistOk(Origin()) && Synced(Origin())
  {
    hide IsGenesis, HistOk, Synced, Origin;
    OriginIsGenesis();
    GenesisIsOk(Origin());
    OriginSynced();
  }

  lemma AddFiveChecks()
    ensures CheckCommand(Anyone.checks, AddFive(), Four().members, 1, 0).None?
  {
    assert AddFive().adds[..0] == [];
    assert AddIds(AddFive().adds) == [5] && AddPairs(AddFive().adds) == [(5, 1)];
  }

  lemma {:induction false} NothingRemoved(ps: seq<(NodeId, nat)>)
    ensures Kept(ps, []) == ps
  {
    if ps == [] {
    } else {
      NothingRemoved(ps[..|ps| - 1]);
      assert ps == ps[..|ps| - 1] + [ps[|ps| - 1]];
    }
  }

  lemma AddFiveValid()
    ensures WellFormed(Four()) && Validate(Anyone.checks, AddFive(), Four(), 1, 0).Ok?
  {
    hide CheckCommand, SortById, DedupById, PairsMap, AsMap, Kept;
    AddFiveChecks();
    NextUnsorted(Four(), AddFive(), Anyone.checks, 1, 0);
    NothingRemoved(Pairs(Four()));
    SortOfDistinct(Changed(Kept(Pairs(Four()), []), []) + AddPairs(AddFive().adds));
  }

  /** The command is accepted and installs a set with the new validator in it. */
  lemma AddFiveAccepted() returns (vs: ValidatorSet)
    requires HistOk(Origin())
    ensures NextSet(Anyone, 0, 1, Origin(), AddFive()) == Some(vs) && 5 in vs.members
  {
    hide HistOk, Validate, WithWeights, PairsMap, WellFormed;
    AddFiveValid();
    AcceptedMeans(Anyone.checks, AddFive(), Four(), 1, 0);
    vs := WithWeights(Validate(Anyone.checks, AddFive(), Four(), 1, 0).value).value;
    assert SetAt(Origin().sets, 1) == Four();
    InMap(AddPairs(AddFive().adds), 5);
    assert AddPairs(AddFive().adds)[0].0 == 5;
    MemberOf(vs, 5);
  }

  lemma MemberOf(vs: ValidatorSet, id: NodeId)
    requires WellFormed(vs) && id in AsMap(vs)
    ensures id in vs.members
  {
    MapOfMember(vs, id);
  }

  lemma OneCommandPass(o: Oracle, delay: nat, view: nat, pass: Pass, h: Hist, c: Command)
    requires HistOk(h)
    ensures LivePass(o, delay, view, pass, h, [c]) == if pass == PassOf(c) then LiveStep(o, delay, view, pass, h, c) else h
  {
    hide HistOk, ReconfigStep, RotationStep, CancelStep, OperatorStep, OperatorKeyStep;
    assert [c][..0] == [];
    assert LivePass(o, delay, view, pass, h, []) == h;
  }

  /** A block with one command is that command in its own pass. */
  lemma OneCommandBlock(o: Oracle, delay: nat, view: nat, h: Hist, c: Command)
    requires HistOk(h)
    ensures LiveBlock(o, delay, h, CommittedBlock(view, [c])) == LiveStep(o, delay, view, PassOf(c), h, c)
  {
    hide HistOk, LivePass, LiveStep;
    var r := LiveStep(o, delay, view, PassOf(c), h, c);
    OneCommandPass(o, delay, view, ReconfigPass, h, c);
    var h1 := LivePass(o, delay, view, ReconfigPass, h, [c]);
    OneCommandPass(o, delay, view, RotationPass, h1, c);
    var h2 := LivePass(o, delay, view, RotationPass, h1, [c]);
    OneCommandPass(o, delay, view, CancelPass, h2, c);
    var h3 := LivePass(o, delay, view, CancelPass, h2, [c]);
    OneCommandPass(o, delay, view, OperatorPass, h3, c);
    var h4 := LivePass(o, delay, view, OperatorPass, h3, [c]);
    OneCommandPass(o, delay, view, OperatorKeyPass, h4, c);
  }

  /** After the add the live signing keys are unchanged while the BLS history knows validator 5. */
  lemma AfterAdd()
    requires HistOk(Origin())
    ensures var h := LiveBlock(Anyone, 0, Origin(), AddBlock());
      h.keys == Origin().keys && h.bls.Some? && 5 in h.bls.value
  {
    hide HistOk, LiveBlock, RegisterAdds, AddMembers, NextSet, Origin;
    OneCommandBlock(Anyone, 0, 1, Origin(), Reconfigure(AddFive()));
    var vs := AddFiveAccepted();
    OriginHasBls();
    RegisterAddsExact(Origin().bls.value, BlsItems(AddFive().adds), vs.members, 10);
    assert BlsItems(AddFive().adds)[0] == (5, Some(15));
    assert HasItem(BlsItems(AddFive().adds), 5);
  }

  lemma OriginHasBls()
    ensures Origin().bls.Some? && 5 !in Origin().keys.lists && 5 !in Origin().keys.owner
    ensures Origin().keys.lists.Keys == {1, 2, 3, 4} && Origin().keys.lists[1] == [Entry(0, 1)]
    ensures 1 in Origin().keys.owner && Origin().keys.owner[1] == 1 && 9 !in Origin().keys.owner
  {
  }

  /** The rotation is applied to live signing keys that are still those of genesis. */
  lemma AfterRotate(h: Hist)
    requires HistOk(h) && h.keys == Origin().keys && h.bls.Some? && 5 in h.bls.value
    ensures var r := LiveBlock(Anyone, 0, h, RotateBlock());
      && 1 in r.keys.lists && r.keys.lists[1] == [Entry(0, 1), Entry(10, 9)]
      && r.bls.Some? && 5 in r.bls.value
  {
    hide HistOk, LiveBlock, Origin;
    OriginHasBls();
    OneCommandBlock(Anyone, 0, 2, h, RotateKey(DualRotation(RotateOne(), 0, 0)));
    KeysOkOf(h);
    RotateApplies(h);
  }

  lemma KeysOkOf(h: Hist)
    requires HistOk(h)
    ensures KeysOk(h.keys)
  {
  }

  lemma RotateApplies(h: Hist)
    requires HistOk(h) && KeysOk(h.keys) && h.bls.Some?
    requires 1 in h.keys.owner && h.keys.owner[1] == 1 && 9 !in h.keys.owner && 1 in h.keys.lists
    requires h.keys.lists[1] == [Entry(0, 1)]
    ensures var r := RotationStep(Anyone, 2, h, DualRotation(RotateOne(), 0, 0));
      && 1 in r.keys.lists && r.keys.lists[1] == [Entry(0, 1), Entry(10, 9)]
      && r.bls.Some? && h.bls.value.Keys <= r.bls.value.Keys
  {
    hide HistOk, KeysOk;
  }

  lemma AddIsUnknown()
    requires HistOk(Origin())
    ensures !ChainKnown(Anyone, 0, Origin(), [AddBlock(), RotateBlock()])
  {
    hide HistOk, NextSet, Origin, Step;
    var c := Reconfigure(AddFive());
    var vs := AddFiveAccepted();
    OriginHasBls();
    assert [c][..0] == [] && [AddBlock()][..0] == [] && [AddBlock(), RotateBlock()][..1] == [AddBlock()];
    assert !KnownMembers(Origin().keys, vs.members);
    assert !StepKnown(Anyone, 0, 1, ReconfigPass, Origin(), c);
    assert RunPass(Anyone, 0, 1, ReconfigPass, Origin(), []) == Origin();
    assert !PassKnown(Anyone, 0, 1, ReconfigPass, Origin(), [c]);
    assert !ChainKnown(Anyone, 0, Origin(), [AddBlock()]);
  }

  /**
   * One accepted add, one accepted rotation and a restart: the live histories miss the added
   * validator's key list, so they are out of lockstep, differ from the fold, and fail the check.
   */
  lemma AddThenRotateFailsRestart(commit: Covered -> nat, chain: seq<StoredBlock>)
    requires HistOk(Origin()) && Blocks(chain) == [AddBlock(), RotateBlock()]
    ensures IsGenesis(Origin()) && Synced(Origin())
    ensures var live := LiveChain(Anyone, 0, Origin(), [AddBlock(), RotateBlock()]);
      && 1 in live.keys.lists && live.keys.lists[1] == [Entry(0, 1), Entry(10, 9)]
      && !InLockstep(live) && !Passes(Anyone, 0, commit, live, chain)
  {
    hide HistOk, IsGenesis, Synced, Passes, LiveBlock, Origin, AddBlock, RotateBlock, ChainKnown;
    OriginOk();
    OriginHasBls();
    var bs := [AddBlock(), RotateBlock()];
    assert bs[..1] == [AddBlock()] && [AddBlock()][..0] == [];
    assert LiveChain(Anyone, 0, Origin(), []) == Origin();
    var h := LiveBlock(Anyone, 0, Origin(), AddBlock());
    assert LiveChain(Anyone, 0, Origin(), [AddBlock()]) == h;
    AfterAdd();
    AfterRotate(h);
    LiveListsFixed(Anyone, 0, Origin(), bs);
    AddIsUnknown();
    UnknownNeverPasses(Anyone, 0, commit, Origin(), chain);
  }

  // ---------------------------------------------------------------------------
  // A stamp made before the parent is committed

  function EmptyBlock(): CommittedBlock { CommittedBlock(3, []) }

  /** Applied to genesis, the rotation block changes the covered key lists. */
  lemma RotateChangesCover()
    requires HistOk(Origin())
    ensures ChainKnown(Anyone, 0, Origin(), [RotateBlock()])
    ensures Cover(ApplyChain(Anyone, 0, Origin(), [RotateBlock()])) != Cover(Origin())
  {
    hide HistOk, Step, Origin, LiveBlock, ApplyBlock;
    OriginHasBls();
    var c := RotateBlock().commands[0];
    assert RotateBlock().commands == [c] && [c][..0] == [] && [RotateBlock()][..0] == [];
    assert ApplyChain(Anyone, 0, Origin(), []) == Origin() == LiveChain(Anyone, 0, Origin(), []);
    assert StepKnown(Anyone, 0, 2, ReconfigPass, Origin(), c);
    assert PassKnown(Anyone, 0, 2, ReconfigPass, Origin(), []);
    assert PassKnown(Anyone, 0, 2, ReconfigPass, Origin(), [c]);
    BlockLiveOrGrows(Anyone, 0, Origin(), RotateBlock());
    RotatedOrigin();
  }

  lemma RotatedOrigin()
    requires HistOk(Origin())
    ensures var r := LiveBlock(Anyone, 0, Origin(), RotateBlock());
      1 in r.keys.lists && r.keys.lists[1] != Origin().keys.lists[1] && 1 in Origin().keys.lists
  {
    hide HistOk, LiveBlock, Origin;
    OriginHasBls();
    OneCommandBlock(Anyone, 0, 2, Origin(), RotateKey(DualRotation(RotateOne(), 0, 0)));
    KeysOkOf(Origin());
    RotateApplies(Origin());
  }

  /**
   * One accepted rotation, then an empty block stamped before the rotation is committed: no validator
   * is added, the live histories equal the fold, and the check still fails at the second claim.
   */
  lemma StampBeforeCommitFailsRestart(commit: Covered -> nat, chain: seq<StoredBlock>)
    requires HistOk(Origin()) && Injective(commit) && Blocks(chain) == [RotateBlock(), EmptyBlock()]
    requires StampedOn(Anyone, 0, commit, Origin(), chain, [0, 0])
    ensures IsGenesis(Origin()) && ChainKnown(Anyone, 0, Origin(), Blocks(chain))
    ensures LiveChain(Anyone, 0, Origin(), Blocks(chain)) == ApplyChain(Anyone, 0, Origin(), Blocks(chain))
    ensures !ClaimHolds(Anyone, 0, commit, Origin(), chain, 1)
    ensures !Passes(Anyone, 0, commit, LiveChain(Anyone, 0, Origin(), Blocks(chain)), chain)
  {
    hide HistOk, IsGenesis, Synced, Origin, RotateBlock, ApplyBlock, LiveBlock, StampedOn, ClaimHolds, Injective;
    OriginOk();
    RotateChangesCover();
    var bs := Blocks(chain);
    assert |chain| == |bs| == 2 && chain[1].block == bs[1];
    assert bs[..1] == [RotateBlock()] && bs[..0] == [];
    assert ApplyChain(Anyone, 0, Origin(), []) == Origin();
    QuietClaimIff(Anyone, 0, commit, Origin(), chain, [0, 0], 1);
    LiveEqualsFoldIff(Anyone, 0, Origin(), bs);
    SeedsOfLive(Anyone, 0, Origin(), bs);
  }

  // ---------------------------------------------------------------------------
  // A stale stamp on a block with commands can still hold

  function RotateAgain(): CommittedBlock { CommittedBlock(3, RotateBlock().commands) }

  /** Once a rotation is applied, the same command changes nothing in any later view. */
  lemma RepeatIsRefused(o: Oracle, first: nat, again: nat, h: Hist, env: DualRotation)
    requires HistOk(h) && HistOk(RotationStep(o, first, h, env)) && RotationStep(o, first, h, env) != h
    ensures var r := RotationStep(o, first, h, env);
      RotationStep(o, again, r, env) == r
  {
    hide SchemeConsistent, AppendBls, ValidHistory, AscendingLists;
  }

  /** A block with one rotation, on any histories. */
  lemma RotationBlock(o: Oracle, delay: nat, h: Hist, view: nat, env: DualRotation)
    requires HistOk(h)
    ensures ApplyBlock(o, delay, h, CommittedBlock(view, [RotateKey(env)])) == RotationStep(o, view, h, env)
  {
    hide HistOk, Step, RotationStep, LiveBlock, ApplyBlock;
    var c := RotateKey(env);
    assert [c][..0] == [];
    assert PassKnown(o, delay, view, ReconfigPass, h, []);
    assert StepKnown(o, delay, view, ReconfigPass, h, c);
    assert PassKnown(o, delay, view, ReconfigPass, h, [c]);
    BlockLiveOrGrows(o, delay, h, CommittedBlock(view, [c]));
    OneCommandBlock(o, delay, view, h, c);
    RotationStepIs(o, delay, view, h, env);
  }

  lemma RotationStepIs(o: Oracle, delay: nat, view: nat, h: Hist, env: DualRotation)
    requires HistOk(h)
    ensures LiveStep(o, delay, view, RotationPass, h, RotateKey(env)) == RotationStep(o, view, h, env)
  {
    hide HistOk, RotationStep;
  }

  /** Two views before a rotation takes effect it has the same effect in either. */
  lemma SameInEitherView(h: Hist, env: DualRotation)
    requires HistOk(h) && env.payload.vEff == 10
    ensures RotationStep(Anyone, 3, h, env) == RotationStep(Anyone, 2, h, env)
  {
    hide HistOk, KeysOk, SchemeConsistent, AppendBls;
  }

  /**
   * The same accepted rotation in two blocks, both stamped on genesis: the first changes the covered
   * histories, yet the second claim holds, because on its ancestors the repeat is refused. So for a
   * block with commands an untouched cover suffices but is not needed.
   */
  lemma RepeatedRotationClaimHolds(commit: Covered -> nat, chain: seq<StoredBlock>)
    requires HistOk(Origin()) && Blocks(chain) == [RotateBlock(), RotateAgain()]
    requires StampedOn(Anyone, 0, commit, Origin(), chain, [0, 0])
    ensures Cover(ApplyChain(Anyone, 0, Origin(), Blocks(chain)[..1])) != Cover(Origin())
    ensures ClaimHolds(Anyone, 0, commit, Origin(), chain, 1)
  {
    hide HistOk, IsGenesis, Synced, Origin, RotateOne, ApplyBlock, LiveBlock, StampedOn, ClaimHolds, Cover, RotationStep;
    var env := DualRotation(RotateOne(), 0, 0);
    var bs := Blocks(chain);
    RotateChangesCover();
    assert |chain| == |bs| == 2 && chain[1].block == bs[1];
    assert bs[..1] == [RotateBlock()] && bs[..0] == [] && [RotateBlock()][..0] == [];
    assert ApplyChain(Anyone, 0, Origin(), []) == Origin();
    RotationBlock(Anyone, 0, Origin(), 2, env);
    var r := ApplyBlock(Anyone, 0, Origin(), RotateBlock());
    assert ApplyChain(Anyone, 0, Origin(), [RotateBlock()]) == r;
    RotationBlock(Anyone, 0, Origin(), 3, env);
    RotationBlock(Anyone, 0, r, 3, env);
    RotatesAtTen(env);
    SameInEitherView(Origin(), env);
    RepeatIsRefused(Anyone, 2, 3, Origin(), env);
    KnownClaimIff(Anyone, 0, commit, Origin(), chain, [0, 0], 1);
  }

  lemma RotatesAtTen(env: DualRotation)
    requires env.payload == RotateOne()
    ensures env.payload.vEff == 10
  {
  }
}
