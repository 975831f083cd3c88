/**
 * The histories a running node carries (`reconfig_apply.rs` and `rotation_apply.rs` of the node): like
 * the fold of the two apply functions, except that an accepted reconfiguration enters no new
 * validator into the signing-key history. Against it stands the fold, which a restart recomputes.
 */
module LiveHistory {
  import opened Common
  import opened ValidatorSets
  import opened SetHistory
  import opened KeyHistories
  import opened Reconfig
  import opened Histories
  import opened Lockstep
  import opened Rebuild

  /** One command on the live histories: a reconfiguration leaves the signing keys alone. */
  function LiveStep(o: Oracle, delay: nat, view: nat, pass: Pass, h: Hist, c: Command): (r: Hist)
    requires HistOk(h)
    ensures HistOk(r)
  {
    StepKeepsOk(o, delay, view, pass, h, c);
    var r := Step(o, delay, view, pass, h, c);
    if pass == ReconfigPass then r.(keys := h.keys) else r
  }

  function LivePass(o: Oracle, delay: nat, view: nat, pass: Pass, h: Hist, cs: seq<Command>): (r: Hist)
    requires HistOk(h)
    ensures HistOk(r)
  {
    if cs == [] then h
    else LiveStep(o, delay, view, pass, LivePass(o, delay, view, pass, h, cs[..|cs| - 1]), cs[|cs| - 1])
  }

  /** `apply_committed_reconfigs`, then `apply_committed_rotations`. */
  function LiveBlock(o: Oracle, delay: nat, h: Hist, b: CommittedBlock): (r: Hist)
    requires HistOk(h)
    ensures HistOk(r)
  {
    var h1 := LivePass(o, delay, b.view, ReconfigPass, h, b.commands);
    var h2 := LivePass(o, delay, b.view, RotationPass, h1, b.commands);
    var h3 := LivePass(o, delay, b.view, CancelPass, h2, b.commands);
    var h4 := LivePass(o, delay, b.view, OperatorPass, h3, b.commands);
    LivePass(o, delay, b.view, OperatorKeyPass, h4, b.commands)
  }

  function LiveChain(o: Oracle, delay: nat, h: Hist, bs: seq<CommittedBlock>): (r: Hist)
    requires HistOk(h)
    ensures HistOk(r)
  {
    if bs == [] then h else LiveBlock(o, delay, LiveChain(o, delay, h, bs[..|bs| - 1]), bs[|bs| - 1])
  }

  // ---------------------------------------------------------------------------
  // When a reconfiguration has nothing to add

  /** Every member has a list, or its id is refused because some validator uses it as a key. */
  predicate KnownMembers(k: Keys, members: seq<NodeId>) {
    forall id :: id in members ==> id in k.lists || id in k.owner
  }

  lemma {:induction false} KnownMembersAddNothing(k: Keys, members: seq<NodeId>, vEff: nat)
    requires KeysOk(k) && KnownMembers(k, members)
    ensures AddMembers(k, members, vEff) == k
  {
    hide KeysOk;
    if members == [] {
    } else {
      KnownMembersAddNothing(k, members[..|members| - 1], vEff);
      assert members[|members| - 1] in members;
    }
  }

  /** The command, if accepted now, adds no validator to the key history. */
  predicate StepKnown(o: Oracle, delay: nat, view: nat, pass: Pass, h: Hist, c: Command)
    requires HistOk(h)
  {
    pass == ReconfigPass && c.Reconfigure? && NextSet(o, delay, view, h, c.cmd).Some? ==>
      KnownMembers(h.keys, NextSet(o, delay, view, h, c.cmd).value.members)
  }

  predicate PassKnown(o: Oracle, delay: nat, view: nat, pass: Pass, h: Hist, cs: seq<Command>)
    requires HistOk(h)
  {
    cs != [] ==>
      && PassKnown(o, delay, view, pass, h, cs[..|cs| - 1])
      && StepKnown(o, delay, view, pass, RunPass(o, delay, view, pass, h, cs[..|cs| - 1]), cs[|cs| - 1])
  }

  /** No accepted reconfiguration of the chain adds a validator the key history does not know. */
  predicate ChainKnown(o: Oracle, delay: nat, h: Hist, bs: seq<CommittedBlock>)
    requires HistOk(h)
  {
    bs != [] ==>
      var b := bs[|bs| - 1];
      && ChainKnown(o, delay, h, bs[..|bs| - 1])
      && PassKnown(o, delay, b.view, ReconfigPass, ApplyChain(o, delay, h, bs[..|bs| - 1]), b.commands)
  }

  /** One command: with nothing to add the live step is the fold's, otherwise the fold gains a list. */
  lemma StepLiveOrGrows(o: Oracle, delay: nat, view: nat, pass: Pass, h: Hist, c: Command)
    requires HistOk(h)
    ensures StepKnown(o, delay, view, pass, h, c) ==> LiveStep(o, delay, view, pass, h, c) == Step(o, delay, view, pass, h, c)
    ensures !StepKnown(o, delay, view, pass, h, c) ==> h.keys.lists.Keys < Step(o, delay, view, pass, h, c).keys.lists.Keys
  {
    hide AddMembers, RegisterAdds, Validate, WithWeights, KeysOk, ListsOk, AscendingLists, RotationStep, CancelStep, OperatorStep, OperatorKeyStep;
    if pass == ReconfigPass && c.Reconfigure? && NextSet(o, delay, view, h, c.cmd).Some? {
      var members := NextSet(o, delay, view, h, c.cmd).value.members;
      if KnownMembers(h.keys, members) {
        KnownMembersAddNothing(h.keys, members, c.cmd.vEff);
      } else {
        AcceptedMeans(o.checks, c.cmd, SetAt(h.sets, view), view, delay);
        NewListEnters(h.keys, members, c.cmd.vEff);
      }
    }
  }

  lemma NewListEnters(k: Keys, members: seq<NodeId>, vEff: nat)
    requires KeysOk(k) && Rising(members) && !KnownMembers(k, members)
    ensures k.lists.Keys < AddMembers(k, members, vEff).lists.Keys
  {
    hide KeysOk, AddMembers;
    AddMembersExact(k, members, vEff);
    var id :| id in members && id !in k.lists && id !in k.owner;
    assert id in AddMembers(k, members, vEff).lists;
  }

  // ---------------------------------------------------------------------------
  // Lists never go; live ones never come

  lemma StepKeepsLists(o: Oracle, delay: nat, view: nat, pass: Pass, h: Hist, c: Command)
    requires HistOk(h)
    ensures h.keys.lists.Keys <= Step(o, delay, view, pass, h, c).keys.lists.Keys
    ensures h.keys.lists.Keys == LiveStep(o, delay, view, pass, h, c).keys.lists.Keys
  {
    hide AddMembers, RegisterAdds, Validate, WithWeights, KeyAt, DropBls, AppendBls, SchemeConsistent;
    if pass == ReconfigPass && c.Reconfigure? && NextSet(o, delay, view, h, c.cmd).Some? {
      AcceptedMeans(o.checks, c.cmd, SetAt(h.sets, view), view, delay);
      AddMembersExact(h.keys, NextSet(o, delay, view, h, c.cmd).value.members, c.cmd.vEff);
    }
  }

  lemma {:induction false} PassKeepsLists(o: Oracle, delay: nat, view: nat, pass: Pass, h: Hist, cs: seq<Command>)
    requires HistOk(h)
    ensures h.keys.lists.Keys <= RunPass(o, delay, view, pass, h, cs).keys.lists.Keys
    ensures h.keys.lists.Keys == LivePass(o, delay, view, pass, h, cs).keys.lists.Keys
  {
    hide HistOk, Step, LiveStep;
    if cs == [] {
    } else {
      var front, c := cs[..|cs| - 1], cs[|cs| - 1];
      PassKeepsLists(o, delay, view, pass, h, front);
      StepKeepsLists(o, delay, view, pass, RunPass(o, delay, view, pass, h, front), c);
      StepKeepsLists(o, delay, view, pass, LivePass(o, delay, view, pass, h, front), c);
    }
  }

  lemma BlockKeepsLists(o: Oracle, delay: nat, h: Hist, b: CommittedBlock)
    requires HistOk(h)
    ensures RunPass(o, delay, b.view, ReconfigPass, h, b.commands).keys.lists.Keys <= ApplyBlock(o, delay, h, b).keys.lists.Keys
    ensures h.keys.lists.Keys <= ApplyBlock(o, delay, h, b).keys.lists.Keys
    ensures h.keys.lists.Keys == LiveBlock(o, delay, h, b).keys.lists.Keys
  {
    hide HistOk, RunPass, LivePass;
    var h1 := RunPass(o, delay, b.view, ReconfigPass, h, b.commands);
    var h2 := RunPass(o, delay, b.view, RotationPass, h1, b.commands);
    var h3 := RunPass(o, delay, b.view, CancelPass, h2, b.commands);
    var h4 := RunPass(o, delay, b.view, OperatorPass, h3, b.commands);
    var l1 := LivePass(o, delay, b.view, ReconfigPass, h, b.commands);
    var l2 := LivePass(o, delay, b.view, RotationPass, l1, b.commands);
    var l3 := LivePass(o, delay, b.view, CancelPass, l2, b.commands);
    var l4 := LivePass(o, delay, b.view, OperatorPass, l3, b.commands);
    PassKeepsLists(o, delay, b.view, ReconfigPass, h, b.commands);
    PassKeepsLists(o, delay, b.view, RotationPass, h1, b.commands);
    PassKeepsLists(o, delay, b.view, CancelPass, h2, b.commands);
    PassKeepsLists(o, delay, b.view, OperatorPass, h3, b.commands);
    PassKeepsLists(o, delay, b.view, OperatorKeyPass, h4, b.commands);
    PassKeepsLists(o, delay, b.view, RotationPass, l1, b.commands);
    PassKeepsLists(o, delay, b.view, CancelPass, l2, b.commands);
    PassKeepsLists(o, delay, b.view, OperatorPass, l3, b.commands);
    PassKeepsLists(o, delay, b.view, OperatorKeyPass, l4, b.commands);
  }

  /** Over every chain the validators with a live key list are the ones the node started with. */
  lemma {:induction false} LiveListsFixed(o: Oracle, delay: nat, g: Hist, bs: seq<CommittedBlock>)
    requires HistOk(g)
    ensures LiveChain(o, delay, g, bs).keys.lists.Keys == g.keys.lists.Keys
  {
    hide HistOk, LiveBlock;
    if bs == [] {
    } else {
      LiveListsFixed(o, delay, g, bs[..|bs| - 1]);
      BlockKeepsLists(o, delay, LiveChain(o, delay, g, bs[..|bs| - 1]), bs[|bs| - 1]);
    }
  }

  // ---------------------------------------------------------------------------
  // The live histories against the fold

  lemma {:induction false} PassLiveOrGrows(o: Oracle, delay: nat, view: nat, pass: Pass, h: Hist, cs: seq<Command>)
    requires HistOk(h)
    ensures PassKnown(o, delay, view, pass, h, cs) ==> LivePass(o, delay, view, pass, h, cs) == RunPass(o, delay, view, pass, h, cs)
    ensures !PassKnown(o, delay, view, pass, h, cs) ==> h.keys.lists.Keys < RunPass(o, delay, view, pass, h, cs).keys.lists.Keys
  {
    hide HistOk, Step, LiveStep, StepKnown;
    if cs == [] {
    } else {
      var front, c := cs[..|cs| - 1], cs[|cs| - 1];
      PassLiveOrGrows(o, delay, view, pass, h, front);
      var m := RunPass(o, delay, view, pass, h, front);
      PassKeepsLists(o, delay, view, pass, h, front);
      StepLiveOrGrows(o, delay, view, pass, m, c);
      StepKeepsLists(o, delay, view, pass, m, c);
    }
  }

  lemma {:induction false} OtherPassKnown(o: Oracle, delay: nat, view: nat, pass: Pass, h: Hist, cs: seq<Command>)
    requires HistOk(h) && pass != ReconfigPass
    ensures PassKnown(o, delay, view, pass, h, cs)
  {
    hide HistOk, Step;
    if cs == [] {
    } else {
      OtherPassKnown(o, delay, view, pass, h, cs[..|cs| - 1]);
    }
  }

  lemma OtherPassIsLive(o: Oracle, delay: nat, view: nat, pass: Pass, h: Hist, cs: seq<Command>)
    requires HistOk(h) && pass != ReconfigPass
    ensures LivePass(o, delay, view, pass, h, cs) == RunPass(o, delay, view, pass, h, cs)
  {
    hide HistOk, RunPass, LivePass, PassKnown;
    OtherPassKnown(o, delay, view, pass, h, cs);
    PassLiveOrGrows(o, delay, view, pass, h, cs);
  }

  lemma BlockLiveOrGrows(o: Oracle, delay: nat, h: Hist, b: CommittedBlock)
    requires HistOk(h)
    ensures PassKnown(o, delay, b.view, ReconfigPass, h, b.commands) ==> LiveBlock(o, delay, h, b) == ApplyBlock(o, delay, h, b)
    ensures !PassKnown(o, delay, b.view, ReconfigPass, h, b.commands) ==>
      h.keys.lists.Keys < ApplyBlock(o, delay, h, b).keys.lists.Keys
  {
    hide HistOk, RunPass, LivePass, PassKnown;
    var h1 := RunPass(o, delay, b.view, ReconfigPass, h, b.commands);
    var h2 := RunPass(o, delay, b.view, RotationPass, h1, b.commands);
    var h3 := RunPass(o, delay, b.view, CancelPass, h2, b.commands);
    var h4 := RunPass(o, delay, b.view, OperatorPass, h3, b.commands);
    PassLiveOrGrows(o, delay, b.view, ReconfigPass, h, b.commands);
    OtherPassIsLive(o, delay, b.view, RotationPass, h1, b.commands);
    OtherPassIsLive(o, delay, b.view, CancelPass, h2, b.commands);
    OtherPassIsLive(o, delay, b.view, OperatorPass, h3, b.commands);
    OtherPassIsLive(o, delay, b.view, OperatorKeyPass, h4, b.commands);
    BlockKeepsLists(o, delay, h, b);
  }

  lemma {:induction false} ChainLiveOrGrows(o: Oracle, delay: nat, g: Hist, bs: seq<CommittedBlock>)
    requires HistOk(g)
    ensures ChainKnown(o, delay, g, bs) ==> LiveChain(o, delay, g, bs) == ApplyChain(o, delay, g, bs)
    ensures !ChainKnown(o, delay, g, bs) ==> g.keys.lists.Keys < ApplyChain(o, delay, g, bs).keys.lists.Keys
    ensures g.keys.lists.Keys <= ApplyChain(o, delay, g, bs).keys.lists.Keys
  {
    hide HistOk, ApplyBlock, LiveBlock, PassKnown;
    if bs == [] {
    } else {
      ChainLiveOrGrows(o, delay, g, bs[..|bs| - 1]);
      var m := ApplyChain(o, delay, g, bs[..|bs| - 1]);
      BlockLiveOrGrows(o, delay, m, bs[|bs| - 1]);
      BlockKeepsLists(o, delay, m, bs[|bs| - 1]);
    }
  }

  /**
   * Over every chain the live key lists equal the fold's, and then all histories do, if and only if
   * no accepted reconfiguration adds a validator the key history does not know.
   */
  lemma LiveEqualsFoldIff(o: Oracle, delay: nat, g: Hist, bs: seq<CommittedBlock>)
    requires HistOk(g)
    ensures LiveChain(o, delay, g, bs).keys.lists == ApplyChain(o, delay, g, bs).keys.lists <==> ChainKnown(o, delay, g, bs)
    ensures LiveChain(o, delay, g, bs) == ApplyChain(o, delay, g, bs) <==> ChainKnown(o, delay, g, bs)
  {
    hide HistOk, ApplyChain, LiveChain, ChainKnown;
    ChainLiveOrGrows(o, delay, g, bs);
    LiveListsFixed(o, delay, g, bs);
  }

  // ---------------------------------------------------------------------------
  // Sets and operator keys agree always

  predicate SameSets(l: Hist, h: Hist) { l.sets == h.sets && l.ops == h.ops }

  lemma StepSameSets(o: Oracle, delay: nat, view: nat, pass: Pass, l: Hist, h: Hist, c: Command)
    requires HistOk(l) && HistOk(h) && SameSets(l, h)
    ensures SameSets(LiveStep(o, delay, view, pass, l, c), Step(o, delay, view, pass, h, c))
  {
    hide HistOk, Validate, WithWeights, AddMembers, RegisterAdds, Rotate, Cancel, AppendBls, DropBls, SchemeConsistent, PendingNewKey, CurrentKey, KeyAt, Append;
  }

  lemma {:induction false} PassSameSets(o: Oracle, delay: nat, view: nat, pass: Pass, l: Hist, h: Hist, cs: seq<Command>)
    requires HistOk(l) && HistOk(h) && SameSets(l, h)
    ensures SameSets(LivePass(o, delay, view, pass, l, cs), RunPass(o, delay, view, pass, h, cs))
  {
    hide HistOk, SameSets, Step, LiveStep;
    if cs == [] {
    } else {
      var front := cs[..|cs| - 1];
      PassSameSets(o, delay, view, pass, l, h, front);
      StepSameSets(o, delay, view, pass, LivePass(o, delay, view, pass, l, front), RunPass(o, delay, view, pass, h, front), cs[|cs| - 1]);
    }
  }

  lemma BlockSameSets(o: Oracle, delay: nat, l: Hist, h: Hist, b: CommittedBlock)
    requires HistOk(l) && HistOk(h) && SameSets(l, h)
    ensures SameSets(LiveBlock(o, delay, l, b), ApplyBlock(o, delay, h, b))
  {
    hide HistOk, SameSets, RunPass, LivePass;
    var h1 := RunPass(o, delay, b.view, ReconfigPass, h, b.commands);
    var h2 := RunPass(o, delay, b.view, RotationPass, h1, b.commands);
    var h3 := RunPass(o, delay, b.view, CancelPass, h2, b.commands);
    var h4 := RunPass(o, delay, b.view, OperatorPass, h3, b.commands);
    var l1 := LivePass(o, delay, b.view, ReconfigPass, l, b.commands);
    var l2 := LivePass(o, delay, b.view, RotationPass, l1, b.commands);
    var l3 := LivePass(o, delay, b.view, CancelPass, l2, b.commands);
    var l4 := LivePass(o, delay, b.view, OperatorPass, l3, b.commands);
    PassSameSets(o, delay, b.view, ReconfigPass, l, h, b.commands);
    PassSameSets(o, delay, b.view, RotationPass, l1, h1, b.commands);
    PassSameSets(o, delay, b.view, CancelPass, l2, h2, b.commands);
    PassSameSets(o, delay, b.view, OperatorPass, l3, h3, b.commands);
    PassSameSets(o, delay, b.view, OperatorKeyPass, l4, h4, b.commands);
  }

  /** Whatever the chain adds, the live validator sets and operator keys are the fold's. */
  lemma {:induction false} LiveSetsEqualFold(o: Oracle, delay: nat, g: Hist, bs: seq<CommittedBlock>)
    requires HistOk(g)
    ensures SameSets(LiveChain(o, delay, g, bs), ApplyChain(o, delay, g, bs))
  {
    hide HistOk, LiveBlock, ApplyBlock;
    if bs == [] {
    } else {
      var front := bs[..|bs| - 1];
      LiveSetsEqualFold(o, delay, g, front);
      BlockSameSets(o, delay, LiveChain(o, delay, g, front), ApplyChain(o, delay, g, front), bs[|bs| - 1]);
    }
  }
}
