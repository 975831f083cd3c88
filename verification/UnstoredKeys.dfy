/** A restart of a node that has no stored key history: it is derived from the validator sets. */
module UnstoredKeys {
  import opened Common
  import opened ValidatorSets
  import opened SetHistory
  import opened KeyHistories
  import opened Reconfig
  import opened Histories
  import opened Lockstep
  import opened Rebuild
  import opened LiveHistory
  import opened Restart

  function Absent(k: Keys, members: seq<NodeId>): set<NodeId> { set id | id in members && id !in k.lists }

  function FirstEntries(ids: set<NodeId>, vEff: nat): Lists<NodeId> { map id | id in ids :: [Entry(vEff, id)] }

  function Selves(ids: set<NodeId>): map<NodeId, NodeId> { map id | id in ids :: id }

  function Enter(k: Keys, ids: set<NodeId>, vEff: nat): Keys {
    Keys(k.lists + FirstEntries(ids, vEff), k.owner + Selves(ids))
  }

  /** One boundary of `from_set_history`: members without a list get their id as first key. */
  function AddVacant(k: Keys, members: seq<NodeId>, vEff: nat): Keys { Enter(k, Absent(k, members), vEff) }

  /** `from_set_history`. */
  function FromSets(bs: seq<Boundary>): Keys {
    if bs == [] then Keys(map[], map[])
    else AddVacant(FromSets(bs[..|bs| - 1]), bs[|bs| - 1].vset.members, bs[|bs| - 1].vEff)
  }

  /** The histories a node loads when no key history was stored. */
  function LoadedWithoutKeys(live: Hist): Hist { live.(keys := FromSets(live.sets)) }

  /** Every list is its validator's id alone, and the index holds nothing else. */
  predicate Plain(k: Keys) {
    && k.lists.Keys == k.owner.Keys
    && (forall id :: id in k.lists ==> |k.lists[id]| == 1 && k.lists[id][0].key == id && k.owner[id] == id)
  }

  lemma {:induction false} FromSetsPlain(bs: seq<Boundary>)
    ensures Plain(FromSets(bs))
  {
    if bs == [] {
    } else {
      FromSetsPlain(bs[..|bs| - 1]);
    }
  }

  predicate ListedFirst(bs: seq<Boundary>, id: NodeId, i: nat) {
    i < |bs| && id in bs[i].vset.members && forall j :: 0 <= j < i ==> id !in bs[j].vset.members
  }

  /** Every validator of any set, and nobody else, has its id as key from the first boundary that lists it. */
  lemma {:induction false} FromSetsExact(bs: seq<Boundary>, id: NodeId)
    ensures id in FromSets(bs).lists <==> exists i: nat :: ListedFirst(bs, id, i)
    ensures forall i: nat :: ListedFirst(bs, id, i) ==> FromSets(bs).lists[id] == [Entry(bs[i].vEff, id)]
  {
    if bs == [] {
    } else {
      var n := |bs| - 1;
      FromSetsExact(bs[..n], id);
      forall i: nat ensures ListedFirst(bs, id, i) <==>
        ListedFirst(bs[..n], id, i) || (i == n && id in bs[n].vset.members && id !in FromSets(bs[..n]).lists)
      {
        if i == n && id in bs[n].vset.members { FirstExists(bs[..n], id); }
      }
      if i: nat :| ListedFirst(bs[..n], id, i) {
        assert ListedFirst(bs, id, i);
      } else if id in FromSets(bs).lists {
        assert ListedFirst(bs, id, n);
      }
    }
  }

  lemma {:induction false} FirstExists(bs: seq<Boundary>, id: NodeId)
    ensures (forall j :: 0 <= j < |bs| ==> id !in bs[j].vset.members) || exists i: nat :: ListedFirst(bs, id, i)
  {
    if bs == [] {
    } else {
      var n := |bs| - 1;
      FirstExists(bs[..n], id);
      if i: nat :| ListedFirst(bs[..n], id, i) {
        assert ListedFirst(bs, id, i);
      } else if id in bs[n].vset.members {
        assert forall j :: 0 <= j < n ==> bs[..n][j] == bs[j];
        assert ListedFirst(bs, id, n);
      }
    }
  }

  lemma PlainIsOk(k: Keys)
    requires Plain(k)
    ensures KeysOk(k)
  {
    forall key | key in k.owner ensures k.owner[key] == key && key in k.lists && ListHolds(k.lists[key], key) {
      assert key in k.owner.Keys;
      assert k.lists[key][0].key == key;
    }
  }

  lemma LoadedOk(live: Hist)
    requires HistOk(live)
    ensures HistOk(LoadedWithoutKeys(live))
  {
    hide KeysOk, Plain, ListsOk, AscendingLists, ValidHistory, FromSets;
    FromSetsPlain(live.sets);
    PlainIsOk(FromSets(live.sets));
  }

  // ---------------------------------------------------------------------------
  // Chains without an accepted rotation or cancellation

  /** No command of the pass changes a signing key. */
  predicate PassStill(o: Oracle, delay: nat, view: nat, pass: Pass, h: Hist, cs: seq<Command>)
    requires HistOk(h)
  {
    cs != [] ==>
      var m := RunPass(o, delay, view, pass, h, cs[..|cs| - 1]);
      PassStill(o, delay, view, pass, h, cs[..|cs| - 1]) && Step(o, delay, view, pass, m, cs[|cs| - 1]).keys == m.keys
  }

  /** No rotation or cancellation of the block is accepted, after its reconfigurations gave `h`. */
  predicate BlockStill(o: Oracle, delay: nat, h: Hist, b: CommittedBlock)
    requires HistOk(h)
  {
    && PassStill(o, delay, b.view, RotationPass, h, b.commands)
    && PassStill(o, delay, b.view, CancelPass, RunPass(o, delay, b.view, RotationPass, h, b.commands), b.commands)
    && PassStill(o, delay, b.view, OperatorPass,
         RunPass(o, delay, b.view, CancelPass, RunPass(o, delay, b.view, RotationPass, h, b.commands), b.commands), b.commands)
  }

  /** The fold accepts no rotation and no cancellation. */
  predicate FoldStill(o: Oracle, delay: nat, g: Hist, bs: seq<CommittedBlock>)
    requires HistOk(g)
  {
    bs != [] ==>
      var front, b := bs[..|bs| - 1], bs[|bs| - 1];
      FoldStill(o, delay, g, front) && BlockStill(o, delay, RunPass(o, delay, b.view, ReconfigPass, ApplyChain(o, delay, g, front), b.commands), b)
  }

  /** The running node accepts no rotation and no cancellation, so it has stored no key history. */
  predicate LiveStill(o: Oracle, delay: nat, g: Hist, bs: seq<CommittedBlock>)
    requires HistOk(g)
  {
    bs != [] ==>
      var front, b := bs[..|bs| - 1], bs[|bs| - 1];
      LiveStill(o, delay, g, front) && BlockStill(o, delay, LivePass(o, delay, b.view, ReconfigPass, LiveChain(o, delay, g, front), b.commands), b)
  }

  /** A refused rotation or cancellation changes no history but, at most, the operator keys. */
  lemma StepStillKeeps(o: Oracle, delay: nat, view: nat, pass: Pass, h: Hist, c: Command)
    requires HistOk(h) && pass != ReconfigPass && Step(o, delay, view, pass, h, c).keys == h.keys
    ensures var r := Step(o, delay, view, pass, h, c);
      r.sets == h.sets && r.bls == h.bls
  {
    hide ValidHistory, AscendingLists, SchemeConsistent, AppendBls, DropBls, KeyAt, Append;
  }

  lemma OperatorKeyStill(o: Oracle, delay: nat, view: nat, h: Hist, cs: seq<Command>)
    requires HistOk(h)
    ensures PassStill(o, delay, view, OperatorKeyPass, h, cs)
  {
    hide HistOk, KeyAt, Append;
  }

  lemma {:induction false} PassStillKeeps(o: Oracle, delay: nat, view: nat, pass: Pass, h: Hist, cs: seq<Command>)
    requires HistOk(h) && pass != ReconfigPass && PassStill(o, delay, view, pass, h, cs)
    ensures var r := RunPass(o, delay, view, pass, h, cs);
      r.sets == h.sets && r.bls == h.bls && r.keys == h.keys
  {
    hide HistOk, Step;
    if cs == [] {
    } else {
      PassStillKeeps(o, delay, view, pass, h, cs[..|cs| - 1]);
      StepStillKeeps(o, delay, view, pass, RunPass(o, delay, view, pass, h, cs[..|cs| - 1]), cs[|cs| - 1]);
    }
  }

  /** The four passes after the reconfigurations, when nothing in them is accepted. */
  lemma BlockStillKeeps(o: Oracle, delay: nat, h: Hist, b: CommittedBlock)
    requires HistOk(h) && BlockStill(o, delay, RunPass(o, delay, b.view, ReconfigPass, h, b.commands), b)
    ensures var h1, r := RunPass(o, delay, b.view, ReconfigPass, h, b.commands), ApplyBlock(o, delay, h, b);
      r.sets == h1.sets && r.bls == h1.bls && r.keys == h1.keys
  {
    hide HistOk, RunPass, PassStill;
    var h1 := RunPass(o, delay, b.view, ReconfigPass, h, b.commands);
    var h2 := RunPass(o, delay, b.view, RotationPass, h1, b.commands);
    var h3 := RunPass(o, delay, b.view, CancelPass, h2, b.commands);
    var h4 := RunPass(o, delay, b.view, OperatorPass, h3, b.commands);
    PassStillKeeps(o, delay, b.view, RotationPass, h1, b.commands);
    PassStillKeeps(o, delay, b.view, CancelPass, h2, b.commands);
    PassStillKeeps(o, delay, b.view, OperatorPass, h3, b.commands);
    OperatorKeyStill(o, delay, b.view, h4, b.commands);
    PassStillKeeps(o, delay, b.view, OperatorKeyPass, h4, b.commands);
  }

  lemma LiveStillKeeps(o: Oracle, delay: nat, h: Hist, b: CommittedBlock)
    requires HistOk(h) && BlockStill(o, delay, LivePass(o, delay, b.view, ReconfigPass, h, b.commands), b)
    ensures var h1, r := LivePass(o, delay, b.view, ReconfigPass, h, b.commands), LiveBlock(o, delay, h, b);
      r.sets == h1.sets && r.bls == h1.bls && r.keys == h1.keys
  {
    hide HistOk, RunPass, LivePass, PassStill;
    var h1 := LivePass(o, delay, b.view, ReconfigPass, h, b.commands);
    var h2 := LivePass(o, delay, b.view, RotationPass, h1, b.commands);
    var h3 := LivePass(o, delay, b.view, CancelPass, h2, b.commands);
    var h4 := LivePass(o, delay, b.view, OperatorPass, h3, b.commands);
    OtherPassIsLive(o, delay, b.view, RotationPass, h1, b.commands);
    OtherPassIsLive(o, delay, b.view, CancelPass, h2, b.commands);
    OtherPassIsLive(o, delay, b.view, OperatorPass, h3, b.commands);
    OtherPassIsLive(o, delay, b.view, OperatorKeyPass, h4, b.commands);
    PassStillKeeps(o, delay, b.view, RotationPass, h1, b.commands);
    PassStillKeeps(o, delay, b.view, CancelPass, h2, b.commands);
    PassStillKeeps(o, delay, b.view, OperatorPass, h3, b.commands);
    OperatorKeyStill(o, delay, b.view, h4, b.commands);
    PassStillKeeps(o, delay, b.view, OperatorKeyPass, h4, b.commands);
  }

  // ---------------------------------------------------------------------------
  // The fold's keys are then the derived ones

  lemma ListOne(m: Lists<NodeId>, ids: set<NodeId>, last: NodeId, vEff: nat)
    requires last !in ids
    ensures m + FirstEntries(ids + {last}, vEff) == (m + FirstEntries(ids, vEff))[last := [Entry(vEff, last)]]
  {
  }

  lemma OwnerOne(m: map<NodeId, NodeId>, ids: set<NodeId>, last: NodeId)
    requires last !in ids
    ensures m + Selves(ids + {last}) == (m + Selves(ids))[last := last]
  {
  }

  lemma EnterOne(k: Keys, ids: set<NodeId>, last: NodeId, vEff: nat)
    requires last !in ids
    ensures var v := Enter(k, ids, vEff);
      Enter(k, ids + {last}, vEff) == Keys(v.lists[last := [Entry(vEff, last)]], v.owner[last := last])
  {
    hide FirstEntries, Selves;
    ListOne(k.lists, ids, last, vEff);
    OwnerOne(k.owner, ids, last);
  }

  lemma AbsentOne(k: Keys, front: seq<NodeId>, last: NodeId)
    ensures Absent(k, front + [last]) == Absent(k, front) + if last in k.lists then {} else {last}
  {
  }

  lemma VacantStep(k: Keys, front: seq<NodeId>, last: NodeId, vEff: nat)
    requires k.lists.Keys == k.owner.Keys
    ensures var v := AddVacant(k, front, vEff);
      && (last in v.owner <==> last in v.lists)
      && AddVacant(k, front + [last], vEff) ==
           if last in v.lists then v else Keys(v.lists[last := [Entry(vEff, last)]], v.owner[last := last])
  {
    AbsentOne(k, front, last);
    assert last in k.lists <==> last in k.owner;
    if last !in k.lists && last !in front {
      EnterOne(k, Absent(k, front), last, vEff);
    } else {
      assert Absent(k, front + [last]) == Absent(k, front);
    }
  }

  lemma {:induction false} VacantIsAdd(k: Keys, members: seq<NodeId>, vEff: nat)
    requires KeysOk(k) && Plain(k)
    ensures AddMembers(k, members, vEff) == AddVacant(k, members, vEff)
  {
    hide KeysOk;
    if members == [] {
      assert Enter(k, {}, vEff) == k;
    } else {
      hide AddVacant, Enter, Absent;
      var front, last := members[..|members| - 1], members[|members| - 1];
      assert members == front + [last];
      VacantIsAdd(k, front, vEff);
      VacantStep(k, front, last, vEff);
    }
  }

  /** `from_set_history` as it is written: each member of each set in turn, if it has no list yet. */
  method FromSetHistory(bs: seq<Boundary>) returns (keys: Keys)
    ensures keys == FromSets(bs)
    ensures forall id, i: nat :: ListedFirst(bs, id, i) ==> id in keys.lists && keys.lists[id] == [Entry(bs[i].vEff, id)]
  {
    hide AddVacant;
    keys := Keys(map[], map[]);
    for i := 0 to |bs|
      invariant keys == FromSets(bs[..i])
    {
      var members, vEff := bs[i].vset.members, bs[i].vEff;
      ghost var base := keys;
      FromSetsPlain(bs[..i]);
      NothingVacant(base, vEff);
      assert members[..0] == [];
      for j := 0 to |members|
        invariant keys == AddVacant(base, members[..j], vEff)
      {
        assert members[..j + 1] == members[..j] + [members[j]];
        VacantStep(base, members[..j], members[j], vEff);
        if members[j] !in keys.lists {
          keys := Keys(keys.lists[members[j] := [Entry(vEff, members[j])]], keys.owner[members[j] := members[j]]);
        }
      }
      assert members[..|members|] == members;
      assert bs[..i + 1][..i] == bs[..i] && bs[..i + 1][i] == bs[i];
    }
    assert bs[..|bs|] == bs;
    forall id, i: nat | ListedFirst(bs, id, i) ensures id in keys.lists && keys.lists[id] == [Entry(bs[i].vEff, id)] {
      FromSetsExact(bs, id);
    }
  }

  lemma NothingVacant(k: Keys, vEff: nat)
    ensures AddVacant(k, [], vEff) == k
  {
    assert Absent(k, []) == {};
  }

  lemma ReconfigDerived(o: Oracle, delay: nat, view: nat, h: Hist, cmd: ReconfigCommand)
    requires HistOk(h) && h.keys == FromSets(h.sets)
    ensures var r := ReconfigStep(o, delay, view, h, cmd);
      r.keys == FromSets(r.sets)
  {
    hide Validate, WithWeights, AddMembers, RegisterAdds, KeysOk, AddVacant, Plain, ListsOk, AscendingLists;
    var next := NextSet(o, delay, view, h, cmd);
    if next.Some? {
      FromSetsPlain(h.sets);
      VacantIsAdd(h.keys, next.value.members, cmd.vEff);
      assert (h.sets + [Boundary(cmd.vEff, next.value)])[..|h.sets|] == h.sets;
    }
  }

  lemma {:induction false} ReconfigsDerived(o: Oracle, delay: nat, view: nat, h: Hist, cs: seq<Command>)
    requires HistOk(h) && h.keys == FromSets(h.sets)
    ensures var r := RunPass(o, delay, view, ReconfigPass, h, cs);
      r.keys == FromSets(r.sets)
  {
    hide HistOk, ReconfigStep, FromSets;
    if cs == [] {
    } else {
      var m, c := RunPass(o, delay, view, ReconfigPass, h, cs[..|cs| - 1]), cs[|cs| - 1];
      ReconfigsDerived(o, delay, view, h, cs[..|cs| - 1]);
      if c.Reconfigure? { ReconfigDerived(o, delay, view, m, c.cmd); }
    }
  }

  lemma GenesisDerived(g: Hist)
    requires IsGenesis(g)
    ensures g.keys == FromSets(g.sets)
  {
    assert g.sets[..0] == [];
    assert g.keys.lists == FromSets(g.sets).lists;
  }

  /** From genesis, over every chain without an accepted rotation or cancellation. */
  lemma {:induction false} FoldKeysDerived(o: Oracle, delay: nat, g: Hist, bs: seq<CommittedBlock>)
    requires HistOk(g) && IsGenesis(g) && FoldStill(o, delay, g, bs)
    ensures var r := ApplyChain(o, delay, g, bs);
      r.keys == FromSets(r.sets)
  {
    hide HistOk, IsGenesis, ApplyBlock, BlockStill, FromSets, RunPass;
    if bs == [] {
      GenesisDerived(g);
    } else {
      var m, b := ApplyChain(o, delay, g, bs[..|bs| - 1]), bs[|bs| - 1];
      FoldKeysDerived(o, delay, g, bs[..|bs| - 1]);
      ReconfigsDerived(o, delay, b.view, m, b.commands);
      BlockStillKeeps(o, delay, m, b);
    }
  }

  // ---------------------------------------------------------------------------
  // The BLS keys of the fold and of the node are then the same

  lemma {:induction false} ReconfigsSameBls(o: Oracle, delay: nat, view: nat, l: Hist, h: Hist, cs: seq<Command>)
    requires HistOk(l) && HistOk(h) && SameSets(l, h) && l.bls == h.bls
    ensures LivePass(o, delay, view, ReconfigPass, l, cs).bls == RunPass(o, delay, view, ReconfigPass, h, cs).bls
  {
    hide HistOk, Validate, WithWeights, AddMembers, RegisterAdds;
    if cs == [] {
    } else {
      var front := cs[..|cs| - 1];
      ReconfigsSameBls(o, delay, view, l, h, front);
      PassSameSets(o, delay, view, ReconfigPass, l, h, front);
    }
  }

  lemma {:induction false} LiveBlsIsFold(o: Oracle, delay: nat, g: Hist, bs: seq<CommittedBlock>)
    requires HistOk(g) && FoldStill(o, delay, g, bs) && LiveStill(o, delay, g, bs)
    ensures LiveChain(o, delay, g, bs).bls == ApplyChain(o, delay, g, bs).bls
  {
    hide HistOk, ApplyBlock, LiveBlock, BlockStill, RunPass, LivePass;
    if bs == [] {
    } else {
      var front, b := bs[..|bs| - 1], bs[|bs| - 1];
      var l, h := LiveChain(o, delay, g, front), ApplyChain(o, delay, g, front);
      LiveBlsIsFold(o, delay, g, front);
      LiveSetsEqualFold(o, delay, g, front);
      ReconfigsSameBls(o, delay, b.view, l, h, b.commands);
      BlockStillKeeps(o, delay, h, b);
      LiveStillKeeps(o, delay, l, b);
    }
  }

  // ---------------------------------------------------------------------------
  // The check

  ghost predicate AllClaimsHold(o: Oracle, delay: nat, commit: Covered -> nat, g: Hist, chain: seq<StoredBlock>)
    requires HistOk(g)
  {
    forall i :: 0 <= i < |chain| ==> ClaimHolds(o, delay, commit, g, chain, i)
  }

  lemma SeedsIgnoreKeys(live: Hist)
    requires HistOk(live)
    ensures HistOk(LoadedWithoutKeys(live)) && Seeds(LoadedWithoutKeys(live)) == Seeds(live)
  {
    hide HistOk, FromSets;
    LoadedOk(live);
  }

  /**
   * Without a stored key history, and with no rotation or cancellation accepted by the fold, the
   * restart check passes if and only if every claim holds of the rebuild: unlike a stored key
   * history, the derived one has the validators that reconfigurations added.
   */
  lemma UnstoredPassesIff(o: Oracle, delay: nat, commit: Covered -> nat, g: Hist, chain: seq<StoredBlock>)
    requires HistOk(g) && IsGenesis(g) && LiveStill(o, delay, g, Blocks(chain)) && FoldStill(o, delay, g, Blocks(chain))
    ensures HistOk(LoadedWithoutKeys(LiveChain(o, delay, g, Blocks(chain))))
    ensures Passes(o, delay, commit, LoadedWithoutKeys(LiveChain(o, delay, g, Blocks(chain))), chain) <==>
      AllClaimsHold(o, delay, commit, g, chain)
  {
    hide HistOk, IsGenesis, FromSets, LiveChain, ApplyChain, ClaimHolds, Seeds, FoldStill, LiveStill;
    var live := LiveChain(o, delay, g, Blocks(chain));
    SeedsOfLive(o, delay, g, Blocks(chain));
    SeedsIgnoreKeys(live);
    FoldKeysDerived(o, delay, g, Blocks(chain));
    LiveBlsIsFold(o, delay, g, Blocks(chain));
    LiveSetsEqualFold(o, delay, g, Blocks(chain));
  }

  /**
   * Where the fold has kept a rotation that the node refused, such as one of a validator added since
   * genesis, the derived key history never passes.
   */
  lemma UnstoredMissesRotation(o: Oracle, delay: nat, commit: Covered -> nat, g: Hist, chain: seq<StoredBlock>, id: NodeId)
    requires HistOk(g) && IsGenesis(g)
    requires var fold := ApplyChain(o, delay, g, Blocks(chain)); id in fold.keys.lists && |fold.keys.lists[id]| > 1
    ensures HistOk(LoadedWithoutKeys(LiveChain(o, delay, g, Blocks(chain))))
    ensures !Passes(o, delay, commit, LoadedWithoutKeys(LiveChain(o, delay, g, Blocks(chain))), chain)
  {
    hide HistOk, IsGenesis, FromSets, LiveChain, ApplyChain, ClaimHolds, Seeds;
    var live := LiveChain(o, delay, g, Blocks(chain));
    SeedsOfLive(o, delay, g, Blocks(chain));
    SeedsIgnoreKeys(live);
    FromSetsPlain(live.sets);
  }
}
