/**
 * The reverse index of the signing-key history over whole runs, and the persisted form of the key
 * histories (`validator_key_history.rs`).
 */
module KeyIndex {
  import opened Common
  import opened ValidatorSets
  import opened SetHistory
  import opened KeyHistories
  import opened Reconfig
  import opened Histories

  // ---------------------------------------------------------------------------
  // Persisted form

  type Persisted<K> = seq<(NodeId, seq<Entry<K>>)>

  /** `to_persisted`: the validators in ascending order of their ids, as the ordered map lists them. */
  function ToPersisted<K>(h: Lists<K>): Persisted<K> {
    if h == map[] then []
    else
      var least := Least(h.Keys);
      [(least, h[least])] + ToPersisted(h - {least})
  }

  datatype RestoreKeysError = NoEntries(id: NodeId) | FirstKeyDiffers(id: NodeId)
                            | EntriesNotIncreasing(id: NodeId) | ClaimedTwice(key: NodeId)

  /** The inner loop of `from_persisted`: one validator's entries claim their keys in turn. */
  function Claim(owner: map<NodeId, NodeId>, id: NodeId, prev: Option<nat>, es: seq<Entry<NodeId>>)
    : Result<map<NodeId, NodeId>, RestoreKeysError>
    decreases |es|
  {
    if es == [] then Ok(owner)
    else if prev.Some? && es[0].vEff <= prev.value then Err(EntriesNotIncreasing(id))
    else if es[0].key in owner && owner[es[0].key] != id then Err(ClaimedTwice(es[0].key))
    else Claim(owner[es[0].key := id], id, Some(es[0].vEff), es[1..])
  }

  /** The outer loop of `from_persisted`, from a history restored so far. */
  function RestoreFrom(k: Keys, ps: Persisted<NodeId>): Result<Keys, RestoreKeysError>
    decreases |ps|
  {
    if ps == [] then Ok(k)
    else
      var id, es := ps[0].0, ps[0].1;
      if es == [] then Err(NoEntries(id))
      else if es[0].key != id then Err(FirstKeyDiffers(id))
      else
        match Claim(k.owner, id, None, es)
        case Err(e) => Err(e)
        case Ok(owner) => RestoreFrom(Keys(k.lists[id := es], owner), ps[1..])
  }

  function Restore(ps: Persisted<NodeId>): Result<Keys, RestoreKeysError> {
    RestoreFrom(Keys(map[], map[]), ps)
  }

  /** `ValidatorKeyHistory::from_persisted`. */
  method FromPersisted(ps: Persisted<NodeId>) returns (r: Result<Keys, RestoreKeysError>)
    ensures r == Restore(ps)
  {
    var lists: Lists<NodeId> := map[];
    var owner: map<NodeId, NodeId> := map[];
    for i := 0 to |ps|
      invariant Restore(ps) == RestoreFrom(Keys(lists, owner), ps[i..])
    {
      var id, es := ps[i].0, ps[i].1;
      if es == [] { return Err(NoEntries(id)); }
      if es[0].key != id { return Err(FirstKeyDiffers(id)); }
      ghost var before := owner;
      var last: Option<nat> := None;
      for j := 0 to |es|
        invariant Claim(before, id, None, es) == Claim(owner, id, last, es[j..])
      {
        if last.Some? && es[j].vEff <= last.value { return Err(EntriesNotIncreasing(id)); }
        last := Some(es[j].vEff);
        if es[j].key in owner && owner[es[j].key] != id { return Err(ClaimedTwice(es[j].key)); }
        owner := owner[es[j].key := id];
      }
      lists := lists[id := es];
    }
    return Ok(Keys(lists, owner));
  }

  /** When one validator's entries are accepted, and what the index becomes. */
  lemma {:induction false} ClaimExact(owner: map<NodeId, NodeId>, id: NodeId, prev: Option<nat>, es: seq<Entry<NodeId>>)
    ensures Claim(owner, id, prev, es).Ok? <==>
      && Ascending(es)
      && (prev.Some? && es != [] ==> prev.value < es[0].vEff)
      && (forall i :: 0 <= i < |es| && es[i].key in owner ==> owner[es[i].key] == id)
    ensures Claim(owner, id, prev, es).Ok? ==>
      var r := Claim(owner, id, prev, es).value;
      && (forall key :: key in r <==> key in owner || ListHolds(es, key))
      && (forall key :: key in r ==> r[key] == if ListHolds(es, key) then id else owner[key])
    decreases |es|
  {
    if es == [] {
    } else {
      var rest, owner' := es[1..], owner[es[0].key := id];
      ClaimExact(owner', id, Some(es[0].vEff), rest);
      forall key ensures ListHolds(es, key) <==> key == es[0].key || ListHolds(rest, key) {
        if ListHolds(rest, key) {
          var i :| 0 <= i < |rest| && rest[i].key == key;
          assert es[i + 1].key == key;
        }
      }
      AscendingTail(es);
      assert forall i :: 0 <= i < |rest| ==> es[i + 1] == rest[i];
      assert forall i :: 0 < i < |es| ==> rest[i - 1] == es[i];
    }
  }

  lemma AscendingTail(es: seq<Entry<NodeId>>)
    requires es != []
    ensures Ascending(es) <==> Ascending(es[1..]) && (|es| > 1 ==> es[0].vEff < es[1].vEff)
  {
  }

  predicate DistinctIds(ps: Persisted<NodeId>) {
    forall i, j :: 0 <= i < j < |ps| ==> ps[i].0 != ps[j].0
  }

  /** One accepted validator extends an exact history to an exact history. */
  lemma ClaimKeepsExact(k: Keys, id: NodeId, es: seq<Entry<NodeId>>)
    requires KeysOk(k) && ExactIndex(k) && id !in k.lists && es != [] && es[0].key == id
    requires Claim(k.owner, id, None, es).Ok?
    ensures var k' := Keys(k.lists[id := es], Claim(k.owner, id, None, es).value);
      KeysOk(k') && ExactIndex(k')
  {
    ClaimExact(k.owner, id, None, es);
    var k' := Keys(k.lists[id := es], Claim(k.owner, id, None, es).value);
    forall x, i | x in k'.lists && 0 <= i < |k'.lists[x]|
      ensures k'.lists[x][i].key in k'.owner && k'.owner[k'.lists[x][i].key] == x
    {
      var key := k'.lists[x][i].key;
      if x == id {
        assert ListHolds(es, key);
      } else {
        assert key in k.owner && k.owner[key] == x;
      }
    }
  }

  /** Whatever is accepted is well formed, with an index that is the exact inverse of the lists. */
  lemma {:induction false} RestoredIsExact(k: Keys, ps: Persisted<NodeId>)
    requires KeysOk(k) && ExactIndex(k) && DistinctIds(ps)
    requires forall i :: 0 <= i < |ps| ==> ps[i].0 !in k.lists
    requires RestoreFrom(k, ps).Ok?
    ensures KeysOk(RestoreFrom(k, ps).value) && ExactIndex(RestoreFrom(k, ps).value)
    decreases |ps|
  {
    hide KeysOk, ExactIndex, Claim;
    if ps == [] {
    } else {
      var id, es := ps[0].0, ps[0].1;
      ClaimKeepsExact(k, id, es);
      var k' := Keys(k.lists[id := es], Claim(k.owner, id, None, es).value);
      RestoredIsExact(k', ps[1..]);
    }
  }

  lemma {:induction false} PersistedIds<K>(h: Lists<K>)
    ensures forall i :: 0 <= i < |ToPersisted(h)| ==> ToPersisted(h)[i].0 in h
    ensures forall i, j :: 0 <= i < j < |ToPersisted(h)| ==> ToPersisted(h)[i].0 < ToPersisted(h)[j].0
    decreases |h|
  {
    if h != map[] {
      var least := ToPersisted(h)[0].0;
      PersistedIds(h - {least});
    }
  }

  predicate PartOf(k: Keys, full: Keys) {
    forall key :: key in k.owner ==> key in full.owner && full.owner[key] == k.owner[key]
  }

  /** The next validator of an exact history is accepted, and what is restored stays part of it. */
  lemma RestoreNext(full: Keys, k: Keys, id: NodeId)
    requires KeysOk(full) && ExactIndex(full) && PartOf(k, full) && id in full.lists
    ensures var es := full.lists[id];
      && es != [] && es[0].key == id && Claim(k.owner, id, None, es).Ok?
      && PartOf(Keys(k.lists[id := es], Claim(k.owner, id, None, es).value), full)
  {
    hide Claim;
    var es := full.lists[id];
    ClaimExact(k.owner, id, None, es);
  }

  lemma MinusOne<K>(rest: Lists<K>, id: NodeId)
    requires id in rest
    ensures (rest - {id}).Keys == rest.Keys - {id} && |rest - {id}| < |rest|
  {
    assert (rest - {id}).Keys == rest.Keys - {id};
    assert |rest.Keys - {id}| == |rest.Keys| - 1;
  }

  lemma MovedUnion<K>(done: Lists<K>, rest: Lists<K>, id: NodeId)
    requires id in rest && id !in done
    ensures done[id := rest[id]] + (rest - {id}) == done + rest
  {
  }

  lemma MoveOne<K>(full: Lists<K>, done: Lists<K>, rest: Lists<K>, id: NodeId)
    requires done.Keys !! rest.Keys && done + rest == full && id in rest
    ensures full[id] == rest[id] && |rest - {id}| < |rest|
    ensures done[id := rest[id]].Keys !! (rest - {id}).Keys
    ensures done[id := rest[id]] + (rest - {id}) == full
  {
    MinusOne(rest, id);
    MovedUnion(done, rest, id);
    assert done[id := rest[id]].Keys == done.Keys + {id};
  }

  /** Restoring the validators not restored yet completes an exact history. */
  lemma {:induction false} RestoreRest(full: Keys, k: Keys, rest: Lists<NodeId>)
    requires KeysOk(full) && ExactIndex(full) && KeysOk(k) && ExactIndex(k) && PartOf(k, full)
    requires k.lists.Keys !! rest.Keys && k.lists + rest == full.lists
    ensures RestoreFrom(k, ToPersisted(rest)) == Ok(full)
    decreases |rest|
  {
    hide KeysOk, ExactIndex, PartOf, Claim;
    if rest == map[] {
      assert k.lists == full.lists;
      ExactIndexDetermined(k, full);
    } else {
      var id := ToPersisted(rest)[0].0;
      var es := rest[id];
      MoveOne(full.lists, k.lists, rest, id);
      RestoreNext(full, k, id);
      ClaimKeepsExact(k, id, es);
      var k' := Keys(k.lists[id := es], Claim(k.owner, id, None, es).value);
      RestoreRest(full, k', rest - {id});
      assert ToPersisted(rest)[1..] == ToPersisted(rest - {id});
    }
  }

  /** `from_persisted(to_persisted(h))` gives `h` back if and only if its index is exact. */
  lemma PersistRoundTripIffExact(k: Keys)
    requires KeysOk(k)
    ensures Restore(ToPersisted(k.lists)) == Ok(k) <==> ExactIndex(k)
  {
    var empty := Keys(map[], map[]);
    if ExactIndex(k) {
      assert empty.lists + k.lists == k.lists;
      RestoreRest(k, empty, k.lists);
    }
    if Restore(ToPersisted(k.lists)) == Ok(k) {
      PersistedIds(k.lists);
      RestoredIsExact(empty, ToPersisted(k.lists));
    }
  }

  // ---------------------------------------------------------------------------
  // The index over runs

  predicate Indexed(k: Keys) { KeysOk(k) && ExactIndex(k) }

  lemma {:induction false} AddMembersIndexed(k: Keys, members: seq<NodeId>, vEff: nat)
    requires Indexed(k)
    ensures Indexed(AddMembers(k, members, vEff))
  {
    if members == [] {
    } else {
      var front, id := members[..|members| - 1], members[|members| - 1];
      AddMembersIndexed(k, front, vEff);
      var m := AddMembers(k, front, vEff);
      if id !in m.lists && AddValidator(m, id, vEff).Ok? { AddKeepsExact(m, id, vEff); }
    }
  }

  lemma RotateBothIndexed(h: Hist, r: Rotation, view: nat)
    requires HistOk(h) && Indexed(h.keys)
    ensures Indexed(RotateBoth(h, r, view).keys)
  {
    hide ExactIndex, KeysOk, Rotate;
    if Rotate(h.keys, r, view).Ok? {
      RotateKeepsOk(h.keys, r, view);
      RotateKeepsExact(h.keys, r, view);
    }
  }

  lemma ReconfigIndexed(o: Oracle, delay: nat, view: nat, h: Hist, cmd: ReconfigCommand)
    requires HistOk(h) && Indexed(h.keys)
    ensures Indexed(ReconfigStep(o, delay, view, h, cmd).keys)
  {
    hide Indexed, NextSet, AddMembers, RegisterAdds;
    var next := NextSet(o, delay, view, h, cmd);
    if next.Some? { AddMembersIndexed(h.keys, next.value.members, cmd.vEff); }
  }

  /** If the cancellation is accepted, the key it drops does not occur earlier in the list. */
  predicate CancelsFresh(o: Oracle, view: nat, h: Hist, env: RotationCancel)
    requires HistOk(h)
  {
    CancelStep(o, view, h, env) != h && env.validator in h.keys.owner && h.keys.owner[env.validator] in h.keys.lists ==>
      var es := h.keys.lists[h.keys.owner[env.validator]];
      es != [] ==> !ListHolds(es[..|es| - 1], LastEntry(es).key)
  }

  lemma CancelStepParts(o: Oracle, view: nat, h: Hist, env: RotationCancel)
    requires HistOk(h) && CancelStep(o, view, h, env) != h
    ensures env.validator in h.keys.owner && Cancel(h.keys, env.validator, env.cancelling, view).Ok?
    ensures CancelStep(o, view, h, env).keys == Cancel(h.keys, env.validator, env.cancelling, view).value
    ensures |h.keys.lists[h.keys.owner[env.validator]]| > 1
  {
    hide DropBls;
    PendingIsNotAlone(h.keys.lists[h.keys.owner[env.validator]], view);
  }

  /** An accepted cancellation keeps the index exact if and only if the key it drops is held nowhere earlier. */
  lemma CancelIndexedIff(o: Oracle, view: nat, h: Hist, env: RotationCancel)
    requires HistOk(h) && Indexed(h.keys)
    ensures Indexed(CancelStep(o, view, h, env).keys) <==> CancelsFresh(o, view, h, env)
  {
    hide CancelStep, Cancel, ListHolds, ExactIndex;
    if CancelStep(o, view, h, env) != h {
      CancelStepParts(o, view, h, env);
      CancelKeepsOk(h.keys, env.validator, env.cancelling, view);
      CancelKeepsExactIffFreshKey(h.keys, env.validator, env.cancelling, view);
    }
  }

  predicate StepFresh(o: Oracle, view: nat, h: Hist, c: Command)
    requires HistOk(h)
  {
    c.CancelKey? ==> CancelsFresh(o, view, h, c.cancel)
  }

  lemma StepIndexed(o: Oracle, delay: nat, view: nat, pass: Pass, h: Hist, c: Command)
    requires HistOk(h) && Indexed(h.keys) && (pass == CancelPass ==> StepFresh(o, view, h, c))
    ensures Indexed(Step(o, delay, view, pass, h, c).keys)
  {
    hide HistOk, Indexed, ReconfigStep, CancelStep, RotateBoth, CancelsFresh;
    match c
    case Reconfigure(cmd) => ReconfigIndexed(o, delay, view, h, cmd);
    case RotateKey(env) => RotateBothIndexed(h, env.payload, view);
    case CancelKey(env) => if pass == CancelPass { CancelIndexedIff(o, view, h, env); }
    case OperatorRotateKey(env) => RotateBothIndexed(h, env.payload, view);
    case _ =>
  }

  /** Every accepted cancellation of the pass drops a key held nowhere earlier in its list. */
  predicate PassFresh(o: Oracle, delay: nat, view: nat, h: Hist, cs: seq<Command>)
    requires HistOk(h)
  {
    cs != [] ==>
      && PassFresh(o, delay, view, h, cs[..|cs| - 1])
      && StepFresh(o, view, RunPass(o, delay, view, CancelPass, h, cs[..|cs| - 1]), cs[|cs| - 1])
  }

  predicate BlockFresh(o: Oracle, delay: nat, h: Hist, b: CommittedBlock)
    requires HistOk(h)
  {
    var h1 := RunPass(o, delay, b.view, ReconfigPass, h, b.commands);
    var h2 := RunPass(o, delay, b.view, RotationPass, h1, b.commands);
    PassFresh(o, delay, b.view, h2, b.commands)
  }

  predicate ChainFresh(o: Oracle, delay: nat, h: Hist, bs: seq<CommittedBlock>)
    requires HistOk(h)
  {
    bs != [] ==>
      && ChainFresh(o, delay, h, bs[..|bs| - 1])
      && BlockFresh(o, delay, ApplyChain(o, delay, h, bs[..|bs| - 1]), bs[|bs| - 1])
  }

  lemma {:induction false} PassIndexed(o: Oracle, delay: nat, view: nat, pass: Pass, h: Hist, cs: seq<Command>)
    requires HistOk(h) && Indexed(h.keys) && (pass == CancelPass ==> PassFresh(o, delay, view, h, cs))
    ensures Indexed(RunPass(o, delay, view, pass, h, cs).keys)
  {
    hide HistOk, Indexed, StepFresh, Step;
    if cs == [] {
    } else {
      PassIndexed(o, delay, view, pass, h, cs[..|cs| - 1]);
      StepIndexed(o, delay, view, pass, RunPass(o, delay, view, pass, h, cs[..|cs| - 1]), cs[|cs| - 1]);
    }
  }

  lemma BlockIndexed(o: Oracle, delay: nat, h: Hist, b: CommittedBlock)
    requires HistOk(h) && Indexed(h.keys) && BlockFresh(o, delay, h, b)
    ensures Indexed(ApplyBlock(o, delay, h, b).keys)
  {
    hide HistOk, Indexed, RunPass, PassFresh;
    var h1 := RunPass(o, delay, b.view, ReconfigPass, h, b.commands);
    var h2 := RunPass(o, delay, b.view, RotationPass, h1, b.commands);
    var h3 := RunPass(o, delay, b.view, CancelPass, h2, b.commands);
    var h4 := RunPass(o, delay, b.view, OperatorPass, h3, b.commands);
    PassIndexed(o, delay, b.view, ReconfigPass, h, b.commands);
    PassIndexed(o, delay, b.view, RotationPass, h1, b.commands);
    PassIndexed(o, delay, b.view, CancelPass, h2, b.commands);
    PassIndexed(o, delay, b.view, OperatorPass, h3, b.commands);
    PassIndexed(o, delay, b.view, OperatorKeyPass, h4, b.commands);
  }

  /**
   * On every chain whose accepted cancellations drop only keys held nowhere earlier in their list, the
   * index stays the exact inverse of the lists, whatever rotations it carries.
   */
  lemma {:induction false} ChainIndexed(o: Oracle, delay: nat, h: Hist, bs: seq<CommittedBlock>)
    requires HistOk(h) && Indexed(h.keys) && ChainFresh(o, delay, h, bs)
    ensures Indexed(ApplyChain(o, delay, h, bs).keys)
  {
    hide HistOk, Indexed, ApplyBlock, BlockFresh;
    if bs == [] {
    } else {
      ChainIndexed(o, delay, h, bs[..|bs| - 1]);
      BlockIndexed(o, delay, ApplyChain(o, delay, h, bs[..|bs| - 1]), bs[|bs| - 1]);
    }
  }

  /** On such a chain the persisted key history restores to the same history, index included. */
  lemma ChainPersists(o: Oracle, delay: nat, h: Hist, bs: seq<CommittedBlock>)
    requires HistOk(h) && Indexed(h.keys) && ChainFresh(o, delay, h, bs)
    ensures Restore(ToPersisted(ApplyChain(o, delay, h, bs).keys.lists)) == Ok(ApplyChain(o, delay, h, bs).keys)
  {
    hide ApplyChain, Restore;
    ChainIndexed(o, delay, h, bs);
    PersistRoundTripIffExact(ApplyChain(o, delay, h, bs).keys);
  }

  // Validator 1 rotates to key 2, schedules a return to key 1, and cancels it.
  const Start: Keys := Keys(map[1 := [Entry(0, 1)]], map[1 := 1])
  const Held: Keys := Keys(map[1 := [Entry(0, 1), Entry(5, 2)]], map[1 := 1, 2 := 1])
  const Returning: Keys := Keys(map[1 := [Entry(0, 1), Entry(5, 2), Entry(10, 1)]], map[1 := 1, 2 := 1])
  const Cancelled: Keys := Keys(map[1 := [Entry(0, 1), Entry(5, 2)]], map[2 := 1])

  lemma StartIndexed()
    ensures Indexed(Start)
  {
  }

  lemma FirstRotation()
    requires KeysOk(Start)
    ensures Rotate(Start, Rotation(1, 2, 5, None, None), 0) == Ok(Held)
  {
    hide KeysOk;
    assert Start.lists[1] + [Entry(5, 2)] == [Entry(0, 1), Entry(5, 2)];
    assert Start.lists[1 := Start.lists[1] + [Entry(5, 2)]] == Held.lists;
    assert Start.owner[2 := 1] == Held.owner;
  }

  lemma SecondRotation()
    requires KeysOk(Held)
    ensures Rotate(Held, Rotation(2, 1, 10, None, None), 6) == Ok(Returning)
  {
    hide KeysOk;
    assert Held.lists[1] + [Entry(10, 1)] == [Entry(0, 1), Entry(5, 2), Entry(10, 1)];
    assert Held.lists[1 := Held.lists[1] + [Entry(10, 1)]] == Returning.lists;
    assert Held.owner[1 := 1] == Returning.owner;
  }

  lemma Cancellation()
    requires KeysOk(Returning)
    ensures Cancel(Returning, 2, 10, 7) == Ok(Cancelled)
  {
    hide KeysOk;
    assert Returning.lists[1][..2] == [Entry(0, 1), Entry(5, 2)];
    assert Returning.lists[1 := Returning.lists[1][..2]] == Cancelled.lists;
    assert Returning.owner - {1} == Cancelled.owner;
  }

  lemma {:induction false} ExampleOk()
    ensures Indexed(Start) && KeysOk(Start) && KeysOk(Held) && KeysOk(Returning) && KeysOk(Cancelled)
  {
    hide Rotate, Cancel, KeysOk;
    StartIndexed();
    FirstRotation();
    RotateKeepsOk(Start, Rotation(1, 2, 5, None, None), 0);
    SecondRotation();
    RotateKeepsOk(Held, Rotation(2, 1, 10, None, None), 6);
    Cancellation();
    assert |Returning.lists[Returning.owner[2]]| == 3;
    CancelKeepsOk(Returning, 2, 10, 7);
  }

  lemma CancelledNotExact()
    ensures !ExactIndex(Cancelled)
  {
    assert Cancelled.lists[1][0].key == 1;
  }

  /**
   * Without that condition the claim fails: after the cancelled return, key 1 is missing from the
   * index while its list still starts with it, so validator 1 is no longer found under its own id
   * and the persisted history restores to a different one.
   */
  lemma {:induction false} CancelledReturnLosesKey()
    ensures Indexed(Start) && KeysOk(Start) && KeysOk(Held) && KeysOk(Returning) && KeysOk(Cancelled)
    ensures Rotate(Start, Rotation(1, 2, 5, None, None), 0) == Ok(Held)
    ensures Rotate(Held, Rotation(2, 1, 10, None, None), 6) == Ok(Returning)
    ensures Cancel(Returning, 2, 10, 7) == Ok(Cancelled)
    ensures CurrentKey(Held, 1) == Some(2) && CurrentKey(Cancelled, 1) == None
    ensures Restore(ToPersisted(Cancelled.lists)) != Ok(Cancelled)
  {
    hide Indexed, KeysOk, ExactIndex, Restore, ToPersisted, Rotate, Cancel;
    ExampleOk();
    FirstRotation();
    SecondRotation();
    Cancellation();
    CancelledNotExact();
    PersistRoundTripIffExact(Cancelled);
  }
}
