/**
 * Validation of a reconfiguration command against the active validator set
 * (`ReconfigCommand::validate_against_with_delay_and_chain` in `reconfig.rs`).
 * Proofs of possession and consent signatures are predicates supplied by the caller.
 */
module Reconfig {
  import opened Common
  import opened ValidatorSets
  import opened KeyHistories

  const MIN_VALIDATOR_FLOOR: nat := 4
  const MIN_V_EFF_DELAY: nat := 4

  /** `ValidatorEntry`; addresses and endpoints play no part in validation. */
  datatype AddEntry = AddEntry(nodeId: NodeId, pop: Option<Pop>, weight: nat,
                               operator: Option<NodeId>, consent: Option<nat>)

  datatype ReconfigCommand = ReconfigCommand(adds: seq<AddEntry>, removes: seq<NodeId>,
                                             changes: seq<(NodeId, nat)>, vEff: nat)

  datatype ReconfigError =
    | ViewOverflow | TooSoon | ZeroWeightAdd | ZeroWeightChange
    | DuplicateAdd | DuplicateRemove | DuplicateChange | AddAndRemove | AddAndChange | RemoveAndChange
    | RemoveNonMember | AddExistingMember | ChangeNonMember
    | MissingPop | BadPop | MissingConsent | BadConsent | BelowFloor

  /** The signature checks of the chain: proof of possession, and consent of an added operator. */
  datatype Checks = Checks(pop: (Pop, nat) -> bool, consent: (AddEntry, nat, nat) -> bool)

  function AddPairs(adds: seq<AddEntry>): (ps: seq<(NodeId, nat)>)
    ensures |ps| == |adds|
  {
    seq(|adds|, i requires 0 <= i < |adds| => (adds[i].nodeId, adds[i].weight))
  }

  function AddIds(adds: seq<AddEntry>): (ids: seq<NodeId>)
    ensures |ids| == |adds|
  {
    seq(|adds|, i requires 0 <= i < |adds| => adds[i].nodeId)
  }

  function Ids(ps: seq<(NodeId, nat)>): (ids: seq<NodeId>)
    ensures |ids| == |ps|
  {
    seq(|ps|, i requires 0 <= i < |ps| => ps[i].0)
  }

  predicate Unique(ids: seq<NodeId>) {
    forall i, j :: 0 <= i < j < |ids| ==> ids[i] != ids[j]
  }

  predicate Disjoint(a: seq<NodeId>, b: seq<NodeId>) {
    forall i :: 0 <= i < |a| ==> a[i] !in b
  }

  predicate AllIn(a: seq<NodeId>, b: seq<NodeId>) {
    forall i :: 0 <= i < |a| ==> a[i] in b
  }

  predicate NoZero(ps: seq<(NodeId, nat)>) {
    forall i :: 0 <= i < |ps| ==> ps[i].1 != 0
  }

  /** The first failing proof of possession, scanning the adds in order. */
  function PopError(c: Checks, adds: seq<AddEntry>): Option<ReconfigError> {
    if adds == [] then None
    else
      match PopError(c, adds[..|adds| - 1])
      case Some(e) => Some(e)
      case None =>
        var a := adds[|adds| - 1];
        if a.pop.None? then Some(MissingPop)
        else if !c.pop(a.pop.value, a.pop.value.pubkey) then Some(BadPop)
        else None
  }

  /** The first failing consent; entries without an operator key need none. */
  function ConsentError(c: Checks, adds: seq<AddEntry>, vEff: nat): Option<ReconfigError> {
    if adds == [] then None
    else
      match ConsentError(c, adds[..|adds| - 1], vEff)
      case Some(e) => Some(e)
      case None =>
        var a := adds[|adds| - 1];
        if a.operator.None? then None
        else if a.consent.None? then Some(MissingConsent)
        else if !c.consent(a, a.consent.value, vEff) then Some(BadConsent)
        else None
  }

  /** Everything checked before the next set is built, in the order of the source. */
  function CheckCommand(c: Checks, cmd: ReconfigCommand, members: seq<NodeId>, view: nat, delay: nat): Option<ReconfigError> {
    var minVEff := view + Max(delay, MIN_V_EFF_DELAY);
    if minVEff > U64_MAX then Some(ViewOverflow)
    else if cmd.vEff < minVEff then Some(TooSoon)
    else if !NoZero(AddPairs(cmd.adds)) then Some(ZeroWeightAdd)
    else if !NoZero(cmd.changes) then Some(ZeroWeightChange)
    else if !Unique(AddIds(cmd.adds)) then Some(DuplicateAdd)
    else if !Unique(cmd.removes) then Some(DuplicateRemove)
    else if !Unique(Ids(cmd.changes)) then Some(DuplicateChange)
    else if !Disjoint(AddIds(cmd.adds), cmd.removes) then Some(AddAndRemove)
    else if !Disjoint(AddIds(cmd.adds), Ids(cmd.changes)) then Some(AddAndChange)
    else if !Disjoint(cmd.removes, Ids(cmd.changes)) then Some(RemoveAndChange)
    else if !AllIn(cmd.removes, members) then Some(RemoveNonMember)
    else if !Disjoint(AddIds(cmd.adds), members) then Some(AddExistingMember)
    else if !AllIn(Ids(cmd.changes), members) then Some(ChangeNonMember)
    else if PopError(c, cmd.adds).Some? then PopError(c, cmd.adds)
    else ConsentError(c, cmd.adds, cmd.vEff)
  }

  /** Members that are not removed, in order. */
  function Kept(ps: seq<(NodeId, nat)>, removes: seq<NodeId>): seq<(NodeId, nat)> {
    if ps == [] then []
    else Kept(ps[..|ps| - 1], removes) + if ps[|ps| - 1].0 in removes then [] else [ps[|ps| - 1]]
  }

  /** The first position at or after `i` holding the id, or the length. */
  function Find(ps: seq<(NodeId, nat)>, id: NodeId, i: nat): (k: nat)
    requires i <= |ps|
    ensures i <= k <= |ps| && (k < |ps| ==> ps[k].0 == id)
    ensures forall j :: i <= j < k ==> ps[j].0 != id
    decreases |ps| - i
  {
    if i == |ps| || ps[i].0 == id then i else Find(ps, id, i + 1)
  }

  /** `find` the first entry of an id and overwrite its weight. */
  function Reweighted(ps: seq<(NodeId, nat)>, id: NodeId, w: nat): (r: seq<(NodeId, nat)>)
    ensures |r| == |ps|
  {
    var k := Find(ps, id, 0);
    if k < |ps| then ps[k := (id, w)] else ps
  }

  function Changed(ps: seq<(NodeId, nat)>, changes: seq<(NodeId, nat)>): (r: seq<(NodeId, nat)>)
    ensures |r| == |ps|
  {
    if changes == [] then ps
    else
      var c := changes[|changes| - 1];
      Reweighted(Changed(ps, changes[..|changes| - 1]), c.0, c.1)
  }

  function NextPairs(cmd: ReconfigCommand, current: ValidatorSet): seq<(NodeId, nat)>
    requires |current.members| == |current.weights|
  {
    DedupById(SortById(Changed(Kept(Pairs(current), cmd.removes), cmd.changes) + AddPairs(cmd.adds)))
  }

  /** `validate_against_with_delay_and_chain`. */
  function Validate(c: Checks, cmd: ReconfigCommand, current: ValidatorSet, view: nat, delay: nat): Result<seq<(NodeId, nat)>, ReconfigError>
    requires |current.members| == |current.weights|
  {
    match CheckCommand(c, cmd, current.members, view, delay)
    case Some(e) => Err(e)
    case None =>
      var next := NextPairs(cmd, current);
      if |next| < MIN_VALIDATOR_FLOOR then Err(BelowFloor) else Ok(next)
  }

  // ---------------------------------------------------------------------------
  // What an accepted command means

  /** The weights after removing, reweighting and adding, member by member. */
  function NextMap(m: map<NodeId, nat>, cmd: ReconfigCommand): map<NodeId, nat> {
    var adds, changes := PairsMap(AddPairs(cmd.adds)), PairsMap(cmd.changes);
    map id | id in m.Keys + adds.Keys && (id in adds || id !in cmd.removes) ::
      if id in adds then adds[id] else if id in changes then changes[id] else m[id]
  }

  lemma {:induction false} KeptMeaning(ps: seq<(NodeId, nat)>, removes: seq<NodeId>)
    requires DistinctIds(ps)
    ensures DistinctIds(Kept(ps, removes))
    ensures forall y :: y in Kept(ps, removes) <==> y in ps && y.0 !in removes
  {
    if ps == [] {
    } else {
      var front, last := ps[..|ps| - 1], ps[|ps| - 1];
      assert ps == front + [last];
      KeptMeaning(front, removes);
      var k := Kept(front, removes);
      forall i | 0 <= i < |k| ensures k[i].0 != last.0 {
        assert k[i] in k;
        var j :| 0 <= j < |front| && front[j] == k[i];
      }
    }
  }

  lemma ReweightedAt(ps: seq<(NodeId, nat)>, id: NodeId, w: nat, i: nat)
    requires DistinctIds(ps) && i < |ps|
    ensures Reweighted(ps, id, w)[i] == (ps[i].0, if ps[i].0 == id then w else ps[i].1)
  {
  }

  /** The weight the last applicable change gives an id. */
  function ChangedWeight(changes: seq<(NodeId, nat)>, id: NodeId, w: nat): nat {
    if changes == [] then w
    else if changes[|changes| - 1].0 == id then changes[|changes| - 1].1
    else ChangedWeight(changes[..|changes| - 1], id, w)
  }

  lemma {:induction false} ChangedAt(ps: seq<(NodeId, nat)>, changes: seq<(NodeId, nat)>)
    requires DistinctIds(ps)
    ensures DistinctIds(Changed(ps, changes))
    ensures forall i :: 0 <= i < |ps| ==>
      Changed(ps, changes)[i] == (ps[i].0, ChangedWeight(changes, ps[i].0, ps[i].1))
  {
    if changes == [] {
    } else {
      var front, c := changes[..|changes| - 1], changes[|changes| - 1];
      ChangedAt(ps, front);
      var q := Changed(ps, front);
      forall i | 0 <= i < |q| ensures Reweighted(q, c.0, c.1)[i] == (q[i].0, if q[i].0 == c.0 then c.1 else q[i].1) {
        ReweightedAt(q, c.0, c.1, i);
      }
    }
  }

  lemma {:induction false} ChangedWeightIsMap(changes: seq<(NodeId, nat)>, id: NodeId, w: nat)
    requires DistinctIds(changes)
    ensures ChangedWeight(changes, id, w) == if id in PairsMap(changes) then PairsMap(changes)[id] else w
  {
    if changes == [] {
    } else {
      FrontLacksLast(changes);
      ChangedWeightIsMap(changes[..|changes| - 1], id, w);
    }
  }

  predicate IdsDisjoint(a: seq<(NodeId, nat)>, b: seq<(NodeId, nat)>) {
    forall i, j :: 0 <= i < |a| && 0 <= j < |b| ==> a[i].0 != b[j].0
  }

  lemma ConcatDistinct(a: seq<(NodeId, nat)>, b: seq<(NodeId, nat)>)
    requires DistinctIds(a) && DistinctIds(b) && IdsDisjoint(a, b)
    ensures DistinctIds(a + b)
    ensures b != [] ==> DistinctIds(b[..|b| - 1]) && IdsDisjoint(a, b[..|b| - 1])
  {
  }

  lemma ConcatNothing(a: seq<(NodeId, nat)>)
    ensures PairsMap(a + []) == PairsMap(a) + PairsMap([])
  {
    assert a + [] == a;
  }

  lemma {:induction false} ConcatMap(a: seq<(NodeId, nat)>, b: seq<(NodeId, nat)>)
    requires DistinctIds(a) && DistinctIds(b) && IdsDisjoint(a, b)
    ensures PairsMap(a + b) == PairsMap(a) + PairsMap(b)
  {
    hide *;
    if b == [] {
      ConcatNothing(a);
    } else {
      ConcatDistinct(a, b);
      var front := b[..|b| - 1];
      ConcatMap(a, front);
      assert (a + b)[..|a + b| - 1] == a + front;
      FrontLacksLast(b);
      FrontLacksLast(a + b);
    }
  }

  lemma UniqueIsDistinct(ps: seq<(NodeId, nat)>)
    ensures Unique(Ids(ps)) <==> DistinctIds(ps)
  {
    if Unique(Ids(ps)) {
      forall i, j | 0 <= i < j < |ps| ensures ps[i].0 != ps[j].0 {
        assert Ids(ps)[i] != Ids(ps)[j];
      }
    }
  }

  /** The members kept and reweighted, before the adds are appended. */
  lemma KeptChangedMap(current: ValidatorSet, cmd: ReconfigCommand)
    requires WellFormed(current) && DistinctIds(cmd.changes)
    ensures var q := Changed(Kept(Pairs(current), cmd.removes), cmd.changes);
      && DistinctIds(q)
      && (forall id :: id in PairsMap(q) <==> id in AsMap(current) && id !in cmd.removes)
      && (forall id :: id in PairsMap(q) ==>
            PairsMap(q)[id] == if id in PairsMap(cmd.changes) then PairsMap(cmd.changes)[id] else AsMap(current)[id])
  {
    var ps := Pairs(current);
    PairsDistinct(current);
    KeptMeaning(ps, cmd.removes);
    var k := Kept(ps, cmd.removes);
    ChangedAt(k, cmd.changes);
    var q := Changed(k, cmd.changes);
    forall id | id in PairsMap(q)
      ensures id in AsMap(current) && id !in cmd.removes
      ensures id in AsMap(current) && PairsMap(q)[id] ==
        if id in PairsMap(cmd.changes) then PairsMap(cmd.changes)[id] else AsMap(current)[id]
    {
      InMap(q, id);
      var i :| 0 <= i < |q| && q[i] == (id, PairsMap(q)[id]);
      assert k[i] in k;
      var j :| 0 <= j < |ps| && ps[j] == k[i];
      DistinctLookup(ps, j);
      ChangedWeightIsMap(cmd.changes, id, k[i].1);
    }
    forall id | id in AsMap(current) && id !in cmd.removes ensures id in PairsMap(q) {
      InMap(ps, id);
      assert (id, AsMap(current)[id]) in k;
      var i :| 0 <= i < |k| && k[i].0 == id;
      assert q[i].0 == id;
      InMap(q, id);
    }
  }

  /** The unsorted next members: distinct, positive, and with the weights the command says. */
  lemma NextUnsorted(current: ValidatorSet, cmd: ReconfigCommand, c: Checks, view: nat, delay: nat)
    requires WellFormed(current) && CheckCommand(c, cmd, current.members, view, delay).None?
    ensures var all := Changed(Kept(Pairs(current), cmd.removes), cmd.changes) + AddPairs(cmd.adds);
      DistinctIds(all) && PairsMap(all) == NextMap(AsMap(current), cmd)
  {
    UniqueIsDistinct(cmd.changes);
    KeptChangedMap(current, cmd);
    var q, a := Changed(Kept(Pairs(current), cmd.removes), cmd.changes), AddPairs(cmd.adds);
    AddsDistinct(cmd.adds);
    AddsAreNew(current, cmd.adds);
    forall i, j | 0 <= i < |q| && 0 <= j < |a| ensures q[i].0 != a[j].0 {
      DistinctLookup(q, i);
      DistinctLookup(a, j);
    }
    ConcatDistinct(q, a);
    ConcatMap(q, a);
    assert PairsMap(q) + PairsMap(a) == NextMap(AsMap(current), cmd);
  }

  lemma AddsAreNew(current: ValidatorSet, adds: seq<AddEntry>)
    requires |current.members| == |current.weights| && Disjoint(AddIds(adds), current.members)
    ensures forall id :: id in PairsMap(AddPairs(adds)) ==> id !in AsMap(current)
  {
    var a := AddPairs(adds);
    forall id | id in PairsMap(a) ensures id !in AsMap(current) {
      InMap(a, id);
      var j :| 0 <= j < |a| && a[j].0 == id;
      assert AddIds(adds)[j] !in current.members;
      MapOfMember(current, id);
    }
  }

  lemma AddsDistinct(adds: seq<AddEntry>)
    ensures Unique(AddIds(adds)) <==> DistinctIds(AddPairs(adds))
  {
    if Unique(AddIds(adds)) {
      forall i, j | 0 <= i < j < |adds| ensures AddPairs(adds)[i].0 != AddPairs(adds)[j].0 {
        assert AddIds(adds)[i] != AddIds(adds)[j];
      }
    }
    if DistinctIds(AddPairs(adds)) {
      forall i, j | 0 <= i < j < |adds| ensures AddIds(adds)[i] != AddIds(adds)[j] {
        assert AddPairs(adds)[i].0 != AddPairs(adds)[j].0;
      }
    }
  }

  lemma NextPositive(m: map<NodeId, nat>, cmd: ReconfigCommand, id: NodeId)
    requires (forall x :: x in m ==> m[x] > 0) && NoZero(AddPairs(cmd.adds)) && NoZero(cmd.changes)
    requires id in NextMap(m, cmd)
    ensures NextMap(m, cmd)[id] > 0
  {
    InMap(AddPairs(cmd.adds), id);
    InMap(cmd.changes, id);
  }

  lemma SetWeightsPositive(vs: ValidatorSet, id: NodeId)
    requires WellFormed(vs) && id in AsMap(vs)
    ensures AsMap(vs)[id] > 0
  {
    InMap(Pairs(vs), id);
  }

  /**
   * An accepted command takes effect at least four views ahead and yields a well-formed set of at
   * least four validators whose weights are exactly the old ones with the command applied.
   */
  lemma AcceptedMeans(c: Checks, cmd: ReconfigCommand, current: ValidatorSet, view: nat, delay: nat)
    requires WellFormed(current) && Validate(c, cmd, current, view, delay).Ok?
    ensures cmd.vEff >= view + Max(delay, MIN_V_EFF_DELAY)
    ensures var r := WithWeights(Validate(c, cmd, current, view, delay).value);
      && r.Ok? && WellFormed(r.value) && |r.value.members| >= MIN_VALIDATOR_FLOOR
      && AsMap(r.value) == NextMap(AsMap(current), cmd)
  {
    NextUnsorted(current, cmd, c, view, delay);
    var all := Changed(Kept(Pairs(current), cmd.removes), cmd.changes) + AddPairs(cmd.adds);
    SortOfDistinct(all);
    var next := NextPairs(cmd, current);
    forall i | 0 <= i < |next| ensures next[i].1 > 0 {
      DistinctLookup(next, i);
      forall x | x in AsMap(current) ensures AsMap(current)[x] > 0 { SetWeightsPositive(current, x); }
      NextPositive(AsMap(current), cmd, next[i].0);
    }
    WithWeightsDistinct(next);
  }

  predicate PopVerifies(c: Checks, a: AddEntry) { a.pop.Some? && c.pop(a.pop.value, a.pop.value.pubkey) }

  predicate ConsentVerifies(c: Checks, a: AddEntry, vEff: nat) {
    a.operator.Some? ==> a.consent.Some? && c.consent(a, a.consent.value, vEff)
  }

  /** The adds pass exactly when every one carries a proof of possession that verifies. */
  lemma {:induction false} AcceptedAddsHavePop(c: Checks, adds: seq<AddEntry>)
    ensures PopError(c, adds).None? <==> forall i :: 0 <= i < |adds| ==> PopVerifies(c, adds[i])
  {
    if adds == [] {
    } else {
      var front, last := adds[..|adds| - 1], adds[|adds| - 1];
      AcceptedAddsHavePop(c, front);
      assert forall i :: 0 <= i < |front| ==> adds[i] == front[i];
      assert PopVerifies(c, adds[|adds| - 1]) == PopVerifies(c, last);
    }
  }

  /** The adds pass exactly when every one that declares an operator key carries a consent that verifies. */
  lemma {:induction false} AcceptedAddsConsent(c: Checks, adds: seq<AddEntry>, vEff: nat)
    ensures ConsentError(c, adds, vEff).None? <==> forall i :: 0 <= i < |adds| ==> ConsentVerifies(c, adds[i], vEff)
  {
    if adds == [] {
    } else {
      var front, last := adds[..|adds| - 1], adds[|adds| - 1];
      AcceptedAddsConsent(c, front, vEff);
      assert forall i :: 0 <= i < |front| ==> adds[i] == front[i];
      assert ConsentVerifies(c, adds[|adds| - 1], vEff) == ConsentVerifies(c, last, vEff);
    }
  }

  // ---------------------------------------------------------------------------
  // The validation loops

  method HasDuplicate(ids: seq<NodeId>) returns (dup: bool)
    ensures dup <==> !Unique(ids)
  {
    var seen: set<NodeId> := {};
    for i := 0 to |ids|
      invariant forall x :: x in seen <==> x in ids[..i]
      invariant Unique(ids[..i])
    {
      if ids[i] in seen {
        var j :| 0 <= j < i && ids[j] == ids[i];
        return true;
      }
      seen := seen + {ids[i]};
    }
    assert ids[..|ids|] == ids;
    return false;
  }

  method Overlap(a: seq<NodeId>, b: seq<NodeId>) returns (hit: bool)
    ensures hit <==> !Disjoint(a, b)
  {
    for i := 0 to |a|
      invariant forall j :: 0 <= j < i ==> a[j] !in b
    {
      if a[i] in b {
        return true;
      }
    }
    return false;
  }

  method AnyMissing(a: seq<NodeId>, b: seq<NodeId>) returns (missing: bool)
    ensures missing <==> !AllIn(a, b)
  {
    for i := 0 to |a|
      invariant forall j :: 0 <= j < i ==> a[j] in b
    {
      if a[i] !in b {
        return true;
      }
    }
    return false;
  }

  method AnyZero(ps: seq<(NodeId, nat)>) returns (zero: bool)
    ensures zero <==> !NoZero(ps)
  {
    for i := 0 to |ps|
      invariant forall j :: 0 <= j < i ==> ps[j].1 != 0
    {
      if ps[i].1 == 0 {
        return true;
      }
    }
    return false;
  }

  method CheckPops(c: Checks, adds: seq<AddEntry>) returns (e: Option<ReconfigError>)
    ensures e == PopError(c, adds)
  {
    for i := 0 to |adds|
      invariant PopError(c, adds[..i]).None?
    {
      assert adds[..i + 1][..i] == adds[..i];
      if adds[i].pop.None? {
        PopErrorSticks(c, adds, i + 1);
        return Some(MissingPop);
      }
      if !c.pop(adds[i].pop.value, adds[i].pop.value.pubkey) {
        PopErrorSticks(c, adds, i + 1);
        return Some(BadPop);
      }
    }
    assert adds[..|adds|] == adds;
    return None;
  }

  lemma {:induction false} PopErrorSticks(c: Checks, adds: seq<AddEntry>, k: nat)
    requires k <= |adds| && PopError(c, adds[..k]).Some?
    ensures PopError(c, adds) == PopError(c, adds[..k])
    decreases |adds|
  {
    if k < |adds| {
      assert adds[..|adds| - 1][..k] == adds[..k];
      PopErrorSticks(c, adds[..|adds| - 1], k);
    } else {
      assert adds[..k] == adds;
    }
  }

  method CheckConsents(c: Checks, adds: seq<AddEntry>, vEff: nat) returns (e: Option<ReconfigError>)
    ensures e == ConsentError(c, adds, vEff)
  {
    for i := 0 to |adds|
      invariant ConsentError(c, adds[..i], vEff).None?
    {
      assert adds[..i + 1][..i] == adds[..i];
      if adds[i].operator.None? {
        continue;
      }
      if adds[i].consent.None? {
        ConsentErrorSticks(c, adds, vEff, i + 1);
        return Some(MissingConsent);
      }
      if !c.consent(adds[i], adds[i].consent.value, vEff) {
        ConsentErrorSticks(c, adds, vEff, i + 1);
        return Some(BadConsent);
      }
    }
    assert adds[..|adds|] == adds;
    return None;
  }

  lemma {:induction false} ConsentErrorSticks(c: Checks, adds: seq<AddEntry>, vEff: nat, k: nat)
    requires k <= |adds| && ConsentError(c, adds[..k], vEff).Some?
    ensures ConsentError(c, adds, vEff) == ConsentError(c, adds[..k], vEff)
    decreases |adds|
  {
    if k < |adds| {
      assert adds[..|adds| - 1][..k] == adds[..k];
      ConsentErrorSticks(c, adds[..|adds| - 1], vEff, k);
    } else {
      assert adds[..k] == adds;
    }
  }

  /** All refusals, in the order of the source. */
  method Check(c: Checks, cmd: ReconfigCommand, members: seq<NodeId>, view: nat, delay: nat) returns (e: Option<ReconfigError>)
    ensures e == CheckCommand(c, cmd, members, view, delay)
  {
    var minVEff := view + Max(delay, MIN_V_EFF_DELAY);
    if minVEff > U64_MAX { return Some(ViewOverflow); }
    if cmd.vEff < minVEff { return Some(TooSoon); }
    var bad := AnyZero(AddPairs(cmd.adds));
    if bad { return Some(ZeroWeightAdd); }
    bad := AnyZero(cmd.changes);
    if bad { return Some(ZeroWeightChange); }
    bad := HasDuplicate(AddIds(cmd.adds));
    if bad { return Some(DuplicateAdd); }
    bad := HasDuplicate(cmd.removes);
    if bad { return Some(DuplicateRemove); }
    bad := HasDuplicate(Ids(cmd.changes));
    if bad { return Some(DuplicateChange); }
    bad := Overlap(AddIds(cmd.adds), cmd.removes);
    if bad { return Some(AddAndRemove); }
    bad := Overlap(AddIds(cmd.adds), Ids(cmd.changes));
    if bad { return Some(AddAndChange); }
    bad := Overlap(cmd.removes, Ids(cmd.changes));
    if bad { return Some(RemoveAndChange); }
    bad := AnyMissing(cmd.removes, members);
    if bad { return Some(RemoveNonMember); }
    bad := Overlap(AddIds(cmd.adds), members);
    if bad { return Some(AddExistingMember); }
    bad := AnyMissing(Ids(cmd.changes), members);
    if bad { return Some(ChangeNonMember); }
    e := CheckPops(c, cmd.adds);
    if e.Some? { return; }
    e := CheckConsents(c, cmd.adds, cmd.vEff);
  }

  method Keep(ps: seq<(NodeId, nat)>, removes: seq<NodeId>) returns (next: seq<(NodeId, nat)>)
    ensures next == Kept(ps, removes)
  {
    next := [];
    for i := 0 to |ps|
      invariant next == Kept(ps[..i], removes)
    {
      assert ps[..i + 1][..i] == ps[..i];
      if ps[i].0 !in removes {
        next := next + [ps[i]];
      }
    }
    assert ps[..|ps|] == ps;
  }

  method Reweigh(ps: seq<(NodeId, nat)>, id: NodeId, w: nat) returns (next: seq<(NodeId, nat)>)
    ensures next == Reweighted(ps, id, w)
  {
    for i := 0 to |ps|
      invariant Find(ps, id, 0) == Find(ps, id, i)
    {
      if ps[i].0 == id {
        return ps[i := (id, w)];
      }
    }
    return ps;
  }

  /** `validate_against_with_delay_and_chain`, loop by loop. */
  method ValidateAgainst(c: Checks, cmd: ReconfigCommand, current: ValidatorSet, view: nat, delay: nat)
    returns (r: Result<seq<(NodeId, nat)>, ReconfigError>)
    requires |current.members| == |current.weights|
    ensures r == Validate(c, cmd, current, view, delay)
  {
    var e := Check(c, cmd, current.members, view, delay);
    if e.Some? {
      return Err(e.value);
    }
    var next := Keep(Pairs(current), cmd.removes);
    ghost var kept := next;
    for i := 0 to |cmd.changes|
      invariant next == Changed(kept, cmd.changes[..i])
    {
      assert cmd.changes[..i + 1][..i] == cmd.changes[..i];
      next := Reweigh(next, cmd.changes[i].0, cmd.changes[i].1);
    }
    assert cmd.changes[..|cmd.changes|] == cmd.changes;
    ghost var changed := next;
    for i := 0 to |cmd.adds|
      invariant next == changed + AddPairs(cmd.adds)[..i]
    {
      next := next + [(cmd.adds[i].nodeId, cmd.adds[i].weight)];
    }
    assert AddPairs(cmd.adds)[..|cmd.adds|] == AddPairs(cmd.adds);
    next := DedupById(SortById(next));
    if |next| < MIN_VALIDATOR_FLOOR {
      return Err(BelowFloor);
    }
    return Ok(next);
  }
}
