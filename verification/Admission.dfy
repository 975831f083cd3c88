/**
 * Exactly which reconfiguration commands are accepted, which refusal the others meet, and what an
 * accepted one does to the set history.
 */
module Admission {
  import opened Common
  import opened ValidatorSets
  import opened SetHistory
  import opened KeyHistories
  import opened Reconfig
  import opened Histories

  // ---------------------------------------------------------------------------
  // The conditions, one by one

  predicate PositiveWeights(cmd: ReconfigCommand) {
    && (forall i :: 0 <= i < |cmd.adds| ==> cmd.adds[i].weight > 0)
    && (forall i :: 0 <= i < |cmd.changes| ==> cmd.changes[i].1 > 0)
  }

  /** Nobody is named twice, in one list or in two. */
  predicate NamedOnce(cmd: ReconfigCommand) {
    && (forall i, j :: 0 <= i < j < |cmd.adds| ==> cmd.adds[i].nodeId != cmd.adds[j].nodeId)
    && (forall i, j :: 0 <= i < j < |cmd.removes| ==> cmd.removes[i] != cmd.removes[j])
    && (forall i, j :: 0 <= i < j < |cmd.changes| ==> cmd.changes[i].0 != cmd.changes[j].0)
    && (forall i, j :: 0 <= i < |cmd.adds| && 0 <= j < |cmd.removes| ==> cmd.adds[i].nodeId != cmd.removes[j])
    && (forall i, j :: 0 <= i < |cmd.adds| && 0 <= j < |cmd.changes| ==> cmd.adds[i].nodeId != cmd.changes[j].0)
    && (forall i, j :: 0 <= i < |cmd.removes| && 0 <= j < |cmd.changes| ==> cmd.removes[i] != cmd.changes[j].0)
  }

  predicate NamesMembers(cmd: ReconfigCommand, members: seq<NodeId>) {
    && (forall i :: 0 <= i < |cmd.removes| ==> cmd.removes[i] in members)
    && (forall i :: 0 <= i < |cmd.changes| ==> cmd.changes[i].0 in members)
    && (forall i :: 0 <= i < |cmd.adds| ==> cmd.adds[i].nodeId !in members)
  }

  predicate Vouched(c: Checks, cmd: ReconfigCommand) {
    forall i :: 0 <= i < |cmd.adds| ==> PopVerifies(c, cmd.adds[i]) && ConsentVerifies(c, cmd.adds[i], cmd.vEff)
  }

  predicate OnTime(cmd: ReconfigCommand, view: nat, delay: nat) {
    && view + delay <= U64_MAX && view + 4 <= U64_MAX && view + delay <= cmd.vEff && view + 4 <= cmd.vEff
  }

  /** At least four members remain. */
  predicate Admissible(c: Checks, cmd: ReconfigCommand, current: ValidatorSet, view: nat, delay: nat) {
    && OnTime(cmd, view, delay) && PositiveWeights(cmd) && NamedOnce(cmd) && NamesMembers(cmd, current.members)
    && Vouched(c, cmd) && |current.members| + |cmd.adds| >= |cmd.removes| + 4
  }

  lemma ZeroesIff(cmd: ReconfigCommand)
    ensures NoZero(AddPairs(cmd.adds)) && NoZero(cmd.changes) <==> PositiveWeights(cmd)
  {
    if NoZero(AddPairs(cmd.adds)) {
      forall i | 0 <= i < |cmd.adds| ensures cmd.adds[i].weight > 0 { assert AddPairs(cmd.adds)[i].1 != 0; }
    }
  }

  lemma UniqueIff(cmd: ReconfigCommand)
    ensures Unique(AddIds(cmd.adds)) <==> forall i, j :: 0 <= i < j < |cmd.adds| ==> cmd.adds[i].nodeId != cmd.adds[j].nodeId
    ensures Unique(Ids(cmd.changes)) <==> forall i, j :: 0 <= i < j < |cmd.changes| ==> cmd.changes[i].0 != cmd.changes[j].0
  {
    var a, b := AddIds(cmd.adds), Ids(cmd.changes);
    assert forall i :: 0 <= i < |a| ==> a[i] == cmd.adds[i].nodeId;
    assert forall i :: 0 <= i < |b| ==> b[i] == cmd.changes[i].0;
  }

  lemma DisjointIff(a: seq<NodeId>, b: seq<NodeId>)
    ensures Disjoint(a, b) <==> forall i, j :: 0 <= i < |a| && 0 <= j < |b| ==> a[i] != b[j]
  {
    if !Disjoint(a, b) {
      var i :| 0 <= i < |a| && a[i] in b;
      var j :| 0 <= j < |b| && b[j] == a[i];
    }
  }

  lemma NamedOnceIff(cmd: ReconfigCommand)
    ensures NamedOnce(cmd) <==>
      && Unique(AddIds(cmd.adds)) && Unique(cmd.removes) && Unique(Ids(cmd.changes))
      && Disjoint(AddIds(cmd.adds), cmd.removes) && Disjoint(AddIds(cmd.adds), Ids(cmd.changes)) && Disjoint(cmd.removes, Ids(cmd.changes))
  {
    hide Disjoint, Unique, AddIds, Ids;
    UniqueIff(cmd);
    DisjointIff(AddIds(cmd.adds), cmd.removes);
    DisjointIff(AddIds(cmd.adds), Ids(cmd.changes));
    DisjointIff(cmd.removes, Ids(cmd.changes));
    IdsAt(cmd);
    UniqueRemoves(cmd.removes);
  }

  lemma UniqueRemoves(ids: seq<NodeId>)
    ensures Unique(ids) <==> forall i, j :: 0 <= i < j < |ids| ==> ids[i] != ids[j]
  {
  }

  lemma IdsAt(cmd: ReconfigCommand)
    ensures |AddIds(cmd.adds)| == |cmd.adds| && |Ids(cmd.changes)| == |cmd.changes|
    ensures forall i :: 0 <= i < |cmd.adds| ==> AddIds(cmd.adds)[i] == cmd.adds[i].nodeId
    ensures forall i :: 0 <= i < |cmd.changes| ==> Ids(cmd.changes)[i] == cmd.changes[i].0
  {
  }

  lemma MembersIff(cmd: ReconfigCommand, members: seq<NodeId>)
    ensures NamesMembers(cmd, members) <==>
      AllIn(cmd.removes, members) && AllIn(Ids(cmd.changes), members) && Disjoint(AddIds(cmd.adds), members)
  {
    hide AddIds, Ids;
    IdsAt(cmd);
  }

  // ---------------------------------------------------------------------------
  // How many members remain

  function IdSet(ps: seq<(NodeId, nat)>): set<NodeId> { if ps == [] then {} else IdSet(ps[..|ps| - 1]) + {ps[|ps| - 1].0} }

  lemma {:induction false} InIdSet(ps: seq<(NodeId, nat)>, id: NodeId)
    ensures id in IdSet(ps) <==> exists y :: y in ps && y.0 == id
  {
    if ps == [] {
    } else {
      var front, last := ps[..|ps| - 1], ps[|ps| - 1];
      assert ps == front + [last];
      InIdSet(front, id);
    }
  }

  lemma {:induction false} IdSetSize(ps: seq<(NodeId, nat)>)
    requires DistinctIds(ps)
    ensures |IdSet(ps)| == |ps|
  {
    if ps == [] {
    } else {
      var front, last := ps[..|ps| - 1], ps[|ps| - 1];
      IdSetSize(front);
      InIdSet(front, last.0);
    }
  }

  function Elements(ids: seq<NodeId>): set<NodeId> { if ids == [] then {} else Elements(ids[..|ids| - 1]) + {ids[|ids| - 1]} }

  lemma {:induction false} InElements(ids: seq<NodeId>, id: NodeId)
    ensures id in Elements(ids) <==> id in ids
  {
    if ids == [] {
    } else {
      InElements(ids[..|ids| - 1], id);
      assert ids == ids[..|ids| - 1] + [ids[|ids| - 1]];
    }
  }

  lemma {:induction false} ElementsSize(ids: seq<NodeId>)
    requires Unique(ids)
    ensures |Elements(ids)| == |ids|
  {
    if ids == [] {
    } else {
      var front, last := ids[..|ids| - 1], ids[|ids| - 1];
      ElementsSize(front);
      InElements(front, last);
    }
  }

  lemma KeptIds(ps: seq<(NodeId, nat)>, removes: seq<NodeId>)
    requires DistinctIds(ps)
    ensures IdSet(Kept(ps, removes)) == IdSet(ps) - Elements(removes)
  {
    hide IdSet, Kept, DistinctIds;
    KeptMeaning(ps, removes);
    var k := Kept(ps, removes);
    forall id ensures id in IdSet(k) <==> id in IdSet(ps) && id !in Elements(removes) {
      InIdSet(ps, id);
      InIdSet(k, id);
      InElements(removes, id);
    }
  }

  lemma RemovesAreIds(current: ValidatorSet, removes: seq<NodeId>)
    requires |current.members| == |current.weights| && AllIn(removes, current.members)
    ensures Elements(removes) <= IdSet(Pairs(current))
  {
    forall id | id in Elements(removes) ensures id in IdSet(Pairs(current)) {
      InElements(removes, id);
      InIdSet(Pairs(current), id);
      var i :| 0 <= i < |current.members| && current.members[i] == id;
      assert Pairs(current)[i] in Pairs(current) && Pairs(current)[i].0 == id;
    }
  }

  lemma KeptSize(current: ValidatorSet, removes: seq<NodeId>)
    requires WellFormed(current) && Unique(removes) && AllIn(removes, current.members)
    ensures |Kept(Pairs(current), removes)| + |removes| == |current.members|
  {
    hide Kept, Unique, IdSet, Elements, DistinctIds, Pairs, AllIn;
    var ps := Pairs(current);
    PairsDistinct(current);
    KeptMeaning(ps, removes);
    IdSetSize(ps);
    IdSetSize(Kept(ps, removes));
    ElementsSize(removes);
    KeptIds(ps, removes);
    RemovesAreIds(current, removes);
    assert |ps| == |current.members|;
    assert |IdSet(ps) - Elements(removes)| == |IdSet(ps)| - |Elements(removes)|;
  }

  lemma NextSize(c: Checks, cmd: ReconfigCommand, current: ValidatorSet, view: nat, delay: nat)
    requires WellFormed(current) && CheckCommand(c, cmd, current.members, view, delay).None?
    ensures |NextPairs(cmd, current)| + |cmd.removes| == |current.members| + |cmd.adds|
  {
    hide Kept, Changed, Pairs, SortById, DedupById, Unique, Disjoint, NoZero;
    NextUnsorted(current, cmd, c, view, delay);
    SortOfDistinct(Changed(Kept(Pairs(current), cmd.removes), cmd.changes) + AddPairs(cmd.adds));
    KeptSize(current, cmd.removes);
  }

  /** A command is accepted if and only if it is admissible. */
  lemma ValidateIff(c: Checks, cmd: ReconfigCommand, current: ValidatorSet, view: nat, delay: nat)
    requires WellFormed(current)
    ensures Validate(c, cmd, current, view, delay).Ok? <==> Admissible(c, cmd, current, view, delay)
  {
    hide Kept, Changed, Pairs, SortById, DedupById, Unique, Disjoint, NoZero, AllIn, PopError, ConsentError,
      PositiveWeights, NamedOnce, NamesMembers, PopVerifies, ConsentVerifies, WellFormed, AddIds, Ids, AddPairs, NextPairs;
    ZeroesIff(cmd);
    NamedOnceIff(cmd);
    MembersIff(cmd, current.members);
    AcceptedAddsHavePop(c, cmd.adds);
    AcceptedAddsConsent(c, cmd.adds, cmd.vEff);
    if CheckCommand(c, cmd, current.members, view, delay).None? { NextSize(c, cmd, current, view, delay); }
  }

  // ---------------------------------------------------------------------------
  // Which refusal

  /** Something is wrong with the command, in the order in which it is looked for. */
  predicate Fails(cmd: ReconfigCommand, members: seq<NodeId>, view: nat, delay: nat, k: nat) {
    match k
    case 0 => view + delay > U64_MAX || view + 4 > U64_MAX
    case 1 => cmd.vEff < view + delay || cmd.vEff < view + 4
    case 2 => exists i :: 0 <= i < |cmd.adds| && cmd.adds[i].weight == 0
    case 3 => exists i :: 0 <= i < |cmd.changes| && cmd.changes[i].1 == 0
    case 4 => exists i, j :: 0 <= i < j < |cmd.adds| && cmd.adds[i].nodeId == cmd.adds[j].nodeId
    case 5 => exists i, j :: 0 <= i < j < |cmd.removes| && cmd.removes[i] == cmd.removes[j]
    case 6 => exists i, j :: 0 <= i < j < |cmd.changes| && cmd.changes[i].0 == cmd.changes[j].0
    case 7 => exists i, j :: 0 <= i < |cmd.adds| && 0 <= j < |cmd.removes| && cmd.adds[i].nodeId == cmd.removes[j]
    case 8 => exists i, j :: 0 <= i < |cmd.adds| && 0 <= j < |cmd.changes| && cmd.adds[i].nodeId == cmd.changes[j].0
    case 9 => exists i, j :: 0 <= i < |cmd.removes| && 0 <= j < |cmd.changes| && cmd.removes[i] == cmd.changes[j].0
    case 10 => exists i :: 0 <= i < |cmd.removes| && cmd.removes[i] !in members
    case 11 => exists i :: 0 <= i < |cmd.adds| && cmd.adds[i].nodeId in members
    case 12 => exists i :: 0 <= i < |cmd.changes| && cmd.changes[i].0 !in members
    case _ => false
  }

  function Refusal(k: nat): ReconfigError {
    match k
    case 0 => ViewOverflow
    case 1 => TooSoon
    case 2 => ZeroWeightAdd
    case 3 => ZeroWeightChange
    case 4 => DuplicateAdd
    case 5 => DuplicateRemove
    case 6 => DuplicateChange
    case 7 => AddAndRemove
    case 8 => AddAndChange
    case 9 => RemoveAndChange
    case 10 => RemoveNonMember
    case 11 => AddExistingMember
    case _ => ChangeNonMember
  }

  lemma FailsIff(cmd: ReconfigCommand, members: seq<NodeId>, view: nat, delay: nat)
    ensures Fails(cmd, members, view, delay, 2) <==> !NoZero(AddPairs(cmd.adds))
    ensures Fails(cmd, members, view, delay, 3) <==> !NoZero(cmd.changes)
    ensures Fails(cmd, members, view, delay, 4) <==> !Unique(AddIds(cmd.adds))
    ensures Fails(cmd, members, view, delay, 5) <==> !Unique(cmd.removes)
    ensures Fails(cmd, members, view, delay, 6) <==> !Unique(Ids(cmd.changes))
  {
    hide AddIds, Ids, NoZero, AddPairs, Unique;
    ZeroAt(cmd);
    UniqueIff(cmd);
    UniqueRemoves(cmd.removes);
  }

  lemma OverlapFailsIff(cmd: ReconfigCommand, members: seq<NodeId>, view: nat, delay: nat)
    ensures Fails(cmd, members, view, delay, 7) <==> !Disjoint(AddIds(cmd.adds), cmd.removes)
    ensures Fails(cmd, members, view, delay, 8) <==> !Disjoint(AddIds(cmd.adds), Ids(cmd.changes))
    ensures Fails(cmd, members, view, delay, 9) <==> !Disjoint(cmd.removes, Ids(cmd.changes))
  {
    hide Disjoint, AddIds, Ids;
    IdsAt(cmd);
    DisjointIff(AddIds(cmd.adds), cmd.removes);
    DisjointIff(AddIds(cmd.adds), Ids(cmd.changes));
    DisjointIff(cmd.removes, Ids(cmd.changes));
  }

  lemma MembersFailIff(cmd: ReconfigCommand, members: seq<NodeId>, view: nat, delay: nat)
    ensures Fails(cmd, members, view, delay, 10) <==> !AllIn(cmd.removes, members)
    ensures Fails(cmd, members, view, delay, 11) <==> !Disjoint(AddIds(cmd.adds), members)
    ensures Fails(cmd, members, view, delay, 12) <==> !AllIn(Ids(cmd.changes), members)
  {
    hide Disjoint, AddIds, Ids;
    IdsAt(cmd);
    DisjointMeans(AddIds(cmd.adds), members);
  }

  lemma DisjointMeans(a: seq<NodeId>, b: seq<NodeId>)
    ensures Disjoint(a, b) <==> forall i :: 0 <= i < |a| ==> a[i] !in b
  {
  }

  lemma ZeroAt(cmd: ReconfigCommand)
    ensures NoZero(AddPairs(cmd.adds)) <==> forall i :: 0 <= i < |cmd.adds| ==> cmd.adds[i].weight != 0
    ensures NoZero(cmd.changes) <==> forall i :: 0 <= i < |cmd.changes| ==> cmd.changes[i].1 != 0
  {
    var a := AddPairs(cmd.adds);
    assert forall i :: 0 <= i < |a| ==> a[i].1 == cmd.adds[i].weight;
  }

  /** A refused command meets the refusal of the first thing that is wrong with it. */
  lemma FirstRefusal(c: Checks, cmd: ReconfigCommand, current: ValidatorSet, view: nat, delay: nat, k: nat)
    requires |current.members| == |current.weights| && k <= 12 && Fails(cmd, current.members, view, delay, k)
    requires forall j :: 0 <= j < k ==> !Fails(cmd, current.members, view, delay, j)
    ensures Validate(c, cmd, current, view, delay) == Err(Refusal(k))
  {
    hide Unique, Disjoint, NoZero, AllIn, AddIds, Ids, AddPairs, NextPairs, PopError, ConsentError;
    FailsIff(cmd, current.members, view, delay);
    OverlapFailsIff(cmd, current.members, view, delay);
    MembersFailIff(cmd, current.members, view, delay);
    if k > 0 { assert !Fails(cmd, current.members, view, delay, 0); }
    if k > 1 { assert !Fails(cmd, current.members, view, delay, 1); }
  }

  lemma {:induction false} PopRefusal(c: Checks, adds: seq<AddEntry>, i: nat)
    requires i < |adds| && !PopVerifies(c, adds[i]) && forall j :: 0 <= j < i ==> PopVerifies(c, adds[j])
    ensures PopError(c, adds) == Some(if adds[i].pop.None? then MissingPop else BadPop)
  {
    AcceptedAddsHavePop(c, adds[..i]);
    assert adds[..i + 1][..i] == adds[..i];
    PopErrorSticks(c, adds, i + 1);
  }

  lemma {:induction false} ConsentRefusal(c: Checks, adds: seq<AddEntry>, vEff: nat, i: nat)
    requires i < |adds| && !ConsentVerifies(c, adds[i], vEff) && forall j :: 0 <= j < i ==> ConsentVerifies(c, adds[j], vEff)
    ensures ConsentError(c, adds, vEff) == Some(if adds[i].consent.None? then MissingConsent else BadConsent)
  {
    AcceptedAddsConsent(c, adds[..i], vEff);
    assert adds[..i + 1][..i] == adds[..i];
    ConsentErrorSticks(c, adds, vEff, i + 1);
  }

  // ---------------------------------------------------------------------------
  // What an accepted command does

  /** The add of the command for the validator, if there is one. */
  ghost predicate AddedAs(cmd: ReconfigCommand, id: NodeId, w: nat) {
    exists i :: 0 <= i < |cmd.adds| && cmd.adds[i].nodeId == id && cmd.adds[i].weight == w
  }

  ghost predicate ChangedTo(cmd: ReconfigCommand, id: NodeId, w: nat) {
    exists i :: 0 <= i < |cmd.changes| && cmd.changes[i] == (id, w)
  }

  predicate Weighs(vs: ValidatorSet, id: NodeId, w: nat) {
    exists i :: 0 <= i < |vs.members| == |vs.weights| && vs.members[i] == id && vs.weights[i] == w
  }

  predicate Named(cmd: ReconfigCommand, id: NodeId) {
    id in cmd.removes || (exists i :: 0 <= i < |cmd.changes| && cmd.changes[i].0 == id)
  }

  /** The new set: the adds, the changed members with their new weights, and the others as they were. */
  ghost predicate Reweighed(cmd: ReconfigCommand, current: ValidatorSet, next: ValidatorSet) {
    forall id, w :: Weighs(next, id, w) <==>
      AddedAs(cmd, id, w) || ChangedTo(cmd, id, w) || (Weighs(current, id, w) && !Named(cmd, id))
  }

  lemma WeighsIff(vs: ValidatorSet, id: NodeId, w: nat)
    requires WellFormed(vs)
    ensures Weighs(vs, id, w) <==> id in AsMap(vs) && AsMap(vs)[id] == w
  {
    PairsDistinct(vs);
    InMap(Pairs(vs), id);
    if Weighs(vs, id, w) {
      var i :| 0 <= i < |vs.members| == |vs.weights| && vs.members[i] == id && vs.weights[i] == w;
      DistinctLookup(Pairs(vs), i);
      assert Pairs(vs)[i] == (id, w);
    }
    if id in AsMap(vs) {
      var i :| 0 <= i < |Pairs(vs)| && Pairs(vs)[i] == (id, AsMap(vs)[id]);
      assert vs.members[i] == id;
    }
  }

  lemma LookupIff(ps: seq<(NodeId, nat)>, id: NodeId, w: nat)
    requires DistinctIds(ps)
    ensures id in PairsMap(ps) && PairsMap(ps)[id] == w <==> exists i :: 0 <= i < |ps| && ps[i] == (id, w)
    ensures id in PairsMap(ps) <==> exists i :: 0 <= i < |ps| && ps[i].0 == id
  {
    InMap(ps, id);
    if i :| 0 <= i < |ps| && ps[i] == (id, w) { DistinctLookup(ps, i); }
    if id in PairsMap(ps) { var i :| 0 <= i < |ps| && ps[i] == (id, PairsMap(ps)[id]); }
  }

  lemma AddedIff(cmd: ReconfigCommand, id: NodeId, w: nat)
    ensures AddedAs(cmd, id, w) <==> exists i :: 0 <= i < |AddPairs(cmd.adds)| && AddPairs(cmd.adds)[i] == (id, w)
  {
    var ps := AddPairs(cmd.adds);
    if i :| 0 <= i < |ps| && ps[i] == (id, w) { assert cmd.adds[i].nodeId == id && cmd.adds[i].weight == w; }
    if AddedAs(cmd, id, w) {
      var i :| 0 <= i < |cmd.adds| && cmd.adds[i].nodeId == id && cmd.adds[i].weight == w;
      assert ps[i] == (id, w);
    }
  }

  /** Member by member, the map of the next set is what the command says. */
  lemma NextMapIs(cmd: ReconfigCommand, current: ValidatorSet, id: NodeId, w: nat)
    requires WellFormed(current) && NamedOnce(cmd) && NamesMembers(cmd, current.members)
    ensures var m := NextMap(AsMap(current), cmd);
      id in m && m[id] == w <==>
        AddedAs(cmd, id, w) || ChangedTo(cmd, id, w) || (Weighs(current, id, w) && !Named(cmd, id))
  {
    hide NextMap, AsMap, AddPairs, Weighs, Pairs, NamedOnce, NamesMembers, AddedAs, PairsMap, DistinctIds, Named, ChangedTo;
    ListsDistinct(cmd);
    var adds := AddPairs(cmd.adds);
    LookupIff(adds, id, w);
    LookupIff(cmd.changes, id, w);
    AddedIff(cmd, id, w);
    ChangedIff(cmd, id, w);
    WeighsIff(current, id, w);
    MapOfMember(current, id);
    NextMapAt(AsMap(current), cmd, id);
    NamedIff(cmd, id);
    NamesApart(cmd, current.members, id);
  }

  lemma ChangedIff(cmd: ReconfigCommand, id: NodeId, w: nat)
    ensures ChangedTo(cmd, id, w) <==> exists i :: 0 <= i < |cmd.changes| && cmd.changes[i] == (id, w)
  {
  }

  lemma NamedIff(cmd: ReconfigCommand, id: NodeId)
    ensures Named(cmd, id) <==> id in cmd.removes || id in PairsMap(cmd.changes)
  {
    InMap(cmd.changes, id);
  }

  lemma ListsDistinct(cmd: ReconfigCommand)
    requires NamedOnce(cmd)
    ensures DistinctIds(AddPairs(cmd.adds)) && DistinctIds(cmd.changes)
  {
    assert forall i :: 0 <= i < |cmd.adds| ==> AddPairs(cmd.adds)[i].0 == cmd.adds[i].nodeId;
  }

  lemma NextMapAt(m: map<NodeId, nat>, cmd: ReconfigCommand, id: NodeId)
    ensures var adds, changes, next := PairsMap(AddPairs(cmd.adds)), PairsMap(cmd.changes), NextMap(m, cmd);
      && (id in next <==> id in adds || (id in m && id !in cmd.removes))
      && (id in next ==> next[id] == if id in adds then adds[id] else if id in changes then changes[id] else m[id])
  {
  }

  /** Who is added is neither changed nor a member; who is changed is a member and not removed. */
  lemma NamesApart(cmd: ReconfigCommand, members: seq<NodeId>, id: NodeId)
    requires NamedOnce(cmd) && NamesMembers(cmd, members)
    ensures id in PairsMap(AddPairs(cmd.adds)) ==> id !in members && id !in PairsMap(cmd.changes)
    ensures id in PairsMap(cmd.changes) ==> id in members && id !in cmd.removes
  {
    InMap(AddPairs(cmd.adds), id);
    InMap(cmd.changes, id);
    if id in PairsMap(AddPairs(cmd.adds)) {
      var i :| 0 <= i < |AddPairs(cmd.adds)| && AddPairs(cmd.adds)[i].0 == id;
      assert cmd.adds[i].nodeId == id;
    }
  }

  /**
   * A reconfiguration changes the histories if and only if it is admissible for the set in force and
   * no boundary is ahead of the view. It then adds one boundary, at the command's view, with a
   * well-formed set that has the adds, the changed members and the others, and nobody else.
   */
  lemma ReconfigurationIff(o: Oracle, delay: nat, view: nat, h: Hist, cmd: ReconfigCommand)
    requires HistOk(h)
    ensures var cur, h' := SetAt(h.sets, view), ReconfigStep(o, delay, view, h, cmd);
      && (h' != h <==> Admissible(o.checks, cmd, cur, view, delay) && forall i :: 0 <= i < |h.sets| ==> h.sets[i].vEff <= view)
      && (h' != h ==>
            && |h'.sets| == |h.sets| + 1 && h'.sets[..|h.sets|] == h.sets && h'.sets[|h.sets|].vEff == cmd.vEff
            && WellFormed(h'.sets[|h.sets|].vset) && Reweighed(cmd, cur, h'.sets[|h.sets|].vset))
  {
    hide Validate, WithWeights, AddMembers, RegisterAdds, KeysOk, ListsOk, AscendingLists, Admissible, Reweighed, WellFormed;
    SetAtWellFormed(h, view);
    var cur := SetAt(h.sets, view);
    ValidateIff(o.checks, cmd, cur, view, delay);
    if Validate(o.checks, cmd, cur, view, delay).Ok? {
      AcceptedMeans(o.checks, cmd, cur, view, delay);
      var vs := WithWeights(Validate(o.checks, cmd, cur, view, delay).value).value;
      NextReweighed(o.checks, cmd, cur, vs, view, delay);
      if ReconfigStep(o, delay, view, h, cmd).sets != h.sets {
        assert |ReconfigStep(o, delay, view, h, cmd).sets| == |h.sets| + 1;
      }
    }
  }

  lemma SetAtWellFormed(h: Hist, view: nat)
    requires HistOk(h)
    ensures WellFormed(SetAt(h.sets, view))
  {
  }

  lemma NextReweighed(c: Checks, cmd: ReconfigCommand, current: ValidatorSet, next: ValidatorSet, view: nat, delay: nat)
    requires WellFormed(current) && WellFormed(next) && Admissible(c, cmd, current, view, delay)
    requires AsMap(next) == NextMap(AsMap(current), cmd)
    ensures Reweighed(cmd, current, next)
  {
    hide Weighs, AddedAs, ChangedTo, Named, NextMap, AsMap, WellFormed;
    forall id, w ensures Weighs(next, id, w) <==>
      AddedAs(cmd, id, w) || ChangedTo(cmd, id, w) || (Weighs(current, id, w) && !Named(cmd, id))
    {
      WeighsIff(next, id, w);
      NextMapIs(cmd, current, id, w);
    }
  }
}
