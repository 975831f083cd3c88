/** Which validator set is active in which view (`validator_history.rs`). */
module SetHistory {
  import opened Common
  import opened ValidatorSets

  datatype Boundary = Boundary(vEff: nat, vset: ValidatorSet)

  /** Boundaries start at view 0 and strictly rise; every set is well formed. */
  predicate ValidHistory(bs: seq<Boundary>) {
    && |bs| > 0 && bs[0].vEff == 0
    && (forall i, j :: 0 <= i < j < |bs| ==> bs[i].vEff < bs[j].vEff)
    && (forall i :: 0 <= i < |bs| ==> WellFormed(bs[i].vset))
  }

  /** The index the binary search of `set_at` settles on. */
  function IndexAt(bs: seq<Boundary>, view: nat): (i: nat)
    requires |bs| > 0
    ensures i < |bs|
  {
    if |bs| == 1 || bs[|bs| - 1].vEff <= view then |bs| - 1 else IndexAt(bs[..|bs| - 1], view)
  }

  /** `set_at`. */
  function SetAt(bs: seq<Boundary>, view: nat): ValidatorSet
    requires |bs| > 0
  {
    bs[IndexAt(bs, view)].vset
  }

  /** The active boundary is the last one not later than the view. */
  lemma {:induction false} IndexAtIsLast(bs: seq<Boundary>, view: nat)
    requires ValidHistory(bs)
    ensures bs[IndexAt(bs, view)].vEff <= view
    ensures forall j :: IndexAt(bs, view) < j < |bs| ==> bs[j].vEff > view
  {
    if |bs| > 1 && bs[|bs| - 1].vEff > view {
      IndexAtIsLast(bs[..|bs| - 1], view);
    }
  }

  /** A boundary later than the view does not change the set active in it. */
  lemma LaterBoundaryInvisible(bs: seq<Boundary>, b: Boundary, view: nat)
    requires |bs| > 0 && b.vEff > view
    ensures SetAt(bs + [b], view) == SetAt(bs, view)
  {
  }

  // ---------------------------------------------------------------------------
  // Persisted form

  datatype PersistedBoundary = PersistedBoundary(vEff: nat, members: seq<NodeId>, weights: seq<nat>)

  datatype RestoreError = Empty | FirstNotZero | LengthMismatch(vEff: nat) | BadSet(vEff: nat)
                        | NotIncreasing(vEff: nat)

  /** `to_persisted`. */
  function ToPersisted(bs: seq<Boundary>): seq<PersistedBoundary> {
    seq(|bs|, i requires 0 <= i < |bs| => PersistedBoundary(bs[i].vEff, bs[i].vset.members, bs[i].vset.weights))
  }

  /** `boundary_to_set`. */
  function BoundaryToSet(p: PersistedBoundary): Result<ValidatorSet, RestoreError> {
    if |p.members| != |p.weights| then Err(LengthMismatch(p.vEff))
    else
      match WithWeights(Pairs(ValidatorSet(p.members, p.weights)))
      case Ok(vs) => Ok(vs)
      case Err(_) => Err(BadSet(p.vEff))
  }

  lemma BoundaryRoundTrip(b: Boundary)
    requires WellFormed(b.vset)
    ensures BoundaryToSet(PersistedBoundary(b.vEff, b.vset.members, b.vset.weights)) == Ok(b.vset)
  {
    WithWeightsRoundTrip(b.vset);
    assert ValidatorSet(b.vset.members, b.vset.weights) == b.vset;
  }

  /** `ValidatorSetHistory`. */
  class ValidatorSetHistory {
    var boundaries: seq<Boundary>

    ghost predicate Valid()
      reads this
    {
      ValidHistory(boundaries)
    }

    constructor FromGenesis(genesis: ValidatorSet)
      ensures boundaries == [Boundary(0, genesis)]
    {
      boundaries := [Boundary(0, genesis)];
    }

    /** `insert_boundary`: only strictly after the latest boundary. */
    method InsertBoundary(vEff: nat, vset: ValidatorSet) returns (ok: bool)
      requires |boundaries| > 0
      modifies this
      ensures ok <==> vEff > old(boundaries)[|old(boundaries)| - 1].vEff
      ensures boundaries == if ok then old(boundaries) + [Boundary(vEff, vset)] else old(boundaries)
      ensures old(Valid()) && WellFormed(vset) ==> Valid()
    {
      var last := boundaries[|boundaries| - 1];
      if vEff <= last.vEff {
        return false;
      }
      boundaries := boundaries + [Boundary(vEff, vset)];
      return true;
    }

    /** Any view at which a boundary already lies ahead. */
    method AnyBoundaryAfter(view: nat) returns (conflict: bool)
      ensures conflict <==> exists i :: 0 <= i < |boundaries| && boundaries[i].vEff != 0 && boundaries[i].vEff > view
    {
      for i := 0 to |boundaries|
        invariant forall j :: 0 <= j < i ==> !(boundaries[j].vEff != 0 && boundaries[j].vEff > view)
      {
        if boundaries[i].vEff != 0 && boundaries[i].vEff > view {
          return true;
        }
      }
      return false;
    }
  }

  /** What `from_persisted` makes of a persisted list, boundary by boundary. */
  function Restored(ps: seq<PersistedBoundary>): Result<seq<Boundary>, RestoreError> {
    if ps == [] then Err(Empty)
    else
      var p := ps[|ps| - 1];
      if |ps| == 1 then
        if p.vEff != 0 then Err(FirstNotZero)
        else
          match BoundaryToSet(p)
          case Err(e) => Err(e)
          case Ok(vs) => Ok([Boundary(0, vs)])
      else
        match Restored(ps[..|ps| - 1])
        case Err(e) => Err(e)
        case Ok(bs) =>
          match BoundaryToSet(p)
          case Err(e) => Err(e)
          case Ok(vs) =>
            if bs != [] && p.vEff <= bs[|bs| - 1].vEff then Err(NotIncreasing(p.vEff))
            else Ok(bs + [Boundary(p.vEff, vs)])
  }

  lemma RestoreOne(bs: seq<Boundary>)
    requires ValidHistory(bs) && |bs| == 1
    ensures Restored(ToPersisted(bs)) == Ok(bs)
  {
    BoundaryRoundTrip(bs[0]);
    assert bs == [Boundary(0, bs[0].vset)];
  }

  lemma RestoreNext(bs: seq<Boundary>)
    requires ValidHistory(bs) && |bs| > 1 && Restored(ToPersisted(bs[..|bs| - 1])) == Ok(bs[..|bs| - 1])
    ensures Restored(ToPersisted(bs)) == Ok(bs)
  {
    var n := |bs| - 1;
    BoundaryRoundTrip(bs[n]);
    assert ToPersisted(bs)[..n] == ToPersisted(bs[..n]);
    assert bs == bs[..n] + [bs[n]] && bs[n] == Boundary(bs[n].vEff, bs[n].vset);
  }

  /** Restoring what was persisted gives the history back. */
  lemma {:induction false} RestoreRoundTrip(bs: seq<Boundary>)
    requires ValidHistory(bs)
    ensures Restored(ToPersisted(bs)) == Ok(bs)
    decreases |bs|
  {
    if |bs| == 1 {
      RestoreOne(bs);
    } else {
      assert ValidHistory(bs[..|bs| - 1]);
      RestoreRoundTrip(bs[..|bs| - 1]);
      RestoreNext(bs);
    }
  }

  /** Whatever is accepted starts at view 0 and strictly rises. */
  lemma {:induction false} RestoredIsOrdered(ps: seq<PersistedBoundary>)
    requires Restored(ps).Ok?
    ensures var bs := Restored(ps).value;
      && |bs| == |ps| > 0 && bs[0].vEff == 0
      && forall i, j :: 0 <= i < j < |bs| ==> bs[i].vEff < bs[j].vEff
  {
    if |ps| > 1 {
      RestoredIsOrdered(ps[..|ps| - 1]);
    }
  }

  /** `from_persisted`. */
  method FromPersisted(ps: seq<PersistedBoundary>) returns (r: Result<seq<Boundary>, RestoreError>)
    ensures r == Restored(ps)
  {
    hide BoundaryToSet;
    if ps == [] {
      return Err(Empty);
    }
    if ps[0].vEff != 0 {
      FirstFails(ps, FirstNotZero);
      return Err(FirstNotZero);
    }
    var first := BoundaryToSet(ps[0]);
    if first.Err? {
      FirstFails(ps, first.error);
      return Err(first.error);
    }
    var out := [Boundary(0, first.value)];
    assert ps[..1] == [ps[0]];
    for i := 1 to |ps|
      invariant |out| == i && Restored(ps[..i]) == Ok(out)
    {
      assert ps[..i + 1][..i] == ps[..i];
      var vs := BoundaryToSet(ps[i]);
      if vs.Err? {
        ErrorSticks(ps, i + 1, vs.error);
        return Err(vs.error);
      }
      if ps[i].vEff <= out[i - 1].vEff {
        ErrorSticks(ps, i + 1, NotIncreasing(ps[i].vEff));
        return Err(NotIncreasing(ps[i].vEff));
      }
      out := out + [Boundary(ps[i].vEff, vs.value)];
    }
    assert ps[..|ps|] == ps;
    return Ok(out);
  }

  lemma {:induction false} ErrorSticks(ps: seq<PersistedBoundary>, k: nat, e: RestoreError)
    requires 0 < k <= |ps| && Restored(ps[..k]) == Err(e)
    ensures Restored(ps) == Err(e)
    decreases |ps|
  {
    if k < |ps| {
      assert ps[..|ps| - 1][..k] == ps[..k];
      ErrorSticks(ps[..|ps| - 1], k, e);
    } else {
      assert ps[..k] == ps;
    }
  }

  lemma FirstFails(ps: seq<PersistedBoundary>, e: RestoreError)
    requires ps != [] && Restored([ps[0]]) == Err(e)
    ensures Restored(ps) == Err(e)
  {
    assert ps[..1] == [ps[0]];
    ErrorSticks(ps, 1, e);
  }
}
