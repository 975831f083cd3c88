/**
 * Blocks, their structural validation (`replication/block.rs`) and the parent walk and commit
 * lookup over a map of pending blocks (`hotstuff/safety_rules.rs`).
 */
module BlockTree {
  import opened Common

  /** A 32-byte digest as a big-endian number; the all-zero digest is the parent of genesis. */
  type Hash = nat
  const ZERO_HASH: Hash := 0

  /**
   * A block together with its own digest. Digests are treated as collision free: a commitment to
   * the command list is the list itself.
   */
  datatype Block = Block(hash: Hash, parent: Hash, height: nat, view: nat,
                         timestamp: nat, commitment: seq<nat>, commands: seq<nat>)

  type Pending = map<Hash, Block>

  datatype StructuralError = ParentMismatch | HeightOverflow | HeightMismatch | ViewNotIncreasing
                           | CommitmentMismatch | TimestampDecreased

  /** `validate_structural`. */
  function ValidateStructural(child: Block, parent: Block): Result<(), StructuralError> {
    if child.parent != parent.hash then Err(ParentMismatch)
    else if parent.height + 1 > U64_MAX then Err(HeightOverflow)
    else if child.height != parent.height + 1 then Err(HeightMismatch)
    else if child.view <= parent.view then Err(ViewNotIncreasing)
    else if child.commitment != child.commands then Err(CommitmentMismatch)
    else if child.timestamp < parent.timestamp then Err(TimestampDecreased)
    else Ok(())
  }

  /** What a child of a parent must be. */
  predicate Fits(child: Block, parent: Block) {
    && child.parent == parent.hash && parent.height < U64_MAX && child.height == parent.height + 1
    && child.view > parent.view && child.commitment == child.commands && child.timestamp >= parent.timestamp
  }

  /** A block is accepted on its parent if and only if it fits; otherwise the first misfit is reported. */
  lemma StructuralIff(child: Block, parent: Block)
    ensures ValidateStructural(child, parent).Ok? <==> Fits(child, parent)
    ensures forall e :: ValidateStructural(child, parent) == Err(e) ==>
      && (e.ParentMismatch? <==> child.parent != parent.hash)
      && (e.HeightOverflow? ==> parent.height >= U64_MAX)
      && (e.HeightMismatch? ==> child.height != parent.height + 1 && parent.height < U64_MAX)
      && (e.ViewNotIncreasing? ==> child.view <= parent.view && child.height == parent.height + 1)
      && (e.CommitmentMismatch? ==> child.commitment != child.commands && child.view > parent.view)
      && (e.TimestampDecreased? ==> child.timestamp < parent.timestamp && child.commitment == child.commands)
  {
  }

  /** Every stored block sits under its own digest, and every stored link is structurally valid. */
  predicate Structural(p: Pending) {
    && ZERO_HASH !in p
    && (forall h :: h in p ==> p[h].hash == h)
    && (forall h :: h in p && p[h].parent in p ==> ValidateStructural(p[h], p[p[h].parent]).Ok?)
  }

  /**
   * The digest reached from `b` by following `n` stored parent links. The walk stops at a digest
   * that is not stored, and at the zero digest.
   */
  function Follow(p: Pending, b: Hash, n: nat): Option<Hash> {
    if n == 0 then Some(b)
    else
      match Follow(p, b, n - 1)
      case None => None
      case Some(h) => if h in p && (n == 1 || h != ZERO_HASH) then Some(p[h].parent) else None
  }

  /** The ancestor is on the stored parent path of `b`. */
  ghost predicate OnPath(p: Pending, b: Hash, a: Hash) {
    exists n: nat :: Follow(p, b, n) == Some(a)
  }

  /** A digest that repeats on the walk makes the rest of the walk repeat with the same period. */
  lemma {:induction false} WalkRepeats(p: Pending, b: Hash, j: nat, k: nat, n: nat)
    requires j < k && Follow(p, b, k).Some? && Follow(p, b, j) == Follow(p, b, k)
    requires Follow(p, b, k).value != ZERO_HASH
    ensures Follow(p, b, k + n) == Follow(p, b, j + n)
  {
    if n == 0 {
    } else {
      WalkRepeats(p, b, j, k, n - 1);
    }
  }

  /** If the walk has come back on itself without meeting `a`, it never meets `a`. */
  lemma {:induction false} CycleNeverReaches(p: Pending, b: Hash, a: Hash, j: nat, k: nat, n: nat)
    requires j < k && Follow(p, b, k).Some? && Follow(p, b, j) == Follow(p, b, k)
    requires Follow(p, b, k).value != ZERO_HASH
    requires forall m: nat :: m <= k ==> Follow(p, b, m) != Some(a)
    ensures Follow(p, b, n) != Some(a)
    decreases n
  {
    if n > k {
      WalkRepeats(p, b, j, k, n - k);
      CycleNeverReaches(p, b, a, j, k, j + (n - k));
    }
  }

  lemma {:induction false} StoppedStaysStopped(p: Pending, b: Hash, k: nat, n: nat)
    requires k <= n && Follow(p, b, k).None?
    ensures Follow(p, b, n).None?
  {
    if n > k { StoppedStaysStopped(p, b, k, n - 1); }
  }

  /**
   * `extends`: the guarded parent walk. It terminates on every map, cyclic ones included, and
   * answers exactly whether the ancestor is on the stored path.
   */
  method Extends(block: Hash, ancestor: Hash, pending: Pending) returns (r: bool)
    ensures r <==> OnPath(pending, block, ancestor)
  {
    if block == ancestor {
      assert Follow(pending, block, 0) == Some(ancestor);
      return true;
    }
    var seen: set<Hash> := {};
    var current := block;
    ghost var k: nat := 0;
    while true
      invariant Follow(pending, block, k) == Some(current)
      invariant k > 0 ==> current != ZERO_HASH
      invariant forall m: nat :: m <= k ==> Follow(pending, block, m) != Some(ancestor)
      invariant forall h :: h in seen ==> exists j: nat :: j < k && Follow(pending, block, j) == Some(h)
      decreases pending.Keys - seen
    {
      if current in seen {
        ghost var j: nat :| j < k && Follow(pending, block, j) == Some(current);
        forall n: nat ensures Follow(pending, block, n) != Some(ancestor) {
          CycleNeverReaches(pending, block, ancestor, j, k, n);
        }
        return false;
      }
      seen := seen + {current};
      if current !in pending {
        NoFurther(pending, block, ancestor, k);
        return false;
      }
      var parent := pending[current].parent;
      assert Follow(pending, block, k + 1) == Some(parent);
      if parent == ancestor {
        return true;
      }
      if parent == ZERO_HASH {
        NoFurther(pending, block, ancestor, k + 1);
        return false;
      }
      current := parent;
      k := k + 1;
    }
  }

  lemma NoFurther(p: Pending, b: Hash, a: Hash, k: nat)
    requires Follow(p, b, k + 1).None?
    requires forall m: nat :: m <= k ==> Follow(p, b, m) != Some(a)
    ensures !OnPath(p, b, a)
  {
    forall n: nat ensures Follow(p, b, n) != Some(a) {
      if n > k { StoppedStaysStopped(p, b, k + 1, n); }
    }
  }

  // ---------------------------------------------------------------------------
  // The path order on structurally valid maps

  lemma {:induction false} FollowCompose(p: Pending, b: Hash, m: nat, a: Hash, n: nat)
    requires ZERO_HASH !in p && Follow(p, b, m) == Some(a)
    ensures Follow(p, b, m + n) == Follow(p, a, n)
  {
    if n == 0 {
    } else {
      FollowCompose(p, b, m, a, n - 1);
    }
  }

  lemma PathTransitive(p: Pending, c: Hash, b: Hash, a: Hash)
    requires ZERO_HASH !in p && OnPath(p, c, b) && OnPath(p, b, a)
    ensures OnPath(p, c, a)
  {
    var m: nat :| Follow(p, c, m) == Some(b);
    var n: nat :| Follow(p, b, n) == Some(a);
    FollowCompose(p, c, m, b, n);
  }

  /** The length of a stored path is the height difference, and views strictly fall along it. */
  lemma {:induction false} PathLengthIsHeightDifference(p: Pending, b: Hash, n: nat, a: Hash)
    requires Structural(p) && b in p && a in p && Follow(p, b, n) == Some(a)
    ensures p[b].height == p[a].height + n
    ensures n > 0 ==> p[a].view < p[b].view
  {
    if n == 0 {
    } else {
      var h := Follow(p, b, n - 1).value;
      PathLengthIsHeightDifference(p, b, n - 1, h);
      assert p[h].parent == a;
    }
  }

  lemma PathAntisymmetric(p: Pending, b: Hash, a: Hash)
    requires Structural(p) && OnPath(p, b, a) && OnPath(p, a, b)
    ensures a == b
  {
    var m: nat :| Follow(p, b, m) == Some(a);
    var n: nat :| Follow(p, a, n) == Some(b);
    if m > 0 && n > 0 {
      StoppedAtMissing(p, a, n);
      StoppedAtMissing(p, b, m);
      PathLengthIsHeightDifference(p, b, m, a);
      PathLengthIsHeightDifference(p, a, n, b);
    }
  }

  lemma {:induction false} StoppedAtMissing(p: Pending, b: Hash, n: nat)
    requires n > 0 && Follow(p, b, n).Some?
    ensures b in p
  {
    if n > 1 { StoppedAtMissing(p, b, n - 1); }
  }

  /** A path in a part of a map is a path in the whole map. */
  lemma {:induction false} FollowInLarger(p: Pending, q: Pending, b: Hash, n: nat)
    requires forall h :: h in p ==> h in q && q[h] == p[h]
    requires Follow(p, b, n).Some?
    ensures Follow(q, b, n) == Follow(p, b, n)
  {
    if n == 0 {
    } else {
      FollowInLarger(p, q, b, n - 1);
    }
  }

  // ---------------------------------------------------------------------------
  // The commit rule

  /** A verified certificate, as the rules below use it. */
  datatype Qc = Qc(view: nat, hash: Hash)

  /** `three_chain_commit`: certificate on a chain of three blocks in consecutive views. */
  function ThreeChainCommit(qc: Qc, p: Pending): Option<Block> {
    if qc.hash !in p || p[qc.hash].view != qc.view then None
    else
      var b3 := p[qc.hash];
      if b3.parent !in p || p[b3.parent].view + 1 != b3.view then None
      else
        var b2 := p[b3.parent];
        if b2.parent !in p || p[b2.parent].view + 1 != b2.view then None
        else Some(p[b2.parent])
  }
}
