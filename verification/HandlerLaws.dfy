/** What the proposal handler does to the cache and the high certificate, said without its own steps. */
module HandlerLaws {
  import opened Common
  import opened BlockTree
  import opened HotStuff

  // ---------------------------------------------------------------------------
  // Which blocks are protected

  /** Following parents from the cursor `m` times leads to the digest, past nothing in `out`. */
  ghost predicate Leads(p: Pending, cursor: Hash, out: set<Hash>, m: nat, h: Hash) {
    Follow(p, cursor, m) == Some(h) && forall k: nat :: k <= m ==> AvoidsAt(p, cursor, out, k)
  }

  predicate AvoidsAt(p: Pending, cursor: Hash, out: set<Hash>, k: nat) {
    Follow(p, cursor, k).Some? ==> Follow(p, cursor, k).value !in out
  }

  lemma NextFollow(p: Pending, cursor: Hash, m: nat)
    requires ZERO_HASH !in p && cursor in p
    ensures Follow(p, cursor, 1 + m) == Follow(p, p[cursor].parent, m)
  {
    assert Follow(p, cursor, 0) == Some(cursor);
    assert Follow(p, cursor, 1) == Some(p[cursor].parent);
    FollowCompose(p, cursor, 1, p[cursor].parent, m);
  }

  /** A walk that leads to a digest leads there without coming back to its start. */
  lemma {:induction false} WithoutReturn(p: Pending, cursor: Hash, out: set<Hash>, m: nat, h: Hash) returns (n: nat)
    requires ZERO_HASH !in p && cursor in p && Leads(p, cursor, out, m, h) && h != cursor
    ensures 0 < n <= m && Leads(p, p[cursor].parent, out + {cursor}, n - 1, h)
    decreases m
  {
    hide Follow;
    FollowZero(p, cursor);
    if k: nat :| 0 < k <= m && Follow(p, cursor, k) == Some(cursor) {
      WalkRepeats(p, cursor, 0, k, m - k);
      forall j: nat | j <= m - k ensures AvoidsAt(p, cursor, out, j) {}
      n := WithoutReturn(p, cursor, out, m - k, h);
    } else {
      n := m;
      NextFollow(p, cursor, m - 1);
      forall k: nat | k <= m - 1 ensures AvoidsAt(p, p[cursor].parent, out + {cursor}, k) {
        NextFollow(p, cursor, k);
        assert AvoidsAt(p, cursor, out, 1 + k);
      }
    }
  }

  lemma FollowZero(p: Pending, cursor: Hash)
    ensures Follow(p, cursor, 0) == Some(cursor)
  {
  }

  lemma OneMoreLeads(p: Pending, cursor: Hash, out: set<Hash>, m: nat, h: Hash)
    requires ZERO_HASH !in p && cursor in p && cursor !in out && Leads(p, p[cursor].parent, out + {cursor}, m, h)
    ensures Leads(p, cursor, out, 1 + m, h)
  {
    hide Follow;
    FollowZero(p, cursor);
    NextFollow(p, cursor, m);
    forall k: nat | k <= 1 + m ensures AvoidsAt(p, cursor, out, k) {
      if k > 0 {
        NextFollow(p, cursor, k - 1);
        assert AvoidsAt(p, p[cursor].parent, out + {cursor}, k - 1);
      }
    }
  }

  lemma StopsAtMissing(p: Pending, cursor: Hash, m: nat)
    requires cursor !in p && m > 0
    ensures Follow(p, cursor, m).None?
  {
    StoppedStaysStopped(p, cursor, 1, m);
  }

  lemma NothingLeads(p: Pending, cursor: Hash, out: set<Hash>, depth: nat, h: Hash)
    requires depth == 0 || cursor in out
    ensures forall m: nat :: m < depth ==> !Leads(p, cursor, out, m, h)
  {
    FollowZero(p, cursor);
    assert cursor in out ==> !AvoidsAt(p, cursor, out, 0);
  }

  lemma {:induction false} WalkExact(p: Pending, cursor: Hash, out: set<Hash>, depth: nat, h: Hash)
    requires ZERO_HASH !in p
    ensures h in ProtectedFrom(p, cursor, out, depth) <==> h in out || exists m: nat :: m < depth && Leads(p, cursor, out, m, h)
    decreases depth
  {
    hide Follow;
    FollowZero(p, cursor);
    if depth == 0 || cursor in out {
      NothingLeads(p, cursor, out, depth, h);
    } else if cursor !in p {
      if m: nat :| m < depth && Leads(p, cursor, out, m, h) { if m > 0 { StopsAtMissing(p, cursor, m); } }
      assert AvoidsAt(p, cursor, out, 0);
      assert Leads(p, cursor, out, 0, cursor);
    } else {
      WalkExact(p, p[cursor].parent, out + {cursor}, depth - 1, h);
      assert Leads(p, cursor, out, 0, cursor);
      if m: nat :| m < depth - 1 && Leads(p, p[cursor].parent, out + {cursor}, m, h) { OneMoreLeads(p, cursor, out, m, h); }
      if m: nat :| m < depth && Leads(p, cursor, out, m, h) {
        if h != cursor {
          var n := WithoutReturn(p, cursor, out, m, h);
          assert n - 1 < depth - 1;
        }
      }
    }
  }

  /**
   * Protected are genesis and the digests that at most three parent links from the high certificate
   * lead to without passing genesis.
   */
  lemma ProtectedExact(p: Pending, genesis: Hash, qc: Qc, h: Hash)
    requires ZERO_HASH !in p
    ensures h in Protected(p, genesis, Some(qc)) <==>
      h == genesis || exists m: nat :: m <= 3 && Leads(p, qc.hash, {genesis}, m, h)
    ensures h in Protected(p, genesis, None) <==> h == genesis
  {
    hide Leads, ProtectedFrom;
    WalkExact(p, qc.hash, {genesis}, 4, h);
  }

  // ---------------------------------------------------------------------------
  // Which block makes room

  predicate Lower(a: Block, b: Block) { a.height < b.height || (a.height == b.height && a.hash < b.hash) }

  /**
   * Storing a new block drops a block if and only if the cache is full and that block is, among all
   * that are not protected, the one of least height and then of least digest.
   */
  lemma DroppedIff(p: Pending, genesis: Hash, highQc: Option<Qc>, capacity: nat, b: Block, h: Hash)
    requires Keyed(p, genesis) && b.hash !in p && h in p
    ensures var q := InsertPending(p, genesis, highQc, capacity, b);
      h !in q <==>
        && |p| >= capacity && h !in Protected(p, genesis, highQc)
        && forall k :: k in p && k != h && k !in Protected(p, genesis, highQc) ==> Lower(p[h], p[k])
    ensures var q := InsertPending(p, genesis, highQc, capacity, b); b.hash in q && q[b.hash] == b && (h in q ==> q[h] == p[h])
  {
    hide Protected;
    var candidates := p.Keys - Protected(p, genesis, highQc);
    assert h in candidates <==> h !in Protected(p, genesis, highQc);
    if |p| >= capacity && candidates != {} {
      var v := Victim(p, candidates);
      assert IsVictim(p, candidates, v);
      assert h !in InsertPending(p, genesis, highQc, capacity, b) <==> h == v;
      if h == v {
        forall k | k in p && k != h && k !in Protected(p, genesis, highQc) ensures Lower(p[h], p[k]) {
          assert k in candidates && EvictsBefore(p, v, k);
        }
      } else if h in candidates {
        assert EvictsBefore(p, v, h) && v in candidates;
        assert !Lower(p[h], p[v]);
      }
    }
  }

  // ---------------------------------------------------------------------------
  // The high certificate

  /** The certificate of a proposal becomes the high one if and only if the node votes and it is newer. */
  lemma HighQcIff(n: Node, prop: Proposal)
    ensures OnProposal(n, prop).highQc ==
      if OnProposal(n, prop).lastVoted > n.lastVoted && (n.highQc.None? || prop.justify.view > n.highQc.value.view)
      then Some(prop.justify) else n.highQc
  {
    hide InsertPending, OnPath, ThreeChainCommit;
  }

  /** The lock moves if and only if parent and grandparent are stored and the grandparent is higher than the lock. */
  lemma LockIff(n: Node, prop: Proposal)
    requires prop.block.parent in n.pending
    ensures var p := InsertPending(n.pending, n.genesis, n.highQc, n.capacity, prop.block);
      OnProposal(n, prop).locked ==
        if && prop.block.parent in p && p[prop.block.parent].parent in p
           && (n.locked.Some? ==> p[p[prop.block.parent].parent].height > n.locked.value.height)
           && p[p[prop.block.parent].parent].height > 0
        then Some(Locked(p[p[prop.block.parent].parent].view, p[p[prop.block.parent].parent].height, p[prop.block.parent].parent))
        else n.locked
  {
    hide InsertPending, OnPath, ThreeChainCommit;
  }
}
