/**
 * The safety core of one node: the capacity-bounded block cache (`hotstuff/state.rs`), the vote
 * rule (`hotstuff/safety_rules.rs`) and the proposal handler that votes, locks and commits
 * (`hotstuff/step/handlers.rs`).
 */
module HotStuff {
  import opened Common
  import opened BlockTree

  const PROTECTED_HIGH_QC_DEPTH: nat := 4

  datatype Locked = Locked(view: nat, height: nat, hash: Hash)

  datatype Proposal = Proposal(block: Block, justify: Qc)

  /** The fields of `HotStuffState` the safety rules read and write. */
  datatype Node = Node(locked: Option<Locked>, highQc: Option<Qc>, lastVoted: nat,
                       pending: Pending, genesis: Hash, capacity: nat)

  // ---------------------------------------------------------------------------
  // Eviction

  /** The walk of `protected_block_hashes`: up to `depth` further digests starting at `cursor`. */
  function ProtectedFrom(p: Pending, cursor: Hash, out: set<Hash>, depth: nat): set<Hash>
    decreases depth
  {
    if depth == 0 || cursor in out then out
    else if cursor !in p then out + {cursor}
    else ProtectedFrom(p, p[cursor].parent, out + {cursor}, depth - 1)
  }

  /** `protected_block_hashes`. */
  function Protected(p: Pending, genesis: Hash, highQc: Option<Qc>): set<Hash> {
    match highQc
    case None => {genesis}
    case Some(qc) => ProtectedFrom(p, qc.hash, {genesis}, PROTECTED_HIGH_QC_DEPTH)
  }

  /** The order of the eviction scan: lower height first, then lower digest. */
  predicate EvictsBefore(p: Pending, a: Hash, b: Hash)
    requires a in p && b in p
  {
    p[a].height < p[b].height || (p[a].height == p[b].height && a <= b)
  }

  predicate IsVictim(p: Pending, candidates: set<Hash>, v: Hash) {
    candidates <= p.Keys && v in candidates && forall k :: k in candidates ==> EvictsBefore(p, v, k)
  }

  /** Scanning one more entry keeps the running choice the victim of what was scanned. */
  lemma VictimOfOneMore(p: Pending, scanned: set<Hash>, v: Hash, c: Hash)
    requires IsVictim(p, scanned, v) && c in p
    ensures IsVictim(p, scanned + {c}, if EvictsBefore(p, c, v) then c else v)
  {
  }

  lemma {:induction false} VictimExists(p: Pending, candidates: set<Hash>)
    requires candidates <= p.Keys && candidates != {}
    ensures exists v :: IsVictim(p, candidates, v)
    decreases |candidates|
  {
    var c :| c in candidates;
    if candidates == {c} {
      assert IsVictim(p, candidates, c);
    } else {
      var rest := candidates - {c};
      VictimExists(p, rest);
      var v :| IsVictim(p, rest, v);
      VictimOfOneMore(p, rest, v, c);
      assert rest + {c} == candidates;
    }
  }

  lemma VictimUnique(p: Pending, candidates: set<Hash>, v: Hash, u: Hash)
    requires IsVictim(p, candidates, v) && IsVictim(p, candidates, u)
    ensures v == u
  {
  }

  ghost function Victim(p: Pending, candidates: set<Hash>): (v: Hash)
    requires candidates <= p.Keys && candidates != {}
    ensures IsVictim(p, candidates, v)
  {
    VictimExists(p, candidates);
    var v :| IsVictim(p, candidates, v);
    v
  }

  /** `evict_pending_to_fit_one`. */
  ghost function Evicted(p: Pending, genesis: Hash, highQc: Option<Qc>, capacity: nat): Pending {
    var candidates := p.Keys - Protected(p, genesis, highQc);
    if |p| < capacity || candidates == {} then p else p - {Victim(p, candidates)}
  }

  /** `insert_pending`. */
  ghost function InsertPending(p: Pending, genesis: Hash, highQc: Option<Qc>, capacity: nat, b: Block): Pending {
    if b.hash in p then p[b.hash := b] else Evicted(p, genesis, highQc, capacity)[b.hash := b]
  }

  lemma {:induction false} ProtectedIsSmall(p: Pending, cursor: Hash, out: set<Hash>, depth: nat)
    ensures out <= ProtectedFrom(p, cursor, out, depth)
    ensures |ProtectedFrom(p, cursor, out, depth)| <= |out| + depth
    decreases depth
  {
    if depth > 0 && cursor !in out && cursor in p {
      ProtectedIsSmall(p, p[cursor].parent, out + {cursor}, depth - 1);
    }
  }

  /** Blocks sit under their own digest and the genesis digest names a block of view 0. */
  predicate Keyed(p: Pending, genesis: Hash) {
    && (forall h :: h in p ==> p[h].hash == h)
    && (genesis in p ==> p[genesis].view == 0)
  }

  /** Digests are collision free: an inserted block equals the block already stored under its digest. */
  predicate NoCollision(p: Pending, genesis: Hash, b: Block) {
    && (b.hash in p ==> p[b.hash] == b)
    && (b.hash == genesis ==> b.view == 0)
  }

  /** The commit triple of the current high certificate is protected, whatever the cache holds. */
  lemma CommitTripleProtected(p: Pending, genesis: Hash, qc: Qc)
    requires Keyed(p, genesis) && ThreeChainCommit(qc, p).Some?
    ensures var prot := Protected(p, genesis, Some(qc));
      qc.hash in prot && p[qc.hash].parent in prot && p[p[qc.hash].parent].parent in prot
  {
  }

  lemma GenesisProtected(p: Pending, genesis: Hash, highQc: Option<Qc>)
    ensures genesis in Protected(p, genesis, highQc)
    ensures |Protected(p, genesis, highQc)| <= 5
  {
  }

  /** Eviction removes at most one block, and no protected one. */
  lemma EvictedKeeps(p: Pending, genesis: Hash, highQc: Option<Qc>, capacity: nat)
    ensures var e := Evicted(p, genesis, highQc, capacity);
      && e.Keys <= p.Keys
      && (forall h :: h in e ==> e[h] == p[h])
      && (forall h :: h in p && h in Protected(p, genesis, highQc) ==> h in e)
      && (|p| <= Max(capacity, 6) ==> |e| + 1 <= Max(capacity, 6))
  {
    var prot := Protected(p, genesis, highQc);
    GenesisProtected(p, genesis, highQc);
    var candidates := p.Keys - prot;
    if |p| >= capacity {
      if candidates != {} {
        var v := Victim(p, candidates);
        assert (p - {v}).Keys == p.Keys - {v};
        assert |p.Keys - {v}| == |p.Keys| - 1;
      } else {
        CardinalitySubset(p.Keys, prot);
      }
    }
  }

  /** The triple behind a commit, present unchanged in another map, commits the same block there. */
  lemma SameTripleSameCommit(qc: Qc, p: Pending, q: Pending)
    requires ThreeChainCommit(qc, p).Some?
    requires qc.hash in q && q[qc.hash] == p[qc.hash]
    requires p[qc.hash].parent in q && q[p[qc.hash].parent] == p[p[qc.hash].parent]
    requires p[p[qc.hash].parent].parent in q
      && q[p[p[qc.hash].parent].parent] == p[p[p[qc.hash].parent].parent]
    ensures ThreeChainCommit(qc, q) == ThreeChainCommit(qc, p)
  {
  }

  ghost predicate KeepsCommit(highQc: Option<Qc>, p: Pending, q: Pending) {
    (highQc.Some? && ThreeChainCommit(highQc.value, p).Some?) ==>
      ThreeChainCommit(highQc.value, q) == ThreeChainCommit(highQc.value, p)
  }

  /** Inserting a new block after the eviction adds exactly it. */
  lemma {:induction false} InsertPendingShape(p: Pending, genesis: Hash, highQc: Option<Qc>, capacity: nat, b: Block)
    requires Keyed(p, genesis) && NoCollision(p, genesis, b)
    ensures var q := InsertPending(p, genesis, highQc, capacity, b);
      && b.hash in q && q[b.hash] == b
      && (forall h :: h in q && h != b.hash ==> h in p && q[h] == p[h])
      && (forall h :: h in p && h in Protected(p, genesis, highQc) ==> h in q && q[h] == p[h])
      && (|p| <= Max(capacity, 6) ==> |q| <= Max(capacity, 6))
  {
    hide Protected, Evicted;
    EvictedKeeps(p, genesis, highQc, capacity);
    var q := InsertPending(p, genesis, highQc, capacity, b);
    if b.hash in p {
      assert q == p;
    } else {
      var e := Evicted(p, genesis, highQc, capacity);
      assert b.hash !in e;
      assert q.Keys == e.Keys + {b.hash};
      assert |q.Keys| == |e.Keys| + 1;
    }
  }

  /** One insertion: the size bound, the genesis block and the pending commit all survive. */
  lemma {:induction false} InsertPendingKeeps(p: Pending, genesis: Hash, highQc: Option<Qc>, capacity: nat, b: Block)
    requires Keyed(p, genesis) && NoCollision(p, genesis, b)
    ensures var q := InsertPending(p, genesis, highQc, capacity, b);
      && Keyed(q, genesis)
      && (genesis in p ==> genesis in q)
      && (|p| <= Max(capacity, 6) ==> |q| <= Max(capacity, 6))
      && (forall h :: h in q && h != b.hash ==> h in p && q[h] == p[h])
      && q[b.hash] == b
      && KeepsCommit(highQc, p, q)
  {
    GenesisProtected(p, genesis, highQc);
    InsertPendingShape(p, genesis, highQc, capacity, b);
    if highQc.Some? && ThreeChainCommit(highQc.value, p).Some? {
      CommitTripleProtected(p, genesis, highQc.value);
      SameTripleSameCommit(highQc.value, p, InsertPending(p, genesis, highQc, capacity, b));
    }
  }

  lemma {:induction false} CardinalitySubset(a: set<Hash>, b: set<Hash>)
    requires a <= b
    ensures |a| <= |b|
    decreases a
  {
    if a != {} {
      var x :| x in a;
      CardinalitySubset(a - {x}, b - {x});
    }
  }

  /** `insert_pending` repeated, at a fixed capacity and high certificate. */
  ghost function InsertAll(p: Pending, genesis: Hash, highQc: Option<Qc>, capacity: nat, bs: seq<Block>): Pending {
    if bs == [] then p
    else InsertPending(InsertAll(p, genesis, highQc, capacity, bs[..|bs| - 1]), genesis, highQc, capacity, bs[|bs| - 1])
  }

  /** Blocks drawn from one collision-free universe. */
  predicate FromUniverse(universe: Pending, genesis: Hash, p: Pending, bs: seq<Block>) {
    && Keyed(universe, genesis) && genesis in universe
    && (forall h :: h in p ==> h in universe && universe[h] == p[h])
    && (forall i :: 0 <= i < |bs| ==> bs[i].hash in universe && universe[bs[i].hash] == bs[i])
  }

  /**
   * Under any sequence of insertions the cache never outgrows `max(capacity, 6)`, genesis stays,
   * and the block the high certificate commits is still committed, unchanged.
   */
  lemma {:induction false} EvictionNeverHidesCommit(
    universe: Pending, p: Pending, genesis: Hash, highQc: Option<Qc>, capacity: nat, bs: seq<Block>)
    requires FromUniverse(universe, genesis, p, bs)
    ensures var q := InsertAll(p, genesis, highQc, capacity, bs);
      && (forall h :: h in q ==> h in universe && universe[h] == q[h])
      && (genesis in p ==> genesis in q)
      && (|p| <= Max(capacity, 6) ==> |q| <= Max(capacity, 6))
      && KeepsCommit(highQc, p, q)
  {
    if bs == [] {
    } else {
      var front := bs[..|bs| - 1];
      EvictionNeverHidesCommit(universe, p, genesis, highQc, capacity, front);
      var q := InsertAll(p, genesis, highQc, capacity, front);
      InsertPendingKeeps(q, genesis, highQc, capacity, bs[|bs| - 1]);
    }
  }

  // ---------------------------------------------------------------------------
  // Voting, locking and committing

  /** `safe_to_vote`. */
  ghost predicate SafeToVote(n: Node, prop: Proposal) {
    && prop.block.view > n.lastVoted
    && (n.locked.None?
        || OnPath(n.pending, prop.block.hash, n.locked.value.hash)
        || prop.justify.view > n.locked.value.view)
  }

  /** `should_update_high_qc`. */
  predicate ShouldUpdateHighQc(n: Node, qc: Qc) {
    n.highQc.None? || qc.view > n.highQc.value.view
  }

  /** The two-chain candidate: the stored grandparent of the proposed block. */
  function LockCandidate(p: Pending, parent: Hash): Option<Locked> {
    if parent in p && p[parent].parent in p then
      var g := p[p[parent].parent];
      Some(Locked(g.view, g.height, p[parent].parent))
    else None
  }

  function LockHeight(l: Option<Locked>): nat { if l.Some? then l.value.height else 0 }
  function LockView(l: Option<Locked>): nat { if l.Some? then l.value.view else 0 }

  /** The lock update of the handler: the candidate replaces the lock when it is higher. */
  function UpdateLock(cur: Option<Locked>, cand: Option<Locked>): Option<Locked> {
    if cand.Some? && cand.value.height > LockHeight(cur) then cand else cur
  }

  /** Node state after the block is stored and the vote is decided, before the lock update. */
  ghost function AfterVote(n: Node, prop: Proposal): Node {
    var n1 := n.(pending := InsertPending(n.pending, n.genesis, n.highQc, n.capacity, prop.block));
    if SafeToVote(n1, prop) then
      n1.(lastVoted := prop.block.view,
          highQc := if ShouldUpdateHighQc(n1, prop.justify) then Some(prop.justify) else n1.highQc)
    else n1
  }

  ghost predicate Votes(n: Node, prop: Proposal) {
    && prop.block.parent in n.pending
    && SafeToVote(n.(pending := InsertPending(n.pending, n.genesis, n.highQc, n.capacity, prop.block)), prop)
  }

  ghost function AfterLock(n: Node, prop: Proposal): Node {
    var n2 := AfterVote(n, prop);
    n2.(locked := UpdateLock(n2.locked, LockCandidate(n2.pending, prop.block.parent)))
  }

  /** Blocks at or below a committed height leave the cache. */
  function Pruned(p: Pending, height: nat): Pending {
    map h | h in p && p[h].height > height :: p[h]
  }

  ghost function Commits(n: Node, prop: Proposal): Option<Block> {
    if prop.block.parent in n.pending then ThreeChainCommit(prop.justify, AfterLock(n, prop).pending) else None
  }

  /** `on_proposal_received`; a proposal whose parent is unknown is parked and changes nothing here. */
  ghost function OnProposal(n: Node, prop: Proposal): Node {
    if prop.block.parent !in n.pending then n
    else
      var n3 := AfterLock(n, prop);
      var c := ThreeChainCommit(prop.justify, n3.pending);
      if c.Some? then n3.(pending := Pruned(n3.pending, c.value.height)) else n3
  }

  /**
   * The height guard of the lock update agrees with the view order the vote rule uses.
   * It can be evaluated on the current lock and the candidate before the update.
   */
  predicate HeightGuardAgrees(cur: Option<Locked>, cand: Locked) {
    if cand.height > LockHeight(cur) then cand.view >= LockView(cur) else cand.view <= LockView(cur)
  }

  /** The lock ends up at the newest view seen exactly when the height guard agrees with the views. */
  lemma LockIsNewestViewIffGuardAgrees(cur: Option<Locked>, cand: Locked)
    ensures LockView(UpdateLock(cur, Some(cand))) == Max(LockView(cur), cand.view)
       <==> HeightGuardAgrees(cur, cand)
  {
  }

  function HighView(n: Node): int { if n.highQc.Some? then n.highQc.value.view else -1 }

  /** Nothing a vote depends on goes back, and a node votes exactly when its last voted view rises. */
  predicate NeverBack(n: Node, n': Node) {
    n.lastVoted <= n'.lastVoted && LockHeight(n.locked) <= LockHeight(n'.locked) && HighView(n) <= HighView(n')
  }

  lemma HandlerNeverGoesBack(n: Node, prop: Proposal)
    ensures NeverBack(n, OnProposal(n, prop))
    ensures Votes(n, prop) <==> OnProposal(n, prop).lastVoted > n.lastVoted
    ensures Votes(n, prop) ==> HighView(OnProposal(n, prop)) >= prop.justify.view
    ensures Votes(n, prop) ==> OnProposal(n, prop).lastVoted == prop.block.view
  {
  }

  /** `HotStuffState` and the proposal path of `HotStuffCore`. */
  class HotStuffState {
    var locked: Option<Locked>
    var highQc: Option<Qc>
    var lastVoted: nat
    var pending: Pending
    const genesis: Hash
    var capacity: nat

    ghost function Value(): Node
      reads this
    {
      Node(locked, highQc, lastVoted, pending, genesis, capacity)
    }

    constructor (genesis: Block, capacity: nat)
      ensures Value() == Node(None, None, 0, map[genesis.hash := genesis], genesis.hash, capacity)
    {
      locked, highQc, lastVoted := None, None, 0;
      pending := map[genesis.hash := genesis];
      this.genesis, this.capacity := genesis.hash, capacity;
    }

    method ProtectedBlockHashes() returns (out: set<Hash>)
      ensures out == Protected(pending, genesis, highQc)
    {
      out := {genesis};
      if highQc.Some? {
        var cursor := highQc.value.hash;
        var i := 0;
        while i < PROTECTED_HIGH_QC_DEPTH
          invariant i <= PROTECTED_HIGH_QC_DEPTH
          invariant ProtectedFrom(pending, cursor, out, PROTECTED_HIGH_QC_DEPTH - i)
                 == Protected(pending, genesis, highQc)
        {
          if cursor in out {
            break;
          }
          out := out + {cursor};
          if cursor !in pending {
            break;
          }
          cursor := pending[cursor].parent;
          i := i + 1;
        }
      }
    }

    method EvictPendingToFitOne()
      modifies this`pending
      ensures pending == Evicted(old(pending), genesis, highQc, capacity)
    {
      if |pending| < capacity {
        return;
      }
      var prot := ProtectedBlockHashes();
      var candidates := pending.Keys - prot;
      if candidates == {} {
        return;
      }
      var p := pending;
      var victim :| victim in candidates;
      var rest := candidates - {victim};
      while rest != {}
        invariant pending == p && rest <= candidates
        invariant IsVictim(p, candidates - rest, victim)
        decreases rest
      {
        var h :| h in rest;
        assert h in p;
        VictimOfOneMore(p, candidates - rest, victim, h);
        assert candidates - (rest - {h}) == candidates - rest + {h};
        if EvictsBefore(p, h, victim) {
          victim := h;
        }
        rest := rest - {h};
      }
      assert candidates - rest == candidates;
      VictimUnique(p, candidates, victim, Victim(p, candidates));
      pending := p - {victim};
    }

    method Insert(b: Block)
      modifies this`pending
      ensures pending == InsertPending(old(pending), genesis, highQc, capacity, b)
    {
      if b.hash !in pending {
        EvictPendingToFitOne();
      }
      pending := pending[b.hash := b];
    }

    method IsSafeToVote(prop: Proposal) returns (ok: bool)
      ensures ok <==> SafeToVote(Value(), prop)
    {
      if prop.block.view <= lastVoted {
        return false;
      }
      if locked.None? {
        return true;
      }
      var ext := Extends(prop.block.hash, locked.value.hash, pending);
      if ext {
        return true;
      }
      return prop.justify.view > locked.value.view;
    }

    /** `on_proposal_received`: votes, locks and commits as the step function says. */
    method OnProposalReceived(prop: Proposal) returns (vote: Option<Hash>, commit: Option<Block>)
      modifies this
      ensures Value() == OnProposal(old(Value()), prop)
      ensures vote == if Votes(old(Value()), prop) then Some(prop.block.hash) else None
      ensures commit == Commits(old(Value()), prop)
    {
      vote, commit := None, None;
      if prop.block.parent !in pending {
        return;
      }
      Insert(prop.block);
      var safe := IsSafeToVote(prop);
      if safe {
        lastVoted := prop.block.view;
        if highQc.None? || prop.justify.view > highQc.value.view {
          highQc := Some(prop.justify);
        }
        vote := Some(prop.block.hash);
      }
      assert Value() == AfterVote(old(Value()), prop);
      var candidate := LockCandidate(pending, prop.block.parent);
      if candidate.Some? {
        var currentHeight := if locked.Some? then locked.value.height else 0;
        if candidate.value.height > currentHeight {
          locked := candidate;
        }
      }
      assert Value() == AfterLock(old(Value()), prop);
      commit := ThreeChainCommit(prop.justify, pending);
      if commit.Some? {
        pending := Pruned(pending, commit.value.height);
      }
    }
  }
}
