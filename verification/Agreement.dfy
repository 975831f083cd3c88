/**
 * Agreement of the chained three-phase protocol over whole runs.
 *
 * A run delivers proposals, synchronised blocks and certificates, in any order, to nodes that follow
 * the handlers. Voters in `faulty` may in addition sign anything at any time.
 */
module Agreement {
  import opened Common
  import opened BlockTree
  import opened HotStuff
  import Quorum

  /** One validator-set regime. `tree` holds every block ever hashed: digests do not collide. */
  datatype Config = Config(weights: seq<nat>, faulty: set<nat>, tree: Pending, genesis: Hash)

  predicate ValidConfig(c: Config) {
    && Quorum.MachineWeights(c.weights)
    && 3 * Quorum.WeightOf(c.weights, c.faulty) <= Quorum.Total(c.weights)
    && ZERO_HASH !in c.tree
    && (forall h :: h in c.tree ==> c.tree[h].hash == h)
    && c.genesis in c.tree && c.tree[c.genesis].view == 0 && c.tree[c.genesis].parent == ZERO_HASH
  }

  /** A vote leaving a node, with the lock it held before the vote and the proposal's certificate. */
  datatype VoteRecord = VoteRecord(voter: nat, hash: Hash, lock: Option<Locked>, justify: Qc)

  type Log = seq<VoteRecord>

  predicate Signed(log: Log, i: nat, h: Hash) {
    exists k :: 0 <= k < |log| && log[k].voter == i && log[k].hash == h
  }

  /** Everyone whose partial signature on `h` may exist: voters on record, and all faulty ones. */
  function Signers(c: Config, log: Log, h: Hash): set<nat> {
    set i: nat | i < |c.weights| && (i in c.faulty || Signed(log, i, h))
  }

  predicate Certified(c: Config, log: Log, h: Hash) {
    h == c.genesis || Quorum.IsQuorum(c.weights, Signers(c, log, h))
  }

  /** A verified certificate: a quorum of signatures on a block, stamped with the block's view. */
  predicate Genuine(c: Config, log: Log, qc: Qc) {
    qc.hash in c.tree && qc.view == c.tree[qc.hash].view && Certified(c, log, qc.hash)
  }

  // ---------------------------------------------------------------------------
  // Runs

  datatype World = World(nodes: seq<Node>, log: Log, commits: seq<Hash>)

  datatype Event = Deliver(node: nat, prop: Proposal) | Sync(node: nat, block: Block) | Learn(node: nat, qc: Qc)

  /**
   * What reaches a handler: blocks of the tree, proposals whose certificate is genuine and
   * certifies the parent of the proposed block, and any certificate at all in a vote or a new view.
   */
  predicate Enabled(c: Config, w: World, e: Event) {
    match e
    case Deliver(i, prop) =>
      && i < |w.nodes|
      && prop.block.hash in c.tree && c.tree[prop.block.hash] == prop.block
      && Genuine(c, w.log, prop.justify)
      && prop.block.parent == prop.justify.hash
    case Sync(i, b) =>
      i < |w.nodes| && b.hash in c.tree && c.tree[b.hash] == b
    case Learn(i, _) => i < |w.nodes|
  }

  ghost function Apply(w: World, e: Event): World
    requires e.node < |w.nodes|
  {
    var n := w.nodes[e.node];
    match e
    case Deliver(i, prop) =>
      World(w.nodes[i := OnProposal(n, prop)],
            if Votes(n, prop) then w.log + [VoteRecord(i, prop.block.hash, n.locked, prop.justify)] else w.log,
            if Commits(n, prop).Some? then w.commits + [Commits(n, prop).value.hash] else w.commits)
    case Sync(i, b) =>
      w.(nodes := w.nodes[i := n.(pending := InsertPending(n.pending, n.genesis, n.highQc, n.capacity, b))])
    case Learn(i, qc) =>
      w.(nodes := w.nodes[i := if ShouldUpdateHighQc(n, qc) then n.(highQc := Some(qc)) else n])
  }

  /** The lock the node holds is at least as new as the grandparents of all its votes so far. */
  predicate LockCovers(c: Config, log: Log, i: nat, n: Node) {
    forall j :: 0 <= j < |log| && log[j].voter == i ==> GrandparentView(c, log[j].hash) <= LockView(n.locked)
  }

  /** The lock condition: a vote is cast only while the lock covers the voter's earlier votes. */
  ghost predicate VoteCovered(c: Config, w: World, e: Event)
    requires e.node < |w.nodes|
  {
    e.Deliver? && Votes(w.nodes[e.node], e.prop) ==> LockCovers(c, w.log, e.node, w.nodes[e.node])
  }

  predicate InitNode(c: Config, n: Node)
    requires ValidConfig(c)
  {
    && n.locked.None? && n.lastVoted == 0 && n.genesis == c.genesis
    && n.pending == map[c.genesis := c.tree[c.genesis]]
  }

  predicate Init(c: Config, w: World)
    requires ValidConfig(c)
  {
    w.log == [] && w.commits == [] && forall i :: 0 <= i < |w.nodes| ==> InitNode(c, w.nodes[i])
  }

  /** A run: every event was enabled when it happened. */
  ghost predicate Run(c: Config, w: World, es: seq<Event>, w': World)
    decreases |es|
  {
    if es == [] then w' == w
    else
      && Enabled(c, w, es[0])
      && Run(c, Apply(w, es[0]), es[1..], w')
  }

  /** The lock condition held at every delivery of the run. */
  ghost predicate RunCovered(c: Config, w: World, es: seq<Event>)
    decreases |es|
  {
    es != [] ==> Enabled(c, w, es[0]) && VoteCovered(c, w, es[0]) && RunCovered(c, Apply(w, es[0]), es[1..])
  }

  // ---------------------------------------------------------------------------
  // Certificates only accumulate

  lemma CertifiedMonotone(c: Config, a: Log, b: Log, h: Hash)
    requires a <= b && Certified(c, a, h) && Quorum.MachineWeights(c.weights)
    ensures Certified(c, b, h)
  {
    if h != c.genesis {
      forall i | i in Signers(c, a, h) ensures i in Signers(c, b, h) {
        if i !in c.faulty {
          var k :| 0 <= k < |a| && a[k].voter == i && a[k].hash == h;
          assert b[k] == a[k];
        }
      }
      Quorum.WeightMonotone(c.weights, Signers(c, a, h), Signers(c, b, h));
      Quorum.QuorumIffThreshold(c.weights, Signers(c, a, h));
      Quorum.QuorumIffThreshold(c.weights, Signers(c, b, h));
    }
  }

  // ---------------------------------------------------------------------------
  // What the log of votes satisfies

  function ViewOf(c: Config, h: Hash): nat { if h in c.tree then c.tree[h].view else 0 }

  /** The view of the grandparent, 0 where there is none. */
  function GrandparentView(c: Config, h: Hash): nat {
    if h in c.tree && c.tree[h].parent in c.tree && c.tree[c.tree[h].parent].parent in c.tree
    then c.tree[c.tree[c.tree[h].parent].parent].view else 0
  }

  predicate LockCertified(c: Config, log: Log, l: Option<Locked>) {
    l.Some? ==>
      l.value.hash in c.tree && l.value.view == c.tree[l.value.hash].view && Certified(c, log, l.value.hash)
  }

  /** One recorded vote obeyed the vote rule against what was certified when it was cast. */
  ghost predicate VoteObeysRule(c: Config, before: Log, r: VoteRecord) {
    && r.hash in c.tree && c.tree[r.hash].view > 0
    && c.tree[r.hash].parent == r.justify.hash && Genuine(c, before, r.justify)
    && LockCertified(c, before, r.lock)
    && (r.lock.None? || OnPath(c.tree, r.hash, r.lock.value.hash) || r.justify.view > r.lock.value.view)
  }

  /** An earlier vote of the same voter: views rise, and the lock reached the earlier two-chain. */
  predicate Ratchets(c: Config, earlier: VoteRecord, later: VoteRecord) {
    earlier.voter == later.voter ==>
      ViewOf(c, earlier.hash) < ViewOf(c, later.hash)
      && GrandparentView(c, earlier.hash) <= LockView(later.lock)
  }

  ghost predicate LogOk(c: Config, log: Log) {
    && (forall k :: 0 <= k < |log| ==> VoteObeysRule(c, log[..k], log[k]))
    && (forall j, k :: 0 <= j < k < |log| ==> Ratchets(c, log[j], log[k]))
  }

  /** A certified block other than genesis was voted for by an honest voter on record. */
  lemma HonestVoteBehind(c: Config, log: Log, h: Hash) returns (k: nat)
    requires ValidConfig(c) && Certified(c, log, h) && h != c.genesis
    ensures k < |log| && log[k].hash == h && log[k].voter !in c.faulty
  {
    var s := Signers(c, log, h);
    var i := Quorum.HonestInBoth(c.weights, s, s, c.faulty);
    k :| 0 <= k < |log| && log[k].voter == i && log[k].hash == h;
  }

  lemma CertifiedInTree(c: Config, log: Log, h: Hash)
    requires ValidConfig(c) && LogOk(c, log) && Certified(c, log, h)
    ensures h in c.tree
    ensures h != c.genesis ==> c.tree[h].view > 0
  {
    if h != c.genesis {
      var k := HonestVoteBehind(c, log, h);
      assert VoteObeysRule(c, log[..k], log[k]);
    }
  }

  /** At most one block is ever certified per view. */
  lemma OneCertifiedPerView(c: Config, log: Log, g: Hash, h: Hash)
    requires ValidConfig(c) && LogOk(c, log) && Certified(c, log, g) && Certified(c, log, h)
    requires ViewOf(c, g) == ViewOf(c, h)
    ensures g == h
  {
    CertifiedInTree(c, log, g);
    CertifiedInTree(c, log, h);
    if g != c.genesis && h != c.genesis {
      var i := Quorum.HonestInBoth(c.weights, Signers(c, log, g), Signers(c, log, h), c.faulty);
      var a :| 0 <= a < |log| && log[a].voter == i && log[a].hash == g;
      var b :| 0 <= b < |log| && log[b].voter == i && log[b].hash == h;
      assert a < b ==> Ratchets(c, log[a], log[b]);
      assert b < a ==> Ratchets(c, log[b], log[a]);
    }
  }

  /** The parent of a certified block is certified. */
  lemma ParentCertified(c: Config, log: Log, h: Hash)
    requires ValidConfig(c) && LogOk(c, log) && Certified(c, log, h) && h != c.genesis
    ensures h in c.tree && c.tree[h].parent in c.tree && Certified(c, log, c.tree[h].parent)
  {
    var k := HonestVoteBehind(c, log, h);
    assert VoteObeysRule(c, log[..k], log[k]);
    CertifiedMonotone(c, log[..k], log, log[k].justify.hash);
  }

  /** The blocks of a certified three-chain in consecutive views. */
  predicate CommitTriple(c: Config, log: Log, h1: Hash, h2: Hash, h3: Hash) {
    && h1 in c.tree && h2 in c.tree && h3 in c.tree
    && c.tree[h3].parent == h2 && c.tree[h2].parent == h1
    && c.tree[h2].view == c.tree[h1].view + 1 && c.tree[h3].view == c.tree[h2].view + 1
    && Certified(c, log, h3)
  }

  lemma TripleCertified(c: Config, log: Log, h1: Hash, h2: Hash, h3: Hash)
    requires ValidConfig(c) && LogOk(c, log) && CommitTriple(c, log, h1, h2, h3)
    ensures Certified(c, log, h2) && Certified(c, log, h1)
  {
    ParentCertified(c, log, h3);
    ParentCertified(c, log, h2);
  }

  /** Blocks certified in the views of the triple are the blocks of the triple. */
  lemma NearbyCertifiedExtends(c: Config, log: Log, h1: Hash, h2: Hash, h3: Hash, h: Hash)
    requires ValidConfig(c) && LogOk(c, log) && CommitTriple(c, log, h1, h2, h3)
    requires Certified(c, log, h) && ViewOf(c, h1) <= ViewOf(c, h) <= ViewOf(c, h3)
    ensures OnPath(c.tree, h, h1)
  {
    TripleCertified(c, log, h1, h2, h3);
    assert Follow(c.tree, h1, 0) == Some(h1);
    assert Follow(c.tree, h2, 1) == Some(h1);
    assert Follow(c.tree, h3, 1) == Some(h2);
    assert Follow(c.tree, h3, 2) == Some(h1);
    if ViewOf(c, h) == ViewOf(c, h1) {
      OneCertifiedPerView(c, log, h, h1);
    } else if ViewOf(c, h) == ViewOf(c, h2) {
      OneCertifiedPerView(c, log, h, h2);
    } else {
      OneCertifiedPerView(c, log, h, h3);
    }
  }

  lemma ParentPath(c: Config, h: Hash, a: Hash)
    requires ValidConfig(c) && h in c.tree && OnPath(c.tree, c.tree[h].parent, a)
    ensures OnPath(c.tree, h, a)
  {
    assert Follow(c.tree, h, 0) == Some(h) && Follow(c.tree, h, 1) == Some(c.tree[h].parent);
    assert OnPath(c.tree, h, c.tree[h].parent);
    PathTransitive(c.tree, h, c.tree[h].parent, a);
  }

  /** An honest voter shared by the third block's quorum and a later quorum, and its two votes. */
  lemma SharedVoter(c: Config, log: Log, n: nat, h3: Hash, h: Hash) returns (j: nat, k: nat)
    requires ValidConfig(c) && LogOk(c, log) && n <= |log|
    requires Certified(c, log, h3) && h3 != c.genesis && Certified(c, log[..n], h) && h != c.genesis
    requires ViewOf(c, h3) < ViewOf(c, h)
    ensures j < k < n && log[j].hash == h3 && log[k].hash == h
    ensures Ratchets(c, log[j], log[k]) && log[j].voter == log[k].voter
  {
    var i := Quorum.HonestInBoth(c.weights, Signers(c, log, h3), Signers(c, log[..n], h), c.faulty);
    j :| 0 <= j < |log| && log[j].voter == i && log[j].hash == h3;
    assert Signed(log[..n], i, h);
    k :| 0 <= k < n && log[..n][k].voter == i && log[..n][k].hash == h;
  }

  /**
   * The heart of safety: once a three-chain is certified, every block certified at any point of
   * the run in a view at or above the committed one extends the committed block.
   */
  lemma {:induction false} CertifiedExtendsCommitted(c: Config, log: Log, n: nat, h1: Hash, h2: Hash, h3: Hash, h: Hash)
    requires ValidConfig(c) && LogOk(c, log) && CommitTriple(c, log, h1, h2, h3)
    requires n <= |log| && Certified(c, log[..n], h) && ViewOf(c, h1) <= ViewOf(c, h)
    ensures OnPath(c.tree, h, h1)
    decreases n
  {
    CertifiedMonotone(c, log[..n], log, h);
    CertifiedInTree(c, log, h);
    if ViewOf(c, h) <= ViewOf(c, h3) {
      NearbyCertifiedExtends(c, log, h1, h2, h3, h);
    } else {
      var j, k := SharedVoter(c, log, n, h3, h);
      var r := log[k];
      assert VoteObeysRule(c, log[..k], r);
      assert log[..n][..k] == log[..k];
      if ViewOf(c, h1) > 0 && !(r.justify.view > r.lock.value.view) {
        CertifiedExtendsCommitted(c, log, k, h1, h2, h3, r.lock.value.hash);
        PathTransitive(c.tree, h, r.lock.value.hash, h1);
      } else {
        CertifiedExtendsCommitted(c, log, k, h1, h2, h3, r.justify.hash);
        ParentPath(c, h, h1);
      }
    }
  }

  /** The two digests lie on one parent chain of the block tree. */
  ghost predicate OnOneChain(c: Config, a: Hash, b: Hash) {
    OnPath(c.tree, a, b) || OnPath(c.tree, b, a)
  }

  /** Some genuine certificate makes the commit rule return `x`. */
  ghost predicate Committable(c: Config, log: Log, x: Hash) {
    exists qc: Qc :: CommitsVia(c, log, x, qc)
  }

  predicate CommitsVia(c: Config, log: Log, x: Hash, qc: Qc) {
    && Genuine(c, log, qc)
    && ThreeChainCommit(qc, c.tree).Some? && ThreeChainCommit(qc, c.tree).value.hash == x
  }

  /** Two blocks the commit rule returns for genuine certificates never conflict. */
  lemma CommittableOnOneChain(c: Config, log: Log, x: Hash, y: Hash)
    requires ValidConfig(c) && LogOk(c, log) && Committable(c, log, x) && Committable(c, log, y)
    ensures OnOneChain(c, x, y)
  {
    var p :| CommitsVia(c, log, x, p);
    var q :| CommitsVia(c, log, y, q);
    var x2, y2 := c.tree[p.hash].parent, c.tree[q.hash].parent;
    assert CommitTriple(c, log, x, x2, p.hash) && CommitTriple(c, log, y, y2, q.hash);
    TripleCertified(c, log, x, x2, p.hash);
    TripleCertified(c, log, y, y2, q.hash);
    assert log[..|log|] == log;
    if ViewOf(c, x) <= ViewOf(c, y) {
      CertifiedExtendsCommitted(c, log, |log|, x, x2, p.hash, y);
    } else {
      CertifiedExtendsCommitted(c, log, |log|, y, y2, q.hash, x);
    }
  }

  // ---------------------------------------------------------------------------
  // The invariant of runs

  predicate InTree(c: Config, p: Pending) {
    forall h :: h in p ==> h in c.tree && c.tree[h] == p[h]
  }

  predicate NodeOk(c: Config, log: Log, i: nat, n: Node) {
    && n.genesis == c.genesis
    && InTree(c, n.pending)
    && LockCertified(c, log, n.locked)
    && (forall j :: 0 <= j < |log| ==> NodeCovers(c, log[j], i, n))
  }

  /** The node has voted up to its own recorded vote. */
  predicate NodeCovers(c: Config, r: VoteRecord, i: nat, n: Node) {
    r.voter == i ==> ViewOf(c, r.hash) <= n.lastVoted
  }

  ghost predicate WorldOk(c: Config, w: World) {
    && LogOk(c, w.log)
    && (forall i :: 0 <= i < |w.nodes| ==> NodeOk(c, w.log, i, w.nodes[i]))
    && (forall k :: 0 <= k < |w.commits| ==> Committable(c, w.log, w.commits[k]))
  }

  lemma InsertStaysInTree(c: Config, n: Node, b: Block)
    requires ValidConfig(c) && n.genesis == c.genesis && InTree(c, n.pending)
    requires b.hash in c.tree && c.tree[b.hash] == b
    ensures InTree(c, InsertPending(n.pending, n.genesis, n.highQc, n.capacity, b))
  {
    assert NoCollision(n.pending, n.genesis, b);
    InsertPendingShape(n.pending, n.genesis, n.highQc, n.capacity, b);
  }

  /** The candidate of a delivered proposal is the certified grandparent of the proposed block. */
  lemma CandidateCertified(c: Config, log: Log, p: Pending, prop: Proposal)
    requires ValidConfig(c) && LogOk(c, log) && InTree(c, p)
    requires Genuine(c, log, prop.justify) && prop.block.parent == prop.justify.hash
    requires prop.block.hash in c.tree && c.tree[prop.block.hash] == prop.block
    requires LockCandidate(p, prop.block.parent).Some?
    ensures LockCertified(c, log, LockCandidate(p, prop.block.parent))
    ensures LockCandidate(p, prop.block.parent).value.view == GrandparentView(c, prop.block.hash)
  {
    var parent := prop.block.parent;
    assert parent in p && p[parent].parent in p;
    assert parent != c.genesis;
    ParentCertified(c, log, parent);
  }

  /** A vote cast by the handler obeys the rule and ratchets over the voter's earlier votes. */
  lemma VoteExtendsLog(c: Config, log: Log, i: nat, n: Node, prop: Proposal)
    requires ValidConfig(c) && LogOk(c, log) && NodeOk(c, log, i, n)
    requires Genuine(c, log, prop.justify) && prop.block.parent == prop.justify.hash
    requires prop.block.hash in c.tree && c.tree[prop.block.hash] == prop.block
    requires Votes(n, prop) && LockCovers(c, log, i, n)
    ensures LogOk(c, log + [VoteRecord(i, prop.block.hash, n.locked, prop.justify)])
  {
    var r := VoteRecord(i, prop.block.hash, n.locked, prop.justify);
    var p := InsertPending(n.pending, n.genesis, n.highQc, n.capacity, prop.block);
    InsertStaysInTree(c, n, prop.block);
    if n.locked.Some? && OnPath(p, prop.block.hash, n.locked.value.hash) {
      var m: nat :| Follow(p, prop.block.hash, m) == Some(n.locked.value.hash);
      FollowInLarger(p, c.tree, prop.block.hash, m);
      assert OnPath(c.tree, prop.block.hash, n.locked.value.hash);
    }
    assert VoteObeysRule(c, log, r);
    var log' := log + [r];
    forall k | 0 <= k < |log'| ensures VoteObeysRule(c, log'[..k], log'[k]) {
      assert log'[..k] == if k < |log| then log[..k] else log;
    }
    forall j, k | 0 <= j < k < |log'| ensures Ratchets(c, log'[j], log'[k]) {
      assert k == |log| ==> NodeCovers(c, log[j], i, n);
    }
  }

  lemma LockCertifiedMonotone(c: Config, a: Log, b: Log, l: Option<Locked>)
    requires a <= b && Quorum.MachineWeights(c.weights) && LockCertified(c, a, l)
    ensures LockCertified(c, b, l)
  {
    if l.Some? { CertifiedMonotone(c, a, b, l.value.hash); }
  }

  /** After the handler ran, its node still covers its own votes, the new one included. */
  lemma DeliverKeepsNode(c: Config, log: Log, i: nat, n: Node, prop: Proposal, log': Log)
    requires ValidConfig(c) && LogOk(c, log) && NodeOk(c, log, i, n)
    requires Genuine(c, log, prop.justify) && prop.block.parent == prop.justify.hash
    requires prop.block.hash in c.tree && c.tree[prop.block.hash] == prop.block
    requires prop.block.parent in n.pending
    requires log' == if Votes(n, prop) then log + [VoteRecord(i, prop.block.hash, n.locked, prop.justify)] else log
    ensures NodeOk(c, log', i, OnProposal(n, prop))
  {
    InsertStaysInTree(c, n, prop.block);
    var n2, n3 := AfterVote(n, prop), AfterLock(n, prop);
    var cand := LockCandidate(n2.pending, prop.block.parent);
    if cand.Some? {
      CandidateCertified(c, log, n2.pending, prop);
      LockCertifiedMonotone(c, log, log', cand);
    }
    LockCertifiedMonotone(c, log, log', n.locked);
    var n' := OnProposal(n, prop);
    assert InTree(c, n'.pending) && n'.locked == n3.locked && n'.lastVoted == n3.lastVoted;
    forall j | 0 <= j < |log'| ensures NodeCovers(c, log'[j], i, n') {
      if j < |log| { assert NodeCovers(c, log[j], i, n); }
    }
  }

  lemma OtherNodeOk(c: Config, log: Log, log': Log, i: nat, n: Node)
    requires Quorum.MachineWeights(c.weights) && NodeOk(c, log, i, n) && log <= log'
    requires forall j :: |log| <= j < |log'| ==> log'[j].voter != i
    ensures NodeOk(c, log', i, n)
  {
    LockCertifiedMonotone(c, log, log', n.locked);
    forall j | 0 <= j < |log'| ensures NodeCovers(c, log'[j], i, n) {
      if j < |log| {
        assert NodeCovers(c, log[j], i, n);
      }
    }
  }

  lemma CommittableMonotone(c: Config, a: Log, b: Log, x: Hash)
    requires a <= b && Quorum.MachineWeights(c.weights) && Committable(c, a, x)
    ensures Committable(c, b, x)
  {
    var qc :| CommitsVia(c, a, x, qc);
    CertifiedMonotone(c, a, b, qc.hash);
    assert CommitsVia(c, b, x, qc);
  }

  lemma NodeCommitIsCommittable(c: Config, log: Log, i: nat, n: Node, prop: Proposal)
    requires ValidConfig(c) && LogOk(c, log) && NodeOk(c, log, i, n)
    requires Genuine(c, log, prop.justify) && prop.block.parent == prop.justify.hash
    requires prop.block.hash in c.tree && c.tree[prop.block.hash] == prop.block
    requires Commits(n, prop).Some?
    ensures Committable(c, log, Commits(n, prop).value.hash)
  {
    InsertStaysInTree(c, n, prop.block);
    SameTripleSameCommit(prop.justify, AfterLock(n, prop).pending, c.tree);
    assert CommitsVia(c, log, Commits(n, prop).value.hash, prop.justify);
  }

  /** Every step of every node keeps the invariant of runs. */
  lemma StepKeepsWorld(c: Config, w: World, e: Event)
    requires ValidConfig(c) && WorldOk(c, w) && Enabled(c, w, e) && VoteCovered(c, w, e)
    ensures WorldOk(c, Apply(w, e))
  {
    var w' := Apply(w, e);
    var n := w.nodes[e.node];
    assert NodeOk(c, w.log, e.node, n);
    if e.Deliver? {
      if Votes(n, e.prop) {
        VoteExtendsLog(c, w.log, e.node, n, e.prop);
      }
      if e.prop.block.parent in n.pending {
        DeliverKeepsNode(c, w.log, e.node, n, e.prop, w'.log);
      }
      if Commits(n, e.prop).Some? {
        NodeCommitIsCommittable(c, w.log, e.node, n, e.prop);
      }
    } else {
      if e.Sync? { InsertStaysInTree(c, n, e.block); }
      var n' := w'.nodes[e.node];
      assert forall j :: 0 <= j < |w.log| ==> NodeCovers(c, w.log[j], e.node, n) && NodeCovers(c, w.log[j], e.node, n');
      assert NodeOk(c, w'.log, e.node, n');
    }
    forall i | 0 <= i < |w'.nodes| ensures NodeOk(c, w'.log, i, w'.nodes[i]) {
      if i != e.node { OtherNodeOk(c, w.log, w'.log, i, w.nodes[i]); }
    }
    forall k | 0 <= k < |w'.commits| ensures Committable(c, w'.log, w'.commits[k]) {
      CommittableMonotone(c, w.log, w'.log, w'.commits[k]);
    }
  }

  lemma {:induction false} RunKeepsWorld(c: Config, w: World, es: seq<Event>, w': World)
    requires ValidConfig(c) && WorldOk(c, w) && Run(c, w, es, w') && RunCovered(c, w, es)
    ensures WorldOk(c, w')
    decreases |es|
  {
    if es == [] {
    } else {
      StepKeepsWorld(c, w, es[0]);
      RunKeepsWorld(c, Apply(w, es[0]), es[1..], w');
    }
  }

  /**
   * Agreement: in every run whose votes are cast with a lock that covers the voter's earlier votes,
   * any two blocks committed by any nodes at any time lie on one parent chain, and so do all blocks
   * any genuine certificate commits.
   */
  lemma {:induction false} AgreementOverRuns(c: Config, w: World, es: seq<Event>, w': World)
    requires ValidConfig(c) && Init(c, w) && Run(c, w, es, w') && RunCovered(c, w, es)
    ensures forall x, y :: Committable(c, w'.log, x) && Committable(c, w'.log, y) ==> OnOneChain(c, x, y)
    ensures forall k :: 0 <= k < |w'.commits| ==> Committable(c, w'.log, w'.commits[k])
  {
    assert WorldOk(c, w);
    RunKeepsWorld(c, w, es, w');
    forall x, y | Committable(c, w'.log, x) && Committable(c, w'.log, y) ensures OnOneChain(c, x, y) {
      CommittableOnOneChain(c, w'.log, x, y);
    }
  }

  /** In every run, whatever its locks, no node's last vote, lock height or high certificate goes back. */
  lemma {:induction false} RunNeverGoesBack(c: Config, w: World, es: seq<Event>, w': World, i: nat)
    requires Run(c, w, es, w') && i < |w.nodes|
    ensures |w'.nodes| == |w.nodes| && NeverBack(w.nodes[i], w'.nodes[i])
    decreases |es|
  {
    hide OnProposal, Votes, Commits, Genuine;
    if es == [] {
    } else {
      if es[0].Deliver? { HandlerNeverGoesBack(w.nodes[es[0].node], es[0].prop); }
      RunNeverGoesBack(c, Apply(w, es[0]), es[1..], w', i);
    }
  }
}
