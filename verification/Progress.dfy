/**
 * When a node must vote, and what votes lead to: four proposals on one chain, delivered to every
 * node, are voted for by all of them and commit the first.
 */
module Progress {
  import opened Common
  import opened BlockTree
  import opened HotStuff
  import opened Agreement
  import Quorum

  // ---------------------------------------------------------------------------
  // When a node votes

  /** The cache with the proposed block in it. */
  ghost function Stored(n: Node, b: Block): Pending { InsertPending(n.pending, n.genesis, n.highQc, n.capacity, b) }

  /**
   * A proposal on a stored parent is voted for if and only if its view is fresh and there is no lock,
   * or stored parent links lead from the block to the lock, or the certificate is newer than the lock.
   */
  lemma VotedIff(n: Node, prop: Proposal)
    requires prop.block.parent in n.pending
    ensures OnProposal(n, prop).lastVoted ==
      if && prop.block.view > n.lastVoted
         && (n.locked.Some? && prop.justify.view <= n.locked.value.view ==>
               exists m: nat :: Follow(Stored(n, prop.block), prop.block.hash, m) == Some(n.locked.value.hash))
      then prop.block.view else n.lastVoted
  {
    hide InsertPending, Follow, ThreeChainCommit;
    var n1 := n.(pending := Stored(n, prop.block));
    if n.locked.Some? { PathIff(n1.pending, prop.block.hash, n.locked.value.hash); }
    assert OnProposal(n, prop).lastVoted == AfterVote(n, prop).lastVoted;
    assert AfterVote(n, prop).lastVoted == if SafeToVote(n1, prop) then prop.block.view else n.lastVoted;
  }

  lemma PathIff(p: Pending, b: Hash, a: Hash)
    ensures OnPath(p, b, a) <==> exists m: nat :: Follow(p, b, m) == Some(a)
  {
    if OnPath(p, b, a) {
      var m := LengthOf(p, b, a);
      assert Follow(p, b, m) == Some(a);
    }
    if m: nat :| Follow(p, b, m) == Some(a) {
      PathOfLength(p, b, a, m);
    }
  }

  /** Nothing is dropped to make room for the block. */
  predicate HasRoom(n: Node, b: Block) { b.hash in n.pending || |n.pending| < n.capacity }

  /** The path to the lock runs through the parent. */
  lemma {:induction false} StoredPath(n: Node, b: Block, a: Hash)
    requires ZERO_HASH !in n.pending && b.hash != ZERO_HASH && HasRoom(n, b) && b.parent in n.pending
    requires b.hash in n.pending ==> n.pending[b.hash] == b
    requires forall m: nat :: Follow(n.pending, b.parent, m) != Some(b.hash)
    ensures OnPath(Stored(n, b), b.hash, a) <==> a == b.hash || OnPath(n.pending, b.parent, a)
  {
    hide *;
    var p := Stored(n, b);
    StoredIs(n, b);
    assert Follow(p, b.hash, 0) == Some(b.hash) && Follow(p, b.hash, 1) == Some(b.parent) by { FirstSteps(p, b); }
    if a == b.hash {
      PathOfLength(p, b.hash, a, 0);
    }
    if OnPath(n.pending, b.parent, a) {
      var m := LengthOf(n.pending, b.parent, a);
      FollowInLarger(n.pending, p, b.parent, m);
      FollowCompose(p, b.hash, 1, b.parent, m);
      PathOfLength(p, b.hash, a, 1 + m);
    }
    if OnPath(p, b.hash, a) && a != b.hash {
      var m := LengthOf(p, b.hash, a);
      assert m > 0;
      FollowCompose(p, b.hash, 1, b.parent, m - 1);
      WithoutBlock(n, b, m - 1);
      PathOfLength(n.pending, b.parent, a, m - 1);
    }
  }

  /**
   * In terms of what the node stores before: with room for the block, it is voted for if and only if
   * its view is fresh and there is no lock, or the lock is the block or lies on the path of its
   * parent, or the certificate is newer than the lock.
   */
  lemma VotedWithRoomIff(n: Node, prop: Proposal)
    requires ZERO_HASH !in n.pending && prop.block.hash != ZERO_HASH && HasRoom(n, prop.block) && prop.block.parent in n.pending
    requires prop.block.hash in n.pending ==> n.pending[prop.block.hash] == prop.block
    requires forall m: nat :: Follow(n.pending, prop.block.parent, m) != Some(prop.block.hash)
    ensures OnProposal(n, prop).lastVoted ==
      if && prop.block.view > n.lastVoted
         && (n.locked.Some? && prop.justify.view <= n.locked.value.view ==>
               n.locked.value.hash == prop.block.hash || OnPath(n.pending, prop.block.parent, n.locked.value.hash))
      then prop.block.view else n.lastVoted
  {
    hide OnProposal, OnPath, Follow, InsertPending, Stored;
    VotedIff(n, prop);
    if n.locked.Some? {
      StoredPath(n, prop.block, n.locked.value.hash);
      PathIff(Stored(n, prop.block), prop.block.hash, n.locked.value.hash);
    }
  }

  lemma StoredIs(n: Node, b: Block)
    requires HasRoom(n, b)
    ensures Stored(n, b) == n.pending[b.hash := b]
  {
  }

  lemma FirstSteps(p: Pending, b: Block)
    requires b.hash in p && p[b.hash] == b
    ensures Follow(p, b.hash, 0) == Some(b.hash) && Follow(p, b.hash, 1) == Some(b.parent)
  {
  }

  lemma PathOfLength(p: Pending, b: Hash, a: Hash, m: nat)
    requires Follow(p, b, m) == Some(a)
    ensures OnPath(p, b, a)
  {
  }

  lemma LengthOf(p: Pending, b: Hash, a: Hash) returns (m: nat)
    requires OnPath(p, b, a)
    ensures Follow(p, b, m) == Some(a) && (a != b ==> m > 0)
  {
    m :| Follow(p, b, m) == Some(a);
  }

  /** From the parent, the new block is never met, so it makes no difference. */
  lemma {:induction false} WithoutBlock(n: Node, b: Block, m: nat)
    requires HasRoom(n, b) && (b.hash in n.pending ==> n.pending[b.hash] == b)
    requires forall k: nat :: Follow(n.pending, b.parent, k) != Some(b.hash)
    ensures Follow(Stored(n, b), b.parent, m) == Follow(n.pending, b.parent, m)
  {
    hide InsertPending, Stored;
    if m == 0 {
    } else {
      WithoutBlock(n, b, m - 1);
      StoredIs(n, b);
      assert Follow(n.pending, b.parent, m - 1) != Some(b.hash);
    }
  }

  // ---------------------------------------------------------------------------
  // One proposal at one node

  /** The proposal of a block of the tree with the certificate of its parent. */
  function PropOf(c: Config, b: Block): Proposal { Proposal(b, Qc(ViewOf(c, b.parent), b.parent)) }

  predicate InTheTree(c: Config, b: Block) { b.hash in c.tree && c.tree[b.hash] == b && b.parent in c.tree }

  /** The block extends the lock, or there is none, or the certificate is newer. */
  ghost predicate LockOpen(n: Node, prop: Proposal) {
    n.locked.Some? ==> prop.justify.view > n.locked.value.view || OnPath(n.pending, prop.block.parent, n.locked.value.hash)
  }

  predicate LockInTree(c: Config, l: Option<Locked>) {
    l.Some? ==> l.value.hash in c.tree && l.value.view == c.tree[l.value.hash].view
  }

  /** The node stores the parent, has not voted in the view, holds no lock in the way and has room. */
  ghost predicate Ready(c: Config, n: Node, b: Block, room: nat) {
    && n.genesis == c.genesis && InTree(c, n.pending) && LockInTree(c, n.locked)
    && b.parent in n.pending && b.view > n.lastVoted
    && |n.pending| + room <= n.capacity && LockOpen(n, PropOf(c, b))
  }

  lemma ParentPathIn(c: Config, p: Pending, b: Block, a: Hash)
    requires ZERO_HASH !in c.tree && InTree(c, p) && b.hash in p && p[b.hash] == b && OnPath(p, b.parent, a)
    ensures OnPath(p, b.hash, a)
  {
    hide Follow, OnPath;
    FirstSteps(p, b);
    PathOfLength(p, b.hash, b.parent, 1);
    PathTransitive(p, b.hash, b.parent, a);
  }

  lemma LargerPath(p: Pending, q: Pending, b: Hash, a: Hash)
    requires forall h :: h in p ==> h in q && q[h] == p[h]
    requires OnPath(p, b, a)
    ensures OnPath(q, b, a)
  {
    hide OnPath;
    var m := LengthOf(p, b, a);
    FollowInLarger(p, q, b, m);
    PathOfLength(q, b, a, m);
  }

  lemma PathViews(c: Config, p: Pending, b: Hash, a: Hash)
    requires Structural(c.tree) && InTree(c, p) && OnPath(p, b, a) && b in c.tree && a in c.tree
    ensures c.tree[a].view <= c.tree[b].view
  {
    hide OnPath;
    var m := LengthOf(p, b, a);
    FollowInLarger(p, c.tree, b, m);
    PathLengthIsHeightDifference(c.tree, b, m, a);
  }

  lemma RoomOne(n: Node, b: Block)
    requires |n.pending| < n.capacity
    ensures Stored(n, b) == n.pending[b.hash := b] && |Stored(n, b)| <= |n.pending| + 1
  {
    assert (n.pending[b.hash := b]).Keys == n.pending.Keys + {b.hash};
  }

  /** A ready node votes. */
  lemma ReadyVotes(c: Config, n: Node, b: Block, room: nat)
    requires Structural(c.tree) && InTheTree(c, b) && Ready(c, n, b, room) && room > 0
    ensures Votes(n, PropOf(c, b))
    ensures InTree(c, Stored(n, b))
  {
    hide OnPath, InsertPending;
    var p := Stored(n, b);
    RoomOne(n, b);
    if n.locked.Some? && PropOf(c, b).justify.view <= n.locked.value.view {
      LargerPath(n.pending, p, b.parent, n.locked.value.hash);
      ParentPathIn(c, p, b, n.locked.value.hash);
    }
  }

  /** A block committed by the certificate of a proposal lies three below the proposed block. */
  lemma CommitHeight(c: Config, p: Pending, b: Block)
    requires Structural(c.tree) && InTheTree(c, b) && InTree(c, p)
    requires ThreeChainCommit(PropOf(c, b).justify, p).Some?
    ensures ThreeChainCommit(PropOf(c, b).justify, p).value.height + 3 == b.height
  {
    var b3 := p[b.parent];
    var b2 := p[b3.parent];
    var b1 := p[b2.parent];
    assert ValidateStructural(c.tree[b.hash], c.tree[b.parent]).Ok?;
    assert ValidateStructural(c.tree[b.parent], c.tree[b3.parent]).Ok?;
    assert ValidateStructural(c.tree[b3.parent], c.tree[b2.parent]).Ok?;
  }

  lemma LockAfter(c: Config, n: Node, b: Block, room: nat)
    requires Structural(c.tree) && InTheTree(c, b) && Ready(c, n, b, room) && room > 0
    ensures var l := AfterLock(n, PropOf(c, b)).locked;
      LockInTree(c, l) && (l.Some? ==> l.value.view <= ViewOf(c, b.parent))
  {
    hide OnPath, InsertPending, ThreeChainCommit;
    ReadyVotes(c, n, b, room);
    if n.locked.Some? && OnPath(n.pending, b.parent, n.locked.value.hash) {
      PathViews(c, n.pending, b.parent, n.locked.value.hash);
    }
  }

  /** What a vote of a ready node leaves: the next block of the chain finds it ready. */
  lemma ReadyStep(c: Config, n: Node, b: Block, room: nat)
    requires Structural(c.tree) && InTheTree(c, b) && Ready(c, n, b, room) && room > 0
    ensures var n', commit := OnProposal(n, PropOf(c, b)), Commits(n, PropOf(c, b));
      && Votes(n, PropOf(c, b)) && n'.lastVoted == b.view
      && (commit.Some? ==> commit.value.height + 3 == b.height)
      && (forall h :: h in n'.pending <==>
            (h in n.pending || h == b.hash) && (commit.Some? ==> c.tree[h].height > commit.value.height))
      && (forall next: Block :: InTheTree(c, next) && next.parent == b.hash ==> Ready(c, n', next, room - 1))
  {
    hide OnPath, InsertPending, ThreeChainCommit, AfterVote, LockOpen;
    var prop := PropOf(c, b);
    ReadyVotes(c, n, b, room);
    RoomOne(n, b);
    LockAfter(c, n, b, room);
    AfterLockParts(n, prop);
    var p := Stored(n, b);
    var n', commit := OnProposal(n, prop), Commits(n, prop);
    if commit.Some? {
      CommitHeight(c, p, b);
      PrunedIsSmaller(p, commit.value.height);
    }
    forall next: Block | InTheTree(c, next) && next.parent == b.hash ensures Ready(c, n', next, room - 1) {
      assert ValidateStructural(c.tree[next.hash], c.tree[b.hash]).Ok?;
      assert ValidateStructural(c.tree[b.hash], c.tree[b.parent]).Ok?;
      OpenByView(c, n', next);
    }
  }

  lemma OpenByView(c: Config, n: Node, b: Block)
    requires n.locked.Some? ==> n.locked.value.view < ViewOf(c, b.parent)
    ensures LockOpen(n, PropOf(c, b))
  {
  }

  lemma AfterLockParts(n: Node, prop: Proposal)
    requires Votes(n, prop)
    ensures var a := AfterLock(n, prop);
      && a.pending == Stored(n, prop.block) && a.lastVoted == prop.block.view
      && a.genesis == n.genesis && a.capacity == n.capacity
  {
    hide OnPath, InsertPending;
  }

  lemma PrunedIsSmaller(p: Pending, height: nat)
    ensures |Pruned(p, height)| <= |p|
  {
    CardinalitySubset(Pruned(p, height).Keys, p.Keys);
  }

  // ---------------------------------------------------------------------------
  // One proposal at every node

  ghost function Round(w: World, prop: Proposal, m: nat): (r: World)
    requires m <= |w.nodes|
    ensures |r.nodes| == |w.nodes|
  {
    if m == 0 then w else Apply(Round(w, prop, m - 1), Deliver(m - 1, prop))
  }

  function Deliveries(prop: Proposal, m: nat): seq<Event> {
    if m == 0 then [] else Deliveries(prop, m - 1) + [Deliver(m - 1, prop)]
  }

  lemma {:induction false} RunConcat(c: Config, w: World, es: seq<Event>, m: World, fs: seq<Event>, w': World)
    requires Run(c, w, es, m) && Run(c, m, fs, w')
    ensures Run(c, w, es + fs, w')
    decreases |es|
  {
    hide Apply, Enabled;
    if es == [] {
      assert es + fs == fs;
    } else {
      assert (es + fs)[1..] == es[1..] + fs;
      EnabledInRange(c, w, es[0]);
      RunConcat(c, Apply(w, es[0]), es[1..], m, fs, w');
    }
  }

  lemma EnabledInRange(c: Config, w: World, e: Event)
    requires Enabled(c, w, e)
    ensures e.node < |w.nodes|
  {
  }

  lemma OneEvent(c: Config, w: World, e: Event)
    requires Enabled(c, w, e)
    ensures Run(c, w, [e], Apply(w, e))
  {
    hide Enabled, Apply;
    EnabledInRange(c, w, e);
    assert Run(c, Apply(w, e), [], Apply(w, e));
    assert [e][1..] == [];
  }

  /** Every node has voted on the block. */
  predicate AllSigned(log: Log, m: nat, h: Hash) { forall i :: 0 <= i < m ==> Signed(log, i, h) }

  ghost predicate AllReady(c: Config, w: World, b: Block, room: nat) {
    forall i :: 0 <= i < |w.nodes| ==> Ready(c, w.nodes[i], b, room)
  }

  lemma SignedLater(a: Log, b: Log, i: nat, h: Hash)
    requires a <= b && Signed(a, i, h)
    ensures Signed(b, i, h)
  {
    var k :| 0 <= k < |a| && a[k].voter == i && a[k].hash == h;
    assert b[k] == a[k];
  }

  lemma {:induction false} RoundNodes(c: Config, w: World, b: Block, room: nat, m: nat)
    requires Structural(c.tree) && InTheTree(c, b) && AllReady(c, w, b, room) && room > 0 && m <= |w.nodes|
    ensures var r := Round(w, PropOf(c, b), m);
      && w.log <= r.log && w.commits <= r.commits && AllSigned(r.log, m, b.hash)
      && forall i :: 0 <= i < |w.nodes| ==> r.nodes[i] == if i < m then OnProposal(w.nodes[i], PropOf(c, b)) else w.nodes[i]
  {
    hide OnProposal, Votes, Commits, Signed, Ready, PropOf;
    if m > 0 {
      var prop := PropOf(c, b);
      RoundNodes(c, w, b, room, m - 1);
      assert Ready(c, w.nodes[m - 1], b, room);
      ReadyVotesProp(c, w.nodes[m - 1], b, room);
      var before, r := Round(w, prop, m - 1), Round(w, prop, m);
      SignedNow(before.log, r.log, m - 1, b.hash);
      forall i | 0 <= i < m - 1 ensures Signed(r.log, i, b.hash) { SignedLater(before.log, r.log, i, b.hash); }
    }
  }

  lemma ReadyVotesProp(c: Config, n: Node, b: Block, room: nat)
    requires Structural(c.tree) && InTheTree(c, b) && Ready(c, n, b, room) && room > 0
    ensures Votes(n, PropOf(c, b)) && PropOf(c, b).block.hash == b.hash
  {
    ReadyVotes(c, n, b, room);
  }

  lemma SignedNow(before: Log, after: Log, i: nat, h: Hash)
    requires |after| == |before| + 1 && after[|before|].voter == i && after[|before|].hash == h
    ensures Signed(after, i, h)
  {
  }

  lemma {:induction false} RoundCommits(w: World, prop: Proposal, m: nat, x: Block)
    requires m <= |w.nodes| && forall i :: 0 <= i < |w.nodes| ==> Commits(w.nodes[i], prop) == Some(x)
    ensures Round(w, prop, m).commits == w.commits + seq(m, _ => x.hash)
    ensures forall i :: m <= i < |w.nodes| ==> Round(w, prop, m).nodes[i] == w.nodes[i]
  {
    hide OnProposal, Votes, Commits;
    if m > 0 {
      RoundCommits(w, prop, m - 1, x);
      assert seq(m, _ => x.hash) == seq(m - 1, _ => x.hash) + [x.hash];
    }
  }

  /** A round is a run. */
  lemma {:induction false} RoundRuns(c: Config, w: World, b: Block, room: nat, m: nat)
    requires ValidConfig(c) && Structural(c.tree) && InTheTree(c, b) && AllReady(c, w, b, room) && room > 0 && m <= |w.nodes|
    requires Genuine(c, w.log, PropOf(c, b).justify)
    ensures Run(c, w, Deliveries(PropOf(c, b), m), Round(w, PropOf(c, b), m))
  {
    hide Run, Apply, Genuine, AllReady, Structural;
    var prop := PropOf(c, b);
    if m == 0 {
      EmptyRun(c, w);
    } else {
      RoundRuns(c, w, b, room, m - 1);
      RoundNodes(c, w, b, room, m - 1);
      var before := Round(w, prop, m - 1);
      GenuineLater(c, w.log, before.log, prop.justify);
      OneEvent(c, before, Deliver(m - 1, prop));
      RunConcat(c, w, Deliveries(prop, m - 1), before, [Deliver(m - 1, prop)], Round(w, prop, m));
    }
  }

  lemma EmptyRun(c: Config, w: World)
    ensures Run(c, w, [], w)
  {
  }

  lemma GenuineLater(c: Config, a: Log, b: Log, qc: Qc)
    requires ValidConfig(c) && Genuine(c, a, qc) && a <= b
    ensures Genuine(c, b, qc)
  {
    CertifiedMonotone(c, a, b, qc.hash);
  }

  lemma {:induction false} WholeWeight(w: seq<nat>, s: set<nat>)
    requires forall i :: 0 <= i < |w| ==> i in s
    ensures Quorum.WeightOf(w, s) == Quorum.Total(w)
  {
    if w == [] {
    } else {
      WholeWeight(w[..|w| - 1], s);
    }
  }

  /** Once every validator has voted for a block, its certificate is genuine. */
  lemma AllSignedIsGenuine(c: Config, log: Log, b: Block, m: nat)
    requires ValidConfig(c) && Quorum.Total(c.weights) > 0 && |c.weights| <= m && AllSigned(log, m, b.hash)
    requires b.hash in c.tree && c.tree[b.hash] == b
    ensures Genuine(c, log, Qc(b.view, b.hash))
  {
    hide Signed, Quorum.IsQuorum;
    WholeWeight(c.weights, Signers(c, log, b.hash));
    Quorum.QuorumIffThreshold(c.weights, Signers(c, log, b.hash));
  }

  /** A round from ready nodes: everyone votes, and everyone is ready for the next block. */
  lemma RoundStep(c: Config, w: World, b: Block, room: nat, next: Block)
    requires ValidConfig(c) && Structural(c.tree) && Quorum.Total(c.weights) > 0 && |c.weights| <= |w.nodes|
    requires InTheTree(c, b) && AllReady(c, w, b, room) && room > 0 && Genuine(c, w.log, PropOf(c, b).justify)
    requires InTheTree(c, next) && next.parent == b.hash
    ensures var r := Round(w, PropOf(c, b), |w.nodes|);
      && AllReady(c, r, next, room - 1) && Genuine(c, r.log, PropOf(c, next).justify)
      && AllSigned(r.log, |w.nodes|, b.hash) && w.log <= r.log && w.commits <= r.commits
  {
    hide Ready, Genuine, OnProposal, Structural, AllSigned;
    var r := Round(w, PropOf(c, b), |w.nodes|);
    RoundNodes(c, w, b, room, |w.nodes|);
    AllSignedIsGenuine(c, r.log, b, |w.nodes|);
    forall i | 0 <= i < |r.nodes| ensures Ready(c, r.nodes[i], next, room - 1) {
      assert Ready(c, w.nodes[i], b, room);
      ReadyStep(c, w.nodes[i], b, room);
    }
  }

  // ---------------------------------------------------------------------------
  // Four proposals

  /** Four blocks on one chain, the first three in consecutive views. */
  predicate Chain(c: Config, bs: seq<Block>) {
    && |bs| == 4 && (forall k :: 0 <= k < 4 ==> InTheTree(c, bs[k]))
    && bs[1].parent == bs[0].hash && bs[2].parent == bs[1].hash && bs[3].parent == bs[2].hash
    && bs[1].view == bs[0].view + 1 && bs[2].view == bs[1].view + 1
  }

  lemma ChainHeights(c: Config, bs: seq<Block>)
    requires Structural(c.tree) && Chain(c, bs)
    ensures bs[1].height == bs[0].height + 1 && bs[2].height == bs[0].height + 2 && bs[3].height == bs[0].height + 3
  {
    assert ValidateStructural(c.tree[bs[1].hash], c.tree[bs[0].hash]).Ok?;
    assert ValidateStructural(c.tree[bs[2].hash], c.tree[bs[1].hash]).Ok?;
    assert ValidateStructural(c.tree[bs[3].hash], c.tree[bs[2].hash]).Ok?;
  }

  ghost function Steps(c: Config, n: Node, bs: seq<Block>): Node {
    if bs == [] then n else OnProposal(Steps(c, n, bs[..|bs| - 1]), PropOf(c, bs[|bs| - 1]))
  }

  lemma StepsOf(c: Config, n: Node, bs: seq<Block>)
    requires |bs| == 4
    ensures var n1 := OnProposal(n, PropOf(c, bs[0]));
      var n2 := OnProposal(n1, PropOf(c, bs[1]));
      Steps(c, n, bs[..3]) == OnProposal(n2, PropOf(c, bs[2])) && Steps(c, n, bs) == OnProposal(Steps(c, n, bs[..3]), PropOf(c, bs[3]))
  {
    hide OnProposal;
    assert bs[..3][..2] == bs[..2] && bs[..2][..1] == bs[..1] && bs[..1][..0] == [];
    assert Steps(c, n, bs[..1]) == OnProposal(Steps(c, n, []), PropOf(c, bs[0]));
    assert Steps(c, n, bs[..2]) == OnProposal(Steps(c, n, bs[..1]), PropOf(c, bs[1]));
  }

  lemma TripleStored(c: Config, n: Node, bs: seq<Block>)
    requires Chain(c, bs) && Ready(c, n, bs[3], 1) && bs[0].hash in n.pending && bs[1].hash in n.pending
    requires bs[0].hash != bs[3].hash && bs[1].hash != bs[3].hash && bs[2].hash != bs[3].hash && Votes(n, PropOf(c, bs[3]))
    ensures Commits(n, PropOf(c, bs[3])) == Some(bs[0])
  {
    hide OnPath, InsertPending, LockOpen;
    RoomOne(n, bs[3]);
    AfterLockParts(n, PropOf(c, bs[3]));
    assert n.pending[bs[2].hash] == bs[2] && n.pending[bs[1].hash] == bs[1] && n.pending[bs[0].hash] == bs[0];
  }

  /** What is left of the cache and the chain lies above the first block. */
  ghost predicate LeftAbove(c: Config, before: Pending, bs: seq<Block>, after: Pending)
    requires |bs| == 4
  {
    forall h :: h in after <==>
      (h in before || exists k :: 0 <= k < 4 && h == bs[k].hash) && h in c.tree && c.tree[h].height > bs[0].height
  }

  lemma NodeInTree(c: Config, n: Node, b: Block, room: nat)
    requires Ready(c, n, b, room)
    ensures InTree(c, n.pending)
  {
  }

  /** At one ready node: the fourth proposal commits the first block and prunes up to its height. */
  lemma FourSteps(c: Config, n: Node, bs: seq<Block>)
    requires Structural(c.tree) && Chain(c, bs) && Ready(c, n, bs[0], 4)
    ensures Steps(c, n, bs).lastVoted == bs[3].view
    ensures Commits(Steps(c, n, bs[..3]), PropOf(c, bs[3])) == Some(bs[0])
    ensures LeftAbove(c, n.pending, bs, Steps(c, n, bs).pending)
  {
    hide Ready, OnProposal, Votes, Commits, Structural, PropOf;
    NodeInTree(c, n, bs[0], 4);
    ChainHeights(c, bs);
    StepsOf(c, n, bs);
    var n1 := OnProposal(n, PropOf(c, bs[0]));
    var n2 := OnProposal(n1, PropOf(c, bs[1]));
    var n3 := OnProposal(n2, PropOf(c, bs[2]));
    ReadyStep(c, n, bs[0], 4);
    ReadyStep(c, n1, bs[1], 3);
    ReadyStep(c, n2, bs[2], 2);
    ReadyStep(c, n3, bs[3], 1);
    TripleStored(c, n3, bs);
  }

  lemma {:induction false} RoundsOf(c: Config, w: World, b: Block, room: nat, i: nat)
    requires Structural(c.tree) && InTheTree(c, b) && AllReady(c, w, b, room) && room > 0 && i < |w.nodes|
    ensures Round(w, PropOf(c, b), |w.nodes|).nodes[i] == OnProposal(w.nodes[i], PropOf(c, b))
  {
    RoundNodes(c, w, b, room, |w.nodes|);
  }

  ghost function Rounds(c: Config, w: World, bs: seq<Block>): (r: World)
    ensures |r.nodes| == |w.nodes|
  {
    if bs == [] then w else Round(Rounds(c, w, bs[..|bs| - 1]), PropOf(c, bs[|bs| - 1]), |w.nodes|)
  }

  function AllDeliveries(c: Config, bs: seq<Block>, m: nat): seq<Event> {
    if bs == [] then [] else AllDeliveries(c, bs[..|bs| - 1], m) + Deliveries(PropOf(c, bs[|bs| - 1]), m)
  }

  /** The state before round `k`, over a prefix of the chain. */
  lemma {:induction false} RoundsRun(c: Config, w: World, bs: seq<Block>, k: nat)
    requires ValidConfig(c) && Structural(c.tree) && Quorum.Total(c.weights) > 0 && |c.weights| <= |w.nodes|
    requires Chain(c, bs) && AllReady(c, w, bs[0], 4) && Genuine(c, w.log, PropOf(c, bs[0]).justify) && k < 4
    ensures var r := Rounds(c, w, bs[..k]);
      && Run(c, w, AllDeliveries(c, bs[..k], |w.nodes|), r)
      && AllReady(c, r, bs[k], 4 - k) && Genuine(c, r.log, PropOf(c, bs[k]).justify)
      && (forall j :: 0 <= j < k ==> AllSigned(r.log, |w.nodes|, bs[j].hash))
      && (forall i :: 0 <= i < |w.nodes| ==> r.nodes[i] == Steps(c, w.nodes[i], bs[..k]))
      && w.commits <= r.commits
  {
    hide Ready, AllReady, Genuine, OnProposal, Structural, Run, AllSigned, PropOf;
    if k == 0 {
      EmptyRun(c, w);
    } else {
      var b := bs[k - 1];
      assert bs[..k][..k - 1] == bs[..k - 1] && bs[k].parent == b.hash;
      RoundsRun(c, w, bs, k - 1);
      var m, r := Rounds(c, w, bs[..k - 1]), Rounds(c, w, bs[..k]);
      RoundStep(c, m, b, 5 - k, bs[k]);
      RoundRuns(c, m, b, 5 - k, |w.nodes|);
      RunConcat(c, w, AllDeliveries(c, bs[..k - 1], |w.nodes|), m, Deliveries(PropOf(c, b), |w.nodes|), r);
      forall j | 0 <= j < k - 1 ensures AllSigned(r.log, |w.nodes|, bs[j].hash) {
        AllSignedLater(m.log, r.log, |w.nodes|, bs[j].hash);
      }
      forall i | 0 <= i < |w.nodes| ensures r.nodes[i] == Steps(c, w.nodes[i], bs[..k]) {
        RoundsOf(c, m, b, 5 - k, i);
      }
    }
  }

  lemma AllSignedLater(a: Log, b: Log, m: nat, h: Hash)
    requires a <= b && AllSigned(a, m, h)
    ensures AllSigned(b, m, h)
  {
    hide Signed;
    forall i | 0 <= i < m ensures Signed(b, i, h) { SignedLater(a, b, i, h); }
  }

  /**
   * Progress. From any state in which every node is ready for the first of four blocks on one chain,
   * the first three in consecutive views, delivering each in turn to all nodes with the certificate
   * of its parent is a run of the protocol: every node votes for all four, every node commits the
   * first, and every cache holds exactly what lies above it.
   */
  lemma FourRoundsCommit(c: Config, w: World, bs: seq<Block>)
    requires ValidConfig(c) && Structural(c.tree) && Quorum.Total(c.weights) > 0 && |c.weights| <= |w.nodes|
    requires Chain(c, bs) && AllReady(c, w, bs[0], 4) && Genuine(c, w.log, PropOf(c, bs[0]).justify)
    ensures var w' := Rounds(c, w, bs);
      && Run(c, w, AllDeliveries(c, bs, |w.nodes|), w')
      && (forall k :: 0 <= k < 4 ==> AllSigned(w'.log, |w.nodes|, bs[k].hash))
      && w'.commits == Rounds(c, w, bs[..3]).commits + seq(|w.nodes|, _ => bs[0].hash)
      && w.commits <= w'.commits
      && forall i :: 0 <= i < |w.nodes| ==>
           w'.nodes[i].lastVoted == bs[3].view && LeftAbove(c, w.nodes[i].pending, bs, w'.nodes[i].pending)
  {
    hide Ready, AllReady, Genuine, OnProposal, Structural, Run, AllSigned, Commits, PropOf, Steps, InTheTree, Round, Rounds, AllDeliveries, LeftAbove;
    var m, w' := Rounds(c, w, bs[..3]), Rounds(c, w, bs);
    RoundsRun(c, w, bs, 3);
    LastRound(c, w, bs, m);
    forall j | 0 <= j < 3 ensures AllSigned(w'.log, |w.nodes|, bs[j].hash) {
      AllSignedLater(m.log, w'.log, |w.nodes|, bs[j].hash);
    }
    forall i | 0 <= i < |w.nodes|
      ensures w'.nodes[i].lastVoted == bs[3].view && LeftAbove(c, w.nodes[i].pending, bs, w'.nodes[i].pending)
    {
      ReadyOf(c, w, bs[0], 4, i);
      FourSteps(c, w.nodes[i], bs);
    }
  }

  lemma ReadyOf(c: Config, w: World, b: Block, room: nat, i: nat)
    requires AllReady(c, w, b, room) && i < |w.nodes|
    ensures Ready(c, w.nodes[i], b, room)
  {
  }

  lemma LastRound(c: Config, w: World, bs: seq<Block>, m: World)
    requires ValidConfig(c) && Structural(c.tree) && Chain(c, bs) && AllReady(c, w, bs[0], 4)
    requires m == Rounds(c, w, bs[..3]) && AllReady(c, m, bs[3], 1) && Genuine(c, m.log, PropOf(c, bs[3]).justify)
    requires Run(c, w, AllDeliveries(c, bs[..3], |w.nodes|), m)
    requires forall i :: 0 <= i < |w.nodes| ==> m.nodes[i] == Steps(c, w.nodes[i], bs[..3])
    ensures var w' := Rounds(c, w, bs);
      && Run(c, w, AllDeliveries(c, bs, |w.nodes|), w')
      && AllSigned(w'.log, |w.nodes|, bs[3].hash) && m.log <= w'.log && m.commits <= w'.commits
      && w'.commits == m.commits + seq(|w.nodes|, _ => bs[0].hash)
      && (forall i :: 0 <= i < |w.nodes| ==> w'.nodes[i] == Steps(c, w.nodes[i], bs))
  {
    hide Ready, AllReady, Genuine, OnProposal, Structural, Run, AllSigned, Commits, PropOf, Round;
    var w' := Rounds(c, w, bs);
    RoundNodes(c, m, bs[3], 1, |w.nodes|);
    RoundRuns(c, m, bs[3], 1, |w.nodes|);
    RunConcat(c, w, AllDeliveries(c, bs[..3], |w.nodes|), m, Deliveries(PropOf(c, bs[3]), |w.nodes|), w');
    forall i | 0 <= i < |w.nodes| ensures Commits(m.nodes[i], PropOf(c, bs[3])) == Some(bs[0]) && w'.nodes[i] == Steps(c, w.nodes[i], bs) {
      ReadyOf(c, w, bs[0], 4, i);
      FourSteps(c, w.nodes[i], bs);
    }
    RoundCommits(m, PropOf(c, bs[3]), |w.nodes|, bs[0]);
  }

  /** The start of a run is such a state, for any chain on genesis. */
  lemma FirstBlockIsReady(c: Config, w: World, b: Block)
    requires ValidConfig(c) && Structural(c.tree) && Init(c, w) && InTheTree(c, b) && b.parent == c.genesis
    requires forall i :: 0 <= i < |w.nodes| ==> w.nodes[i].capacity >= 5
    ensures AllReady(c, w, b, 4) && Genuine(c, w.log, PropOf(c, b).justify)
  {
    assert ValidateStructural(c.tree[b.hash], c.tree[c.genesis]).Ok?;
    forall i | 0 <= i < |w.nodes| ensures Ready(c, w.nodes[i], b, 4) {
      assert InitNode(c, w.nodes[i]);
      assert w.nodes[i].pending.Keys == {c.genesis};
    }
  }
}
