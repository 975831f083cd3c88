/**
 * Runs that show what agreement needs beyond the height guard: a cache that still holds the blocks
 * the lock is computed from, a certificate that is genuine, and a certificate that certifies the
 * parent of its proposal. No vote in them is faulty, but some proposals are: proposers deviate where
 * two blocks share a view or a certificate is not of the parent, and no leader check refuses them.
 */
module IngressLimits {
  import opened Common
  import opened BlockTree
  import opened HotStuff
  import opened Agreement
  import opened LockTracking
  import opened ScriptedRuns
  import AgreementLimits
  import Quorum

  function Cache(c: Config, hs: set<Hash>): Pending { map h | h in hs && h in c.tree :: c.tree[h] }

  lemma SmallTree(p: Pending, n: nat)
    requires forall h :: h in p ==> 1 <= h <= n
    ensures |p| <= n
  {
    AgreementLimits.UpToSize(n);
    CardinalitySubset(p.Keys, AgreementLimits.UpTo(n).Keys);
    assert |p| == |p.Keys| && |AgreementLimits.UpTo(n)| == |AgreementLimits.UpTo(n).Keys|;
  }

  lemma {:induction false} ThreeChainOf(c: Config, a: Hash, b: Hash, d: Hash, p: Proposal)
    requires ScriptConfig(c) && a in c.tree && b in c.tree && d in c.tree
    requires c.tree[d].parent == b && c.tree[b].parent == a
    requires c.tree[b].view == c.tree[a].view + 1 && c.tree[d].view == c.tree[b].view + 1
    requires p.block.hash in c.tree && c.tree[p.block.hash] == p.block && p.block.parent == d
    requires p.block.hash != a && p.block.hash != b && p.block.hash != d && a != b && b != d && a != d
    requires p.justify == Qc(c.tree[d].view, d)
    ensures WouldCommit(c, [a, b, d], p, a)
  {
    TreeKeyed(c, a);
    var t: Pending := c.tree;
    var w: Pending := Watcher(c).pending;
    var hs, h1, h2: seq<Hash> := [a, b, d], [b, d], [d];
    assert hs[1..] == h1 && h1[1..] == h2 && h2[1..] == [];
    var p1 := w[a := t[a]];
    var p2 := p1[b := t[b]];
    var p3 := p2[d := t[d]];
    assert Loaded(c, p2, h2) == Loaded(c, p3, []) == p3;
    assert Loaded(c, p1, h1) == p3;
    assert Loaded(c, w, hs) == p3;
  }

  // ---------------------------------------------------------------------------
  // Two branches of three blocks from genesis, and two blocks on top that carry the commits
  //
  //   views    0     2     3     4     5     6     7     8     9
  //   branch   g --- 2 --- 3 --- 4 --- 5
  //   branch   g --------------------------- 6 --- 7 --- 8 --- 9

  function ForkParent(h: nat): nat { if h == 6 then 1 else if h > 0 then h - 1 else 0 }
  function ForkHeight(h: nat): nat { if h <= 1 then 0 else if h <= 5 then h - 1 else h - 5 }
  function ForkBlock(h: nat): Block { Block(h, ForkParent(h), ForkHeight(h), if h == 1 then 0 else h, 0, [], []) }
  function Fork(): Config { Config(Weights, {}, map h: nat | 1 <= h <= 9 :: ForkBlock(h), 1) }

  lemma ForkIsValid()
    ensures ScriptConfig(Fork()) && Fork().faulty == {} && Structural(Fork().tree)
  {
    SmallTree(Fork().tree, 9);
    Quorum.WeightBounded(Weights, {});
    AgreementLimits.NoWeight(Weights);
  }

  lemma ForkConflicts()
    ensures !OnOneChain(Fork(), 2, 6)
  {
    var t := Fork().tree;
    assert Follow(t, 2, 0) == Some(2) && Follow(t, 2, 1) == Some(1) && Follow(t, 2, 2) == Some(0) && Follow(t, 2, 3).None?;
    NoFurther(t, 2, 6, 2);
    assert Follow(t, 6, 0) == Some(6) && Follow(t, 6, 1) == Some(1) && Follow(t, 6, 2) == Some(0) && Follow(t, 6, 3).None?;
    NoFurther(t, 6, 2, 2);
  }

  function ForkProp(h: Hash): Proposal
    requires 2 <= h <= 9
  {
    Proposal(ForkBlock(h), Qc(ForkBlock(ForkParent(h)).view, ForkParent(h)))
  }

  lemma ForkCommits()
    ensures WouldCommit(Fork(), [2, 3, 4], ForkProp(5), 2) && WouldCommit(Fork(), [6, 7, 8], ForkProp(9), 6)
  {
    hide WouldCommit, ScriptConfig, Structural;
    ForkIsValid();
    ThreeChainOf(Fork(), 2, 3, 4, ForkProp(5));
    ThreeChainOf(Fork(), 6, 7, 8, ForkProp(9));
  }

  /**
   * With certificates nobody signed, conflicting blocks are committed without a single vote: the
   * ingress accepts a certificate without signers.
   */
  lemma AgreementFailsWithoutGenuineCertificates() returns (w: World, es: seq<Event>, w': World)
    ensures ValidConfig(Fork()) && Fork().faulty == {} && Structural(Fork().tree)
    ensures Init(Fork(), w) && RunBehind(Fork(), Ingress(false, true), w, es, w') && w'.commits == [2, 6]
    ensures !OnOneChain(Fork(), 2, 6)
  {
    hide WouldCommit, Structural, RunBehind, OnOneChain, ForkProp;
    ForkIsValid();
    ForkConflicts();
    ForkCommits();
    ForkLinked();
    var s := Script(Fork(), Ingress(false, true), [Fresh(Fork(), U64_MAX)], []);
    w := ScriptWorld(s, 0);
    es, w' := ScriptCommits(s, [2, 3, 4], ForkProp(5), 2, [6, 7, 8], ForkProp(9), 6);
  }

  lemma ForkLinked()
    ensures forall h :: 2 <= h <= 9 ==> ForkProp(h).block.parent == ForkProp(h).justify.hash
  {
  }

  // ---------------------------------------------------------------------------
  // A cache of three blocks

  const SMALL: nat := 3

  function ForkNode(high: Option<Qc>, voted: nat, hs: set<Hash>): Node {
    Node(None, high, voted, Cache(Fork(), hs), 1, SMALL)
  }

  function EvictState(k: nat): Node {
    if k == 0 then ForkNode(None, 0, {1})
    else if k == 1 then ForkNode(Some(Qc(0, 1)), 2, {1, 2})
    else if k == 2 then ForkNode(Some(Qc(2, 2)), 3, {1, 2, 3})
    else if k == 3 then ForkNode(Some(Qc(3, 3)), 4, {1, 2, 4})
    else if k == 4 then ForkNode(Some(Qc(3, 3)), 6, {1, 4, 6})
    else if k == 5 then ForkNode(Some(Qc(6, 6)), 7, {1, 4, 7})
    else ForkNode(Some(Qc(7, 7)), 8, {1, 4, 8})
  }

  function EvictHash(k: nat): (h: Hash)
    ensures k < 6 ==> 2 <= h <= 9
  {
    if k < 3 then k + 2 else k + 3
  }

  /** Storing blocks 4, 7 and 8 evicts the parents they would be locked by; the locks stay empty. */
  function Evictions(): Script {
    Script(Fork(), Ingress(true, true), seq(7, k requires 0 <= k < 7 => EvictState(k)),
           seq(6, k requires 0 <= k < 6 => ForkProp(EvictHash(k))))
  }

  /** Inserting into a full cache of three evicts the given unprotected block. */
  lemma EvictsOne(p: Pending, highQc: Option<Qc>, b: Block, v: Hash)
    requires |p| >= SMALL && b.hash !in p
    requires IsVictim(p, p.Keys - Protected(p, 1, highQc), v)
    ensures InsertPending(p, 1, highQc, SMALL, b) == (p - {v})[b.hash := b]
  {
    var candidates := p.Keys - Protected(p, 1, highQc);
    VictimUnique(p, candidates, Victim(p, candidates), v);
  }

  lemma CacheKeys(hs: set<Hash>)
    requires forall h :: h in hs ==> 1 <= h <= 9
    ensures Cache(Fork(), hs).Keys == hs && |Cache(Fork(), hs)| == |hs|
    ensures forall h :: h in hs ==> Cache(Fork(), hs)[h] == ForkBlock(h)
  {
    var p := Cache(Fork(), hs);
    assert p.Keys == hs;
    assert |p| == |p.Keys|;
  }

  /** A full cache in which `u` and `v` are unprotected and `v` is lower. */
  lemma SwapOut(hs: set<Hash>, u: Hash, v: Hash, highQc: Qc, h: Hash)
    requires (forall x :: x in hs ==> 1 <= x <= 9) && |hs| == 3 && hs == {1, u, v} && 2 <= h <= 9 && h !in hs
    requires ForkHeight(v) < ForkHeight(u) && highQc.hash !in hs
    ensures InsertPending(Cache(Fork(), hs), 1, Some(highQc), SMALL, ForkBlock(h)) == Cache(Fork(), {1, u, h})
  {
    hide InsertPending;
    CacheKeys(hs);
    CacheKeys({1, u, h});
    var p := Cache(Fork(), hs);
    assert Protected(p, 1, Some(highQc)) == {1, highQc.hash};
    EvictsOne(p, Some(highQc), ForkBlock(h), v);
    assert (p - {v})[h := ForkBlock(h)] == Cache(Fork(), {1, u, h});
  }

  lemma EvictInsert(k: nat)
    requires k < 6
    ensures var n := EvictState(k);
      InsertPending(n.pending, 1, n.highQc, SMALL, ForkBlock(EvictHash(k))) == EvictState(k + 1).pending
  {
    hide Cache, InsertPending;
    assert {1} + {2} == {1, 2} && {1, 2} + {3} == {1, 2, 3};
    match k
    case 0 => RoomFor({1}, None, 2);
    case 1 => RoomFor({1, 2}, Some(Qc(0, 1)), 3);
    case 2 => ParentOut();
    case 3 => SwapOut({1, 2, 4}, 4, 2, Qc(3, 3), 6);
    case 4 => SwapOut({1, 4, 6}, 4, 6, Qc(3, 3), 7);
    case 5 => SwapOut({1, 4, 7}, 4, 7, Qc(6, 6), 8);
  }

  lemma RoomFor(hs: set<Hash>, highQc: Option<Qc>, h: Hash)
    requires (forall x :: x in hs ==> 1 <= x <= 9) && |hs| < 3 && 2 <= h <= 9 && h !in hs
    ensures InsertPending(Cache(Fork(), hs), 1, highQc, SMALL, ForkBlock(h)) == Cache(Fork(), hs + {h})
  {
    hide Protected;
    CacheKeys(hs);
    CacheKeys(hs + {h});
    assert Cache(Fork(), hs)[h := ForkBlock(h)] == Cache(Fork(), hs + {h});
  }

  /** With the certificate of block 2 the newest, its child 3 is the one block without protection. */
  lemma ParentOut()
    ensures InsertPending(Cache(Fork(), {1, 2, 3}), 1, Some(Qc(2, 2)), SMALL, ForkBlock(4)) == Cache(Fork(), {1, 2, 4})
  {
    hide InsertPending;
    CacheKeys({1, 2, 3});
    CacheKeys({1, 2, 4});
    var p := Cache(Fork(), {1, 2, 3});
    assert p[2].parent == 1;
    assert ProtectedFrom(p, 1, {1, 2}, 3) == {1, 2};
    assert Protected(p, 1, Some(Qc(2, 2))) == {1, 2};
    EvictsOne(p, Some(Qc(2, 2)), ForkBlock(4), 3);
    assert (p - {3})[4 := ForkBlock(4)] == Cache(Fork(), {1, 2, 4});
  }

  /** The handler of a node without a lock, when nothing is high enough to lock or commit. */
  lemma UnlockedVote(n: Node, prop: Proposal, p: Pending)
    requires n.locked.None? && prop.block.parent in n.pending && prop.block.view > n.lastVoted
    requires InsertPending(n.pending, n.genesis, n.highQc, n.capacity, prop.block) == p
    requires LockCandidate(p, prop.block.parent).Some? ==> LockCandidate(p, prop.block.parent).value.height == 0
    requires ThreeChainCommit(prop.justify, p).None?
    ensures Votes(n, prop) && Commits(n, prop).None?
    ensures OnProposal(n, prop) ==
      n.(pending := p, lastVoted := prop.block.view, highQc := if ShouldUpdateHighQc(n, prop.justify) then Some(prop.justify) else n.highQc)
  {
    hide InsertPending, OnPath, ThreeChainCommit, LockCandidate;
  }

  lemma EvictStep(k: nat)
    requires k < 6
    ensures var n, prop := EvictState(k), ForkProp(EvictHash(k));
      Votes(n, prop) && OnProposal(n, prop) == EvictState(k + 1) && Commits(n, prop).None?
  {
    hide InsertPending, OnProposal, Votes, Commits;
    EvictInsert(k);
    UnlockedVote(EvictState(k), ForkProp(EvictHash(k)), EvictState(k + 1).pending);
  }

  lemma EvictGood(k: nat)
    requires k < 6
    ensures GoodStep(Evictions(), k)
  {
    hide Votes, OnProposal, Commits, EvictState;
    EvictStep(k);
    var s := Evictions();
    var parent := ForkParent(EvictHash(k));
    if parent != 1 {
      EvictStep(k - 1);
      assert s.props[k - 1].block.hash == parent && Votes(s.states[k - 1], s.props[k - 1]);
    }
  }

  lemma EvictionsValid()
    ensures ValidScript(Evictions())
  {
    hide GoodStep, ScriptConfig, Structural, EvictState;
    ForkIsValid();
    EvictStart();
    assert Evictions().states[0] == Fresh(Fork(), SMALL);
    forall k | 0 <= k < 6 ensures GoodStep(Evictions(), k) { EvictGood(k); }
  }

  lemma EvictStart()
    ensures EvictState(0) == Fresh(Fork(), SMALL)
  {
    CacheKeys({1});
    assert EvictState(0).pending == Fresh(Fork(), SMALL).pending;
  }

  lemma EvictionsJustified()
    ensures JustifiedBy(Evictions(), 6, ForkProp(5).justify) && JustifiedBy(Evictions(), 6, ForkProp(9).justify)
  {
    hide Votes, EvictState;
    var s := Evictions();
    EvictStep(2);
    EvictStep(5);
    assert s.props[2].block.hash == 4 && Votes(s.states[2], s.props[2]);
    assert s.props[5].block.hash == 8 && Votes(s.states[5], s.props[5]);
  }

  /** On the complete tree the height guard agrees with the views at every one of these deliveries. */
  lemma EvictGuardAgrees(k: nat)
    requires k < 6
    ensures GuardAgrees(Fork(), EvictState(k), ForkProp(EvictHash(k)))
  {
    hide Votes;
  }

  /**
   * A full cache breaks agreement although the height guard agrees with the views throughout: storing
   * a proposal evicts the block its lock is computed from, the lock stays behind, and two conflicting
   * blocks are committed.
   */
  lemma AgreementFailsOnEviction() returns (w: World, es: seq<Event>, w': World)
    ensures ValidConfig(Fork()) && Fork().faulty == {} && Structural(Fork().tree)
    ensures forall k :: 0 <= k < 6 ==> GuardAgrees(Fork(), EvictState(k), ForkProp(EvictHash(k)))
    ensures Init(Fork(), w) && Run(Fork(), w, es, w') && w'.commits == [2, 6]
    ensures !OnOneChain(Fork(), 2, 6)
  {
    hide ValidScript, WouldCommit, Structural, Run, RunBehind, OnOneChain, JustifiedBy, GuardAgrees, ForkProp, EvictState;
    ForkIsValid();
    EvictionsValid();
    EvictionsJustified();
    ForkConflicts();
    ForkCommits();
    ForkLinked();
    forall k | 0 <= k < 6 ensures GuardAgrees(Fork(), EvictState(k), ForkProp(EvictHash(k))) { EvictGuardAgrees(k); }
    w := ScriptWorld(Evictions(), 0);
    es, w' := ScriptCommits(Evictions(), [2, 3, 4], ForkProp(5), 2, [6, 7, 8], ForkProp(9), 6);
    FullIngressIsRun(Fork(), w, es, w');
  }

  // ---------------------------------------------------------------------------
  // A certificate of another block
  //
  //   views    0     2     3     4     5     7     8     9    10
  //   branch   g --- 2 --- 3 --- 4 --- 5
  //   branch   g --- 6 ----------------------- 7 --- 8 --- 9 --- 10    (7 carries the certificate of 3)

  function SideParent(h: nat): nat { if h == 6 then 1 else if h > 0 then h - 1 else 0 }
  function SideHeight(h: nat): nat { if h <= 1 then 0 else if h <= 5 then h - 1 else h - 5 }
  function SideView(h: nat): nat { if h == 1 then 0 else if h == 6 then 2 else h }
  function SideBlock(h: nat): Block { Block(h, SideParent(h), SideHeight(h), SideView(h), 0, [], []) }
  function Side(): Config { Config(Weights, {}, map h: nat | 1 <= h <= 10 :: SideBlock(h), 1) }

  function SideCertificate(h: nat): nat { if h == 7 then 3 else SideParent(h) }
  function SideProp(h: nat): Proposal { Proposal(SideBlock(h), Qc(SideView(SideCertificate(h)), SideCertificate(h))) }

  lemma SideIsValid()
    ensures ScriptConfig(Side()) && Side().faulty == {} && Structural(Side().tree)
  {
    SmallTree(Side().tree, 10);
    Quorum.WeightBounded(Weights, {});
    AgreementLimits.NoWeight(Weights);
  }

  lemma SideConflicts()
    ensures !OnOneChain(Side(), 2, 7)
  {
    var t := Side().tree;
    assert Follow(t, 2, 0) == Some(2) && Follow(t, 2, 1) == Some(1) && Follow(t, 2, 2) == Some(0) && Follow(t, 2, 3).None?;
    NoFurther(t, 2, 7, 2);
    assert Follow(t, 7, 0) == Some(7) && Follow(t, 7, 1) == Some(6) && Follow(t, 7, 2) == Some(1);
    assert Follow(t, 7, 3) == Some(0) && Follow(t, 7, 4).None?;
    NoFurther(t, 7, 2, 3);
  }

  /** Block 6 arrives second and finds no vote left in its view. */
  function SideHash(k: nat): nat { if k == 0 then 2 else if k == 1 then 6 else if k <= 3 then k + 1 else k + 3 }

  function SideStored(k: nat): Pending {
    map h: nat | 1 <= h <= 9 && SideHolds(k, h) :: SideBlock(h)
  }

  predicate SideHolds(k: nat, h: nat) {
    h == 1 || (h == 2 && k >= 1) || (h == 6 && k >= 2) || (h == 3 && k >= 3) || (h == 4 && k >= 4) || (h >= 7 && h <= k + 2)
  }

  function SideState(k: nat): Node {
    Node(if k < 4 then None else if k < 7 then Some(Locked(2, 1, 2)) else Some(Locked(7, 2, 7)),
         if k == 0 then None else if k <= 2 then Some(Qc(0, 1)) else if k == 3 then Some(Qc(2, 2)) else if k <= 5 then Some(Qc(3, 3))
         else if k == 6 then Some(Qc(7, 7)) else Some(Qc(8, 8)),
         if k == 0 then 0 else if k <= 2 then 2 else if k <= 4 then k else k + 2,
         SideStored(k), 1, U64_MAX)
  }

  function Sidestep(): Script {
    Script(Side(), Ingress(true, false), seq(8, k requires 0 <= k < 8 => SideState(k)), seq(7, k requires 0 <= k < 7 => SideProp(SideHash(k))))
  }

  lemma SideStoredNext(k: nat)
    requires k < 7
    ensures SideStored(k)[SideHash(k) := SideBlock(SideHash(k))] == SideStored(k + 1)
  {
    hide SideBlock;
    var p, q := SideStored(k)[SideHash(k) := SideBlock(SideHash(k))], SideStored(k + 1);
    assert p.Keys == q.Keys;
  }

  lemma SideWithin(k: nat)
    ensures Within(Side(), SideStored(k))
  {
    hide SideBlock, SideHolds;
  }

  lemma SideInsert(k: nat)
    requires k < 7
    ensures var n := SideState(k);
      InsertPending(n.pending, 1, n.highQc, U64_MAX, SideBlock(SideHash(k))) == SideStored(k + 1)
  {
    hide InsertPending, ScriptConfig, Structural, SideStored, Within;
    SideIsValid();
    SideWithin(k);
    InsertUnlimited(Side(), SideStored(k), SideState(k).highQc, SideBlock(SideHash(k)));
    SideStoredNext(k);
  }

  lemma SideStep(k: nat)
    requires k < 7
    ensures var n, prop := SideState(k), SideProp(SideHash(k));
      && (Votes(n, prop) <==> k != 1) && OnProposal(n, prop) == SideState(k + 1) && Commits(n, prop).None?
  {
    hide InsertPending, OnPath;
    SideInsert(k);
  }

  lemma SideGood(k: nat)
    requires k < 7
    ensures GoodStep(Sidestep(), k)
  {
    hide Votes, OnProposal, Commits, SideState;
    SideStep(k);
    var s, cert := Sidestep(), SideCertificate(SideHash(k));
    if cert != 1 {
      var j := if cert == 2 then 0 else if cert <= 4 then cert - 1 else cert - 3;
      SideStep(j);
      assert s.props[j].block.hash == cert && Votes(s.states[j], s.props[j]);
    }
  }

  lemma SidestepValid()
    ensures ValidScript(Sidestep())
  {
    hide GoodStep, ScriptConfig, Structural, SideState;
    SideIsValid();
    SideStart();
    assert Sidestep().states[0] == Fresh(Side(), U64_MAX);
    forall k | 0 <= k < 7 ensures GoodStep(Sidestep(), k) { SideGood(k); }
  }

  lemma SideStart()
    ensures SideState(0) == Fresh(Side(), U64_MAX)
  {
    assert SideStored(0) == map[1 := SideBlock(1)];
  }

  lemma SidestepJustified()
    ensures JustifiedBy(Sidestep(), 7, SideProp(5).justify) && JustifiedBy(Sidestep(), 7, SideProp(10).justify)
  {
    hide Votes, SideState;
    var s := Sidestep();
    SideStep(3);
    SideStep(6);
    assert s.props[3].block.hash == 4 && Votes(s.states[3], s.props[3]);
    assert s.props[6].block.hash == 9 && Votes(s.states[6], s.props[6]);
  }

  lemma SideCommits()
    ensures WouldCommit(Side(), [2, 3, 4], SideProp(5), 2) && WouldCommit(Side(), [7, 8, 9], SideProp(10), 7)
  {
    hide WouldCommit, ScriptConfig, Structural;
    SideIsValid();
    ThreeChainOf(Side(), 2, 3, 4, SideProp(5));
    ThreeChainOf(Side(), 7, 8, 9, SideProp(10));
  }

  /** The locks of the three track the views at every delivery. */
  lemma SideTracks(k: nat)
    requires k < 7
    ensures LocksFollowViews(Side(), SideState(k), SideProp(SideHash(k)))
  {
    hide InsertPending, OnPath;
    SideInsert(k);
  }

  /**
   * Without the check that the certificate certifies the parent, agreement fails although every
   * certificate is genuine and every lock tracks the views: block 7 is voted for because of a newer
   * certificate of block 3, which it does not extend.
   */
  lemma AgreementFailsWithoutParentCheck() returns (w: World, es: seq<Event>, w': World)
    ensures ValidConfig(Side()) && Side().faulty == {} && Structural(Side().tree)
    ensures forall k :: 0 <= k < 7 ==> LocksFollowViews(Side(), SideState(k), SideProp(SideHash(k)))
    ensures Init(Side(), w) && RunBehind(Side(), Ingress(true, false), w, es, w') && w'.commits == [2, 7]
    ensures !OnOneChain(Side(), 2, 7)
  {
    hide ValidScript, WouldCommit, Structural, RunBehind, OnOneChain, JustifiedBy, LocksFollowViews, SideProp, SideState;
    SideIsValid();
    SidestepValid();
    SidestepJustified();
    SideConflicts();
    SideCommits();
    forall k | 0 <= k < 7 ensures LocksFollowViews(Side(), SideState(k), SideProp(SideHash(k))) { SideTracks(k); }
    w := ScriptWorld(Sidestep(), 0);
    es, w' := ScriptCommits(Sidestep(), [2, 3, 4], SideProp(5), 2, [7, 8, 9], SideProp(10), 7);
  }
}
