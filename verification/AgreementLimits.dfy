/**
 * A run that shows the lock condition of `Agreement` is needed: four validators of equal weight, no
 * faulty vote, every block structurally valid, unlimited caches, and yet two nodes commit two
 * conflicting blocks. A deviating proposer is needed, which no leader check in the ingress refuses:
 * block 10 extends block 5 although newer blocks are certified.
 *
 * The lock of three validators sits at height 2 on one branch while a second branch, certified in
 * newer views, grows through the same heights; the height guard keeps the old lock, and after the
 * second branch has certified a three-chain the validators go back to the first. Blocks 13 and 14
 * carry the two commits.
 *
 *   views    0     2     3     4     5     6     7     8     9    10    11    12
 *   branch   g --- 2 --- 3 --------- 5 --- 6    (2, 3, 5, 6 and then 10, 11, 12, 14 on top of 5)
 *   branch   g --------------- 4 --------------- 7 --- 8 --- 9    (and then 13)
 */
module AgreementLimits {
  import opened Common
  import opened BlockTree
  import opened HotStuff
  import opened Agreement
  import opened ScriptedRuns
  import Quorum

  const LAST: nat := 12

  function Par(h: nat): nat {
    if h == 1 then 0 else if h == 2 || h == 4 then 1 else if h == 3 then 2 else if h == 5 then 3
    else if h == 6 || h == 10 then 5 else if h == 7 then 4 else if h == 13 then 9 else if h == 14 then 12 else if h > 0 then h - 1 else 0
  }

  function Hgt(h: nat): nat {
    if h <= 1 then 0 else if h == 2 || h == 4 then 1 else if h == 3 || h == 7 then 2
    else if h == 5 || h == 8 then 3 else if h == 11 || h == 13 then 5 else if h == 12 then 6 else if h == 14 then 7 else 4
  }

  /** Digest, and for all blocks but genesis also the view, number the blocks. */
  function Blk(h: nat): Block { Block(h, Par(h), Hgt(h), ViewAt(h), 0, [], []) }
  function ViewAt(h: nat): nat { if h == 1 then 0 else h }

  function UpTo(m: nat): Pending { map h: nat | 1 <= h <= m :: Blk(h) }
  function Justify(h: nat): Qc { Qc(ViewAt(Par(h)), Par(h)) }

  function LockAt(m: nat): Option<Locked> {
    if m < 5 then None
    else if m == 5 then Some(Locked(2, 1, 2))
    else if m < 11 then Some(Locked(3, 2, 3))
    else if m == 11 then Some(Locked(5, 3, 5))
    else Some(Locked(10, 4, 10))
  }

  function HighAt(m: nat): Option<Qc> {
    if m <= 1 then None
    else if m == 2 then Some(Qc(0, 1))
    else if m <= 4 then Some(Qc(2, 2))
    else if m == 5 then Some(Qc(3, 3))
    else if m <= 7 then Some(Qc(5, 5))
    else if m == 8 then Some(Qc(7, 7))
    else if m <= 10 then Some(Qc(8, 8))
    else if m == 11 then Some(Qc(10, 10))
    else Some(Qc(11, 11))
  }

  const Example: Config := Config(Weights, {}, UpTo(14), 1)

  function NodeAt(m: nat): Node {
    Node(LockAt(m), HighAt(m), if m <= 1 then 0 else m, UpTo(m), 1, U64_MAX)
  }

  function PropOf(h: nat): Proposal { Proposal(Blk(h), Justify(h)) }

  /** The three are handed blocks 2 to 12 in the order of their views. */
  function Heights(): Script {
    Script(Example, Ingress(true, true), seq(LAST, k requires 0 <= k < LAST => NodeAt(k + 1)),
           seq(LAST - 1, k requires 0 <= k < LAST - 1 => PropOf(k + 2)))
  }

  lemma {:induction false} UpToSize(m: nat)
    ensures |UpTo(m)| == m
  {
    if m == 0 {
      assert UpTo(0).Keys == {};
    } else {
      UpToSize(m - 1);
      assert UpTo(m).Keys == UpTo(m - 1).Keys + {m};
      assert m !in UpTo(m - 1).Keys;
    }
  }

  lemma InsertNext(m: nat, highQc: Option<Qc>)
    requires 1 <= m < LAST
    ensures InsertPending(UpTo(m), 1, highQc, U64_MAX, Blk(m + 1)) == UpTo(m + 1)
  {
    UpToSize(m);
    assert UpTo(m)[m + 1 := Blk(m + 1)] == UpTo(m + 1);
  }

  lemma NextLock(m: nat)
    requires 1 <= m < LAST
    ensures UpdateLock(LockAt(m), LockCandidate(UpTo(m + 1), Blk(m + 1).parent)) == LockAt(m + 1)
  {
  }

  lemma NextCommit(m: nat)
    requires 1 <= m < LAST
    ensures ThreeChainCommit(Justify(m + 1), UpTo(m + 1)).None?
  {
  }

  /** The handler, given block `m + 1`, votes, takes the tabulated lock, and commits nothing. */
  lemma HandlerStep(m: nat)
    requires 1 <= m < LAST
    ensures Votes(NodeAt(m), PropOf(m + 1))
    ensures OnProposal(NodeAt(m), PropOf(m + 1)) == NodeAt(m + 1)
    ensures Commits(NodeAt(m), PropOf(m + 1)).None?
  {
    hide InsertPending, LockCandidate, UpdateLock, ThreeChainCommit;
    var n, prop := NodeAt(m), PropOf(m + 1);
    InsertNext(m, n.highQc);
    assert prop.block.parent in n.pending;
    assert Votes(n, prop);
    var n2 := AfterVote(n, prop);
    assert n2 == NodeAt(m + 1).(locked := LockAt(m));
    NextLock(m);
    NextCommit(m);
  }

  lemma StepGood(k: nat)
    requires k < LAST - 1
    ensures GoodStep(Heights(), k)
  {
    hide Votes, OnProposal, Commits, NodeAt;
    var s := Heights();
    HandlerStep(k + 1);
    var parent := Par(k + 2);
    if parent != 1 {
      HandlerStep(parent - 1);
      assert s.props[parent - 2].block.hash == parent && Votes(s.states[parent - 2], s.props[parent - 2]);
    }
    assert JustifiedBy(s, k, s.props[k].justify);
  }

  lemma {:induction false} NoWeight(w: seq<nat>)
    ensures Quorum.WeightOf(w, {}) == 0
  {
    if w == [] {
    } else {
      NoWeight(w[..|w| - 1]);
    }
  }

  lemma ExampleIsValid()
    ensures ScriptConfig(Example) && Example.faulty == {} && Structural(Example.tree)
  {
    UpToSize(14);
    Quorum.WeightBounded(Example.weights, {});
    NoWeight(Example.weights);
  }

  lemma HeightsStart()
    ensures NodeAt(1) == Fresh(Example, U64_MAX)
  {
    assert UpTo(1) == map[1 := Blk(1)];
  }

  lemma HeightsIsValid()
    ensures ValidScript(Heights())
  {
    hide GoodStep, ScriptConfig, Structural, NodeAt;
    ExampleIsValid();
    HeightsStart();
    assert Heights().states[0] == Fresh(Example, U64_MAX);
    forall k | 0 <= k < LAST - 1 ensures GoodStep(Heights(), k) { StepGood(k); }
  }

  lemma Conflicting()
    ensures !OnOneChain(Example, 7, 10)
  {
    var t := Example.tree;
    assert Follow(t, 7, 0) == Some(7) && Follow(t, 7, 1) == Some(4);
    assert Follow(t, 7, 2) == Some(1) && Follow(t, 7, 3) == Some(0) && Follow(t, 7, 4).None?;
    NoFurther(t, 7, 10, 3);
    assert Follow(t, 10, 0) == Some(10) && Follow(t, 10, 1) == Some(5) && Follow(t, 10, 2) == Some(3);
    assert Follow(t, 10, 3) == Some(2) && Follow(t, 10, 4) == Some(1) && Follow(t, 10, 5) == Some(0);
    assert Follow(t, 10, 6).None?;
    NoFurther(t, 10, 7, 5);
  }

  lemma SevenWouldCommit()
    ensures WouldCommit(Example, [4, 7, 8, 9], PropOf(13), 7)
  {
    var t, p := Example.tree, Watcher(Example).pending;
    assert [4, 7, 8, 9][1..] == [7, 8, 9] && [7, 8, 9][1..] == [8, 9] && [8, 9][1..] == [9] && [9][1..] == [];
    assert Loaded(Example, p, [4, 7, 8, 9]) == p[4 := t[4]][7 := t[7]][8 := t[8]][9 := t[9]];
  }

  lemma TenWouldCommit()
    ensures WouldCommit(Example, [5, 10, 11, 12], PropOf(14), 10)
  {
    var t, p := Example.tree, Watcher(Example).pending;
    assert [5, 10, 11, 12][1..] == [10, 11, 12] && [10, 11, 12][1..] == [11, 12] && [11, 12][1..] == [12] && [12][1..] == [];
    assert Loaded(Example, p, [5, 10, 11, 12]) == p[5 := t[5]][10 := t[10]][11 := t[11]][12 := t[12]];
  }

  lemma BothJustified()
    ensures JustifiedBy(Heights(), LAST - 1, Justify(13)) && JustifiedBy(Heights(), LAST - 1, Justify(14))
  {
    hide Votes, NodeAt;
    var s := Heights();
    HandlerStep(8);
    HandlerStep(11);
    assert s.props[7].block.hash == 9 && Votes(s.states[7], s.props[7]);
    assert s.props[10].block.hash == 12 && Votes(s.states[10], s.props[10]);
  }

  /**
   * Agreement fails on some run without the lock condition: two nodes commit the conflicting blocks 7
   * and 10 for genuine certificates. No voter is faulty.
   */
  lemma AgreementFailsWithoutLockCondition() returns (w: World, es: seq<Event>, w': World)
    ensures ValidConfig(Example) && Example.faulty == {} && Structural(Example.tree)
    ensures Init(Example, w) && Run(Example, w, es, w') && w'.commits == [7, 10]
    ensures !OnOneChain(Example, 7, 10)
    ensures !RunCovered(Example, w, es)
  {
    hide ValidScript, WouldCommit, Structural, Run, RunCovered, OnOneChain, RunBehind, JustifiedBy;
    ExampleIsValid();
    HeightsIsValid();
    SevenWouldCommit();
    TenWouldCommit();
    BothJustified();
    w := ScriptWorld(Heights(), 0);
    es, w' := ScriptCommits(Heights(), [4, 7, 8, 9], PropOf(13), 7, [5, 10, 11, 12], PropOf(14), 10);
    FullIngressIsRun(Example, w, es, w');
    Conflicting();
    NotCovered(w, es, w');
  }

  lemma CommitsAgree(w: World, es: seq<Event>, w': World)
    requires ValidConfig(Example) && Init(Example, w) && Run(Example, w, es, w') && w'.commits == [7, 10]
    requires RunCovered(Example, w, es)
    ensures OnOneChain(Example, 7, 10)
  {
    hide *;
    AgreementOverRuns(Example, w, es, w');
    assert Committable(Example, w'.log, w'.commits[0]) && Committable(Example, w'.log, w'.commits[1]);
  }

  /** Conflicting commits cannot come from a run that meets the lock condition. */
  lemma NotCovered(w: World, es: seq<Event>, w': World)
    requires ValidConfig(Example) && Init(Example, w) && Run(Example, w, es, w') && w'.commits == [7, 10]
    requires !OnOneChain(Example, 7, 10)
    ensures !RunCovered(Example, w, es)
  {
    hide *;
    if RunCovered(Example, w, es) {
      CommitsAgree(w, es, w');
    }
  }
}
