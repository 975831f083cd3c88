/**
 * Concrete runs of the protocol, to show where agreement ends: four validators of equal weight, three
 * of which receive the same proposals in the same order, a fourth and a follower that end up
 * committing, and no faulty votes. Proposers may deviate from the protocol: the ingress has no check
 * that the sender of a proposal leads its view.
 */
module ScriptedRuns {
  import opened Common
  import opened BlockTree
  import opened HotStuff
  import opened Agreement
  import Quorum

  /** What an ingress checks of a proposal: that its certificate is genuine and certifies the parent. */
  datatype Ingress = Ingress(genuine: bool, linked: bool)

  /** A certificate somebody on record signed to a quorum, or any certificate if that is not checked. */
  predicate Admitted(c: Config, ing: Ingress, log: Log, prop: Proposal) {
    && prop.block.hash in c.tree && c.tree[prop.block.hash] == prop.block
    && (ing.genuine ==> Genuine(c, log, prop.justify))
    && (ing.linked ==> prop.block.parent == prop.justify.hash)
  }

  predicate Reaches(c: Config, ing: Ingress, w: World, e: Event) {
    match e
    case Deliver(i, prop) => i < |w.nodes| && Admitted(c, ing, w.log, prop)
    case Sync(i, b) => i < |w.nodes| && b.hash in c.tree && c.tree[b.hash] == b
    case Learn(i, _) => i < |w.nodes|
  }

  /** A run behind an ingress. */
  ghost predicate RunBehind(c: Config, ing: Ingress, w: World, es: seq<Event>, w': World)
    decreases |es|
  {
    if es == [] then w' == w
    else Reaches(c, ing, w, es[0]) && RunBehind(c, ing, Apply(w, es[0]), es[1..], w')
  }

  /** Behind an ingress that checks both, the runs are exactly those of the protocol. */
  lemma {:induction false} FullIngressIsRun(c: Config, w: World, es: seq<Event>, w': World)
    ensures RunBehind(c, Ingress(true, true), w, es, w') <==> Run(c, w, es, w')
    decreases |es|
  {
    hide Genuine, Votes, Commits, OnProposal, InsertPending;
    if es == [] {
    } else if Enabled(c, w, es[0]) {
      FullIngressIsRun(c, Apply(w, es[0]), es[1..], w');
    }
  }

  lemma {:induction false} RunAppend(c: Config, ing: Ingress, w: World, es: seq<Event>, m: World, fs: seq<Event>, w': World)
    requires RunBehind(c, ing, w, es, m) && RunBehind(c, ing, m, fs, w')
    ensures RunBehind(c, ing, w, es + fs, w')
    decreases |es|
  {
    hide Reaches, Apply;
    if es == [] {
      assert es + fs == fs;
    } else {
      assert (es + fs)[1..] == es[1..] + fs;
      ReachesInRange(c, ing, w, es[0]);
      RunAppend(c, ing, Apply(w, es[0]), es[1..], m, fs, w');
    }
  }

  lemma ReachesInRange(c: Config, ing: Ingress, w: World, e: Event)
    requires Reaches(c, ing, w, e)
    ensures e.node < |w.nodes|
  {
  }

  // ---------------------------------------------------------------------------
  // Quorums of the three

  const Weights: seq<nat> := [1, 1, 1, 1]

  lemma ThreeAreQuorum(s: set<nat>)
    requires 0 in s && 1 in s && 2 in s
    ensures Quorum.IsQuorum(Weights, s)
  {
    assert Weights[..3] == [1, 1, 1] && Weights[..2] == [1, 1] && Weights[..1] == [1];
    assert [1, 1, 1][..2] == [1, 1] && [1, 1][..1] == [1] && [1][..0] == [];
    assert Quorum.Total([1]) == 1 && Quorum.Total([1, 1]) == 2 && Quorum.Total([1, 1, 1]) == 3;
    assert Quorum.WeightOf([1], s) == 1;
    assert Quorum.WeightOf([1, 1], s) == 2;
    assert Quorum.WeightOf([1, 1, 1], s) == 3;
    assert Quorum.Total(Weights) == 4 && Quorum.WeightOf(Weights, s) >= 3;
  }

  /** All three have signed the block. */
  predicate ThreeSigned(log: Log, h: Hash) { Signed(log, 0, h) && Signed(log, 1, h) && Signed(log, 2, h) }

  lemma SignedMonotone(a: Log, b: Log, i: nat, h: Hash)
    requires a <= b && Signed(a, i, h)
    ensures Signed(b, i, h)
  {
    var k :| 0 <= k < |a| && a[k].voter == i && a[k].hash == h;
    assert b[k] == a[k];
  }

  lemma ThreeSignedIsGenuine(c: Config, log: Log, h: Hash)
    requires c.weights == Weights && h in c.tree && (h == c.genesis || ThreeSigned(log, h))
    ensures Genuine(c, log, Qc(c.tree[h].view, h))
  {
    hide Signed, Quorum.IsQuorum;
    if h != c.genesis { ThreeAreQuorum(Signers(c, log, h)); }
  }

  // ---------------------------------------------------------------------------
  // One proposal to the three

  function Record(i: nat, n: Node, prop: Proposal): VoteRecord { VoteRecord(i, prop.block.hash, n.locked, prop.justify) }

  ghost function AfterThree(log: Log, n: Node, prop: Proposal): Log {
    if Votes(n, prop) then log + [Record(0, n, prop)] + [Record(1, n, prop)] + [Record(2, n, prop)] else log
  }

  function Trio(n: Node, a: Node, b: Node): seq<Node> { [n, n, n, a, b] }

  ghost function NextLog(log: Log, i: nat, n: Node, prop: Proposal): Log {
    if Votes(n, prop) then log + [Record(i, n, prop)] else log
  }

  lemma DeliverOne(c: Config, ing: Ingress, w: World, i: nat, prop: Proposal, n': Node)
    requires i < |w.nodes| && Admitted(c, ing, w.log, prop)
    requires OnProposal(w.nodes[i], prop) == n' && Commits(w.nodes[i], prop).None?
    ensures Reaches(c, ing, w, Deliver(i, prop))
    ensures Apply(w, Deliver(i, prop)) == World(w.nodes[i := n'], NextLog(w.log, i, w.nodes[i], prop), w.commits)
  {
    hide OnProposal, Votes, Commits, Admitted;
  }

  lemma AdmittedLater(c: Config, ing: Ingress, log: Log, log': Log, prop: Proposal)
    requires Admitted(c, ing, log, prop) && log <= log' && Quorum.MachineWeights(c.weights)
    ensures Admitted(c, ing, log', prop)
  {
    if ing.genuine { CertifiedMonotone(c, log, log', prop.justify.hash); }
  }

  lemma DeliverThree(c: Config, ing: Ingress, n: Node, a: Node, b: Node, log: Log, prop: Proposal, n': Node)
    requires Quorum.MachineWeights(c.weights) && Admitted(c, ing, log, prop)
    requires OnProposal(n, prop) == n' && Commits(n, prop).None?
    ensures RunBehind(c, ing, World(Trio(n, a, b), log, []), [Deliver(0, prop), Deliver(1, prop), Deliver(2, prop)],
                      World(Trio(n', a, b), AfterThree(log, n, prop), []))
  {
    hide OnProposal, Votes, Commits, Admitted, Apply, Reaches, RunBehind;
    var w0 := World(Trio(n, a, b), log, []);
    DeliverOne(c, ing, w0, 0, prop, n');
    var w1 := Apply(w0, Deliver(0, prop));
    AdmittedLater(c, ing, log, w1.log, prop);
    DeliverOne(c, ing, w1, 1, prop, n');
    var w2 := Apply(w1, Deliver(1, prop));
    AdmittedLater(c, ing, log, w2.log, prop);
    DeliverOne(c, ing, w2, 2, prop, n');
    var w3 := Apply(w2, Deliver(2, prop));
    assert w3 == World(Trio(n', a, b), AfterThree(log, n, prop), []);
    OneEventRun(c, ing, w0, Deliver(0, prop));
    OneEventRun(c, ing, w1, Deliver(1, prop));
    OneEventRun(c, ing, w2, Deliver(2, prop));
    RunAppend(c, ing, w0, [Deliver(0, prop)], w1, [Deliver(1, prop)], w2);
    RunAppend(c, ing, w0, [Deliver(0, prop)] + [Deliver(1, prop)], w2, [Deliver(2, prop)], w3);
    assert [Deliver(0, prop)] + [Deliver(1, prop)] + [Deliver(2, prop)] == [Deliver(0, prop), Deliver(1, prop), Deliver(2, prop)];
  }

  // ---------------------------------------------------------------------------
  // Scripts

  /** The proposals the three receive, and their common state before each and after the last. */
  datatype Script = Script(c: Config, ing: Ingress, states: seq<Node>, props: seq<Proposal>)

  predicate ScriptConfig(c: Config) {
    ValidConfig(c) && c.weights == Weights && |c.tree| < U64_MAX
  }

  /** The proposal's certificate is of genesis or of an earlier block that the three voted for. */
  ghost predicate JustifiedBy(s: Script, k: nat, qc: Qc)
    requires k <= |s.props| && |s.states| == |s.props| + 1
  {
    && qc.hash in s.c.tree && qc.view == s.c.tree[qc.hash].view
    && (qc.hash == s.c.genesis || exists j :: 0 <= j < k && s.props[j].block.hash == qc.hash && Votes(s.states[j], s.props[j]))
  }

  ghost predicate GoodStep(s: Script, k: nat)
    requires k < |s.props| && |s.states| == |s.props| + 1
  {
    var prop := s.props[k];
    && prop.block.hash in s.c.tree && s.c.tree[prop.block.hash] == prop.block
    && JustifiedBy(s, k, prop.justify) && (s.ing.linked ==> prop.block.parent == prop.justify.hash)
    && OnProposal(s.states[k], prop) == s.states[k + 1] && Commits(s.states[k], prop).None?
  }

  function Fresh(c: Config, capacity: nat): Node
    requires c.genesis in c.tree
  {
    Node(None, None, 0, map[c.genesis := c.tree[c.genesis]], c.genesis, capacity)
  }

  ghost predicate ValidScript(s: Script) {
    && ScriptConfig(s.c) && |s.states| == |s.props| + 1
    && (exists capacity: nat :: s.states[0] == Fresh(s.c, capacity))
    && forall k :: 0 <= k < |s.props| ==> GoodStep(s, k)
  }

  function Watcher(c: Config): Node
    requires c.genesis in c.tree
  {
    Fresh(c, U64_MAX)
  }

  ghost function ScriptLog(s: Script, k: nat): Log
    requires k <= |s.props| && |s.states| == |s.props| + 1
  {
    if k == 0 then [] else AfterThree(ScriptLog(s, k - 1), s.states[k - 1], s.props[k - 1])
  }

  function ScriptEvents(s: Script, k: nat): seq<Event>
    requires k <= |s.props|
  {
    if k == 0 then []
    else ScriptEvents(s, k - 1) + [Deliver(0, s.props[k - 1]), Deliver(1, s.props[k - 1]), Deliver(2, s.props[k - 1])]
  }

  ghost function ScriptWorld(s: Script, k: nat): World
    requires ScriptConfig(s.c) && k <= |s.props| && |s.states| == |s.props| + 1
  {
    World(Trio(s.states[k], Watcher(s.c), Watcher(s.c)), ScriptLog(s, k), [])
  }

  lemma {:induction false} VotedIsSigned(s: Script, k: nat, j: nat)
    requires |s.states| == |s.props| + 1 && j < k <= |s.props| && Votes(s.states[j], s.props[j])
    ensures ThreeSigned(ScriptLog(s, k), s.props[j].block.hash)
  {
    hide Votes;
    var before := ScriptLog(s, k - 1);
    var log := ScriptLog(s, k);
    if j == k - 1 {
      var n := |before|;
      assert log[n].voter == 0 && log[n + 1].voter == 1 && log[n + 2].voter == 2;
      assert log[n].hash == log[n + 1].hash == log[n + 2].hash == s.props[j].block.hash;
    } else {
      VotedIsSigned(s, k - 1, j);
      forall i | i == 0 || i == 1 || i == 2 ensures Signed(log, i, s.props[j].block.hash) {
        SignedMonotone(before, log, i, s.props[j].block.hash);
      }
    }
  }

  lemma JustifiedIsGenuine(s: Script, k: nat, qc: Qc)
    requires ScriptConfig(s.c) && |s.states| == |s.props| + 1 && k <= |s.props| && JustifiedBy(s, k, qc)
    ensures Genuine(s.c, ScriptLog(s, k), qc)
  {
    hide ScriptLog, Genuine, ThreeSigned, Votes;
    if qc.hash != s.c.genesis {
      var j :| 0 <= j < k && s.props[j].block.hash == qc.hash && Votes(s.states[j], s.props[j]);
      VotedIsSigned(s, k, j);
    }
    ThreeSignedIsGenuine(s.c, ScriptLog(s, k), qc.hash);
  }

  lemma {:induction false} ScriptRuns(s: Script, k: nat)
    requires ValidScript(s) && k <= |s.props|
    ensures RunBehind(s.c, s.ing, ScriptWorld(s, 0), ScriptEvents(s, k), ScriptWorld(s, k))
  {
    hide RunBehind, OnProposal, Votes, Commits, Genuine, JustifiedBy, Quorum.MachineWeights, AfterThree;
    if k == 0 {
      EmptyRun(s.c, s.ing, ScriptWorld(s, 0));
    } else {
      ScriptRuns(s, k - 1);
      assert GoodStep(s, k - 1);
      JustifiedIsGenuine(s, k - 1, s.props[k - 1].justify);
      var w := Watcher(s.c);
      DeliverThree(s.c, s.ing, s.states[k - 1], w, w, ScriptLog(s, k - 1), s.props[k - 1], s.states[k]);
      var last := [Deliver(0, s.props[k - 1]), Deliver(1, s.props[k - 1]), Deliver(2, s.props[k - 1])];
      RunAppend(s.c, s.ing, ScriptWorld(s, 0), ScriptEvents(s, k - 1), ScriptWorld(s, k - 1), last, ScriptWorld(s, k));
    }
  }

  lemma EmptyRun(c: Config, ing: Ingress, w: World)
    ensures RunBehind(c, ing, w, [], w)
  {
  }

  lemma ScriptStarts(s: Script)
    requires ValidScript(s)
    ensures Init(s.c, ScriptWorld(s, 0))
  {
  }

  // ---------------------------------------------------------------------------
  // The two that commit

  predicate Within(c: Config, p: Pending) { forall h :: h in p ==> h in c.tree && c.tree[h] == p[h] }

  function Loaded(c: Config, p: Pending, hs: seq<Hash>): Pending
    requires forall k :: 0 <= k < |hs| ==> hs[k] in c.tree
    decreases |hs|
  {
    if hs == [] then p else Loaded(c, p[hs[0] := c.tree[hs[0]]], hs[1..])
  }

  function Syncs(c: Config, i: nat, hs: seq<Hash>): seq<Event>
    requires forall k :: 0 <= k < |hs| ==> hs[k] in c.tree
  {
    if hs == [] then [] else [Sync(i, c.tree[hs[0]])] + Syncs(c, i, hs[1..])
  }

  /** An unlimited cache takes a block without evicting. */
  lemma InsertUnlimited(c: Config, p: Pending, highQc: Option<Qc>, b: Block)
    requires ScriptConfig(c) && Within(c, p)
    ensures InsertPending(p, c.genesis, highQc, U64_MAX, b) == p[b.hash := b]
  {
    hide Protected, ValidConfig;
    CardinalitySubset(p.Keys, c.tree.Keys);
    assert |p| == |p.Keys| && |c.tree| == |c.tree.Keys|;
  }

  lemma {:induction false} SyncsRun(c: Config, ing: Ingress, w: World, i: nat, hs: seq<Hash>)
    requires ScriptConfig(c) && i < |w.nodes| && Within(c, w.nodes[i].pending)
    requires w.nodes[i].genesis == c.genesis && w.nodes[i].capacity == U64_MAX
    requires forall k :: 0 <= k < |hs| ==> hs[k] in c.tree
    ensures RunBehind(c, ing, w, Syncs(c, i, hs), w.(nodes := w.nodes[i := w.nodes[i].(pending := Loaded(c, w.nodes[i].pending, hs))]))
    ensures Within(c, Loaded(c, w.nodes[i].pending, hs))
    decreases |hs|
  {
    hide ValidConfig, InsertPending;
    var n := w.nodes[i];
    if hs == [] {
      assert w.nodes[i := n.(pending := n.pending)] == w.nodes;
    } else {
      var b := c.tree[hs[0]];
      assert b.hash == hs[0] by { TreeKeyed(c, hs[0]); }
      InsertUnlimited(c, n.pending, n.highQc, b);
      var m := Apply(w, Sync(i, b));
      assert m == w.(nodes := w.nodes[i := n.(pending := n.pending[hs[0] := b])]);
      SyncsRun(c, ing, m, i, hs[1..]);
      var es := Syncs(c, i, hs);
      assert es[0] == Sync(i, b) && es[1..] == Syncs(c, i, hs[1..]);
      assert m.nodes[i := m.nodes[i].(pending := Loaded(c, m.nodes[i].pending, hs[1..]))]
          == w.nodes[i := n.(pending := Loaded(c, n.pending, hs))];
    }
  }

  lemma TreeKeyed(c: Config, h: Hash)
    requires ScriptConfig(c)
    ensures c.genesis in c.tree
    ensures h in c.tree ==> c.tree[h].hash == h
  {
  }

  /** A watcher that has synchronised some blocks is handed a proposal whose certificate commits one. */
  predicate WouldCommit(c: Config, hs: seq<Hash>, prop: Proposal, x: Hash)
    requires c.genesis in c.tree
  {
    && (forall k :: 0 <= k < |hs| ==> hs[k] in c.tree)
    && var p := Loaded(c, Watcher(c).pending, hs);
    && prop.block.hash in c.tree && c.tree[prop.block.hash] == prop.block && prop.block.parent in p
    && var commit := ThreeChainCommit(prop.justify, p[prop.block.hash := prop.block]);
    && commit.Some? && commit.value.hash == x
  }

  /** It then commits that block. */
  lemma WatcherCommits(c: Config, ing: Ingress, w: World, i: nat, hs: seq<Hash>, prop: Proposal, x: Hash) returns (es: seq<Event>, w': World)
    requires ScriptConfig(c) && i < |w.nodes| && w.nodes[i] == Watcher(c) && WouldCommit(c, hs, prop, x)
    requires Admitted(c, ing, w.log, prop)
    ensures RunBehind(c, ing, w, es, w') && w'.commits == w.commits + [x] && w.log <= w'.log
    ensures |w'.nodes| == |w.nodes| && forall j :: 0 <= j < |w.nodes| && j != i ==> w'.nodes[j] == w.nodes[j]
  {
    hide ValidConfig, RunBehind, InsertPending, ThreeChainCommit, Admitted, Votes, Syncs, Loaded, SafeToVote;
    TreeKeyed(c, c.genesis);
    SyncsRun(c, ing, w, i, hs);
    var p := Loaded(c, Watcher(c).pending, hs);
    var m := w.(nodes := w.nodes[i := w.nodes[i].(pending := p)]);
    var n := m.nodes[i];
    InsertUnlimited(c, p, n.highQc, prop.block);
    var e := Deliver(i, prop);
    w' := Apply(m, e);
    assert Commits(n, prop).Some? && Commits(n, prop).value.hash == x;
    OneEventRun(c, ing, m, e);
    es := Syncs(c, i, hs) + [e];
    RunAppend(c, ing, w, Syncs(c, i, hs), m, [e], w');
  }

  lemma OneEventRun(c: Config, ing: Ingress, w: World, e: Event)
    requires Reaches(c, ing, w, e)
    ensures RunBehind(c, ing, w, [e], Apply(w, e))
  {
    hide Apply, Reaches;
    ReachesInRange(c, ing, w, e);
    assert [e][1..] == [];
    EmptyRun(c, ing, Apply(w, e));
  }

  /** The whole run: the three play the script, then the fourth validator and the follower commit. */
  lemma ScriptCommits(s: Script, hs: seq<Hash>, p: Proposal, x: Hash, fs: seq<Hash>, q: Proposal, y: Hash) returns (es: seq<Event>, w': World)
    requires ValidScript(s) && WouldCommit(s.c, hs, p, x) && WouldCommit(s.c, fs, q, y)
    requires s.ing.genuine ==> JustifiedBy(s, |s.props|, p.justify) && JustifiedBy(s, |s.props|, q.justify)
    requires s.ing.linked ==> p.block.parent == p.justify.hash && q.block.parent == q.justify.hash
    ensures Init(s.c, ScriptWorld(s, 0)) && RunBehind(s.c, s.ing, ScriptWorld(s, 0), es, w')
    ensures w'.commits == [x, y]
  {
    hide GoodStep, RunBehind, Init, JustifiedBy, Genuine, Loaded, ThreeChainCommit, ValidConfig, ScriptLog, ScriptEvents;
    var n := |s.props|;
    ScriptStarts(s);
    ScriptRuns(s, n);
    var w0, w1 := ScriptWorld(s, 0), ScriptWorld(s, n);
    if s.ing.genuine {
      JustifiedIsGenuine(s, n, p.justify);
      JustifiedIsGenuine(s, n, q.justify);
    }
    var fs1, w2 := WatcherCommits(s.c, s.ing, w1, 3, hs, p, x);
    AdmittedLater(s.c, s.ing, w1.log, w2.log, q) by { WeightsFit(s.c); }
    var fs2, w3 := WatcherCommits(s.c, s.ing, w2, 4, fs, q, y);
    RunAppend(s.c, s.ing, w0, ScriptEvents(s, n), w1, fs1, w2);
    RunAppend(s.c, s.ing, w0, ScriptEvents(s, n) + fs1, w2, fs2, w3);
    es, w' := ScriptEvents(s, n) + fs1 + fs2, w3;
  }

  lemma WeightsFit(c: Config)
    requires ScriptConfig(c)
    ensures Quorum.MachineWeights(c.weights)
  {
  }
}
