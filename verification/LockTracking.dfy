/**
 * When the lock of a node covers its votes, delivery by delivery: the exact condition on the height
 * guard and the cache, what pruning does to it, and agreement from it.
 */
module LockTracking {
  import opened Common
  import opened BlockTree
  import opened HotStuff
  import opened Agreement
  import Quorum

  /** The stored candidate is higher than the lock, so the handler moves the lock to it. */
  ghost predicate Moves(n: Node, prop: Proposal) {
    var cand := LockCandidate(AfterVote(n, prop).pending, prop.block.parent);
    cand.Some? && cand.value.height > LockHeight(n.locked)
  }

  /** A lock that moves does not go back in view, and a vote finds its grandparent covered. */
  ghost predicate LocksFollowViews(c: Config, n: Node, prop: Proposal) {
    prop.block.parent in n.pending ==>
      && (Moves(n, prop) ==>
            LockCandidate(AfterVote(n, prop).pending, prop.block.parent).value.view >= LockView(n.locked))
      && (Votes(n, prop) ==> GrandparentView(c, prop.block.hash) <= LockView(n.locked) || Moves(n, prop))
  }

  /** What reaches the handler, for a node that follows the invariant of runs. */
  ghost predicate Delivered(c: Config, log: Log, i: nat, n: Node, prop: Proposal) {
    && ValidConfig(c) && LogOk(c, log) && NodeOk(c, log, i, n)
    && Genuine(c, log, prop.justify) && prop.block.parent == prop.justify.hash
    && prop.block.hash in c.tree && c.tree[prop.block.hash] == prop.block
  }

  lemma MovedView(c: Config, log: Log, i: nat, n: Node, prop: Proposal)
    requires Delivered(c, log, i, n, prop) && prop.block.parent in n.pending && Moves(n, prop)
    ensures LockCandidate(AfterVote(n, prop).pending, prop.block.parent).value.view == GrandparentView(c, prop.block.hash)
  {
    InsertStaysInTree(c, n, prop.block);
    CandidateCertified(c, log, AfterVote(n, prop).pending, prop);
  }

  /**
   * For one delivery: the lock does not go back in view and covers the vote cast, if and only if the
   * condition holds of the lock and the stored candidate before the update.
   */
  lemma LocksFollowViewsIff(c: Config, log: Log, i: nat, n: Node, prop: Proposal)
    requires Delivered(c, log, i, n, prop)
    ensures LocksFollowViews(c, n, prop) <==>
      && LockView(n.locked) <= LockView(OnProposal(n, prop).locked)
      && (Votes(n, prop) ==> GrandparentView(c, prop.block.hash) <= LockView(OnProposal(n, prop).locked))
  {
    hide InsertPending, OnPath, ThreeChainCommit, LogOk, NodeOk;
    if prop.block.parent in n.pending && Moves(n, prop) { MovedView(c, log, i, n, prop); }
  }

  lemma DeliverKeepsCover(c: Config, log: Log, i: nat, n: Node, prop: Proposal, log': Log)
    requires Delivered(c, log, i, n, prop) && LocksFollowViews(c, n, prop) && LockCovers(c, log, i, n)
    requires log' == if Votes(n, prop) then log + [VoteRecord(i, prop.block.hash, n.locked, prop.justify)] else log
    ensures LockCovers(c, log', i, OnProposal(n, prop))
  {
    hide Votes, OnProposal, LocksFollowViews, Delivered, GrandparentView;
    LocksFollowViewsIff(c, log, i, n, prop);
  }

  // ---------------------------------------------------------------------------
  // Runs

  ghost predicate TracksViews(c: Config, w: World, e: Event)
    requires e.node < |w.nodes|
  {
    e.Deliver? ==> LocksFollowViews(c, w.nodes[e.node], e.prop)
  }

  /** The condition held at every delivery of the run. */
  ghost predicate RunTracksViews(c: Config, w: World, es: seq<Event>)
    decreases |es|
  {
    es != [] ==> Enabled(c, w, es[0]) && TracksViews(c, w, es[0]) && RunTracksViews(c, Apply(w, es[0]), es[1..])
  }

  ghost predicate AllCovered(c: Config, w: World) {
    forall i :: 0 <= i < |w.nodes| ==> LockCovers(c, w.log, i, w.nodes[i])
  }

  lemma StepKeepsCover(c: Config, w: World, e: Event)
    requires ValidConfig(c) && WorldOk(c, w) && AllCovered(c, w) && Enabled(c, w, e) && TracksViews(c, w, e)
    ensures VoteCovered(c, w, e) && AllCovered(c, Apply(w, e))
  {
    hide Votes, OnProposal, LocksFollowViews, Commits, Genuine, LogOk, NodeOk, LockCovers, InsertPending;
    var w', n := Apply(w, e), w.nodes[e.node];
    assert LockCovers(c, w.log, e.node, n) && NodeOk(c, w.log, e.node, n);
    if e.Deliver? {
      DeliverKeepsCover(c, w.log, e.node, n, e.prop, w'.log);
    } else {
      SameLockSameCover(c, w.log, e.node, n, w'.nodes[e.node]);
    }
    forall i | 0 <= i < |w'.nodes| ensures LockCovers(c, w'.log, i, w'.nodes[i]) {
      if i != e.node { OthersCovered(c, w.log, w'.log, e.node, i, w.nodes[i]); }
    }
  }

  lemma SameLockSameCover(c: Config, log: Log, i: nat, n: Node, n': Node)
    requires LockCovers(c, log, i, n) && n'.locked == n.locked
    ensures LockCovers(c, log, i, n')
  {
  }

  lemma OthersCovered(c: Config, log: Log, log': Log, voter: nat, i: nat, n: Node)
    requires LockCovers(c, log, i, n) && log <= log' && i != voter
    requires forall j :: |log| <= j < |log'| ==> log'[j].voter == voter
    ensures LockCovers(c, log', i, n)
  {
  }

  lemma {:induction false} TrackedRunIsCovered(c: Config, w: World, es: seq<Event>, w': World)
    requires ValidConfig(c) && WorldOk(c, w) && AllCovered(c, w) && Run(c, w, es, w') && RunTracksViews(c, w, es)
    ensures RunCovered(c, w, es)
    decreases |es|
  {
    hide WorldOk, AllCovered, VoteCovered, TracksViews, Apply, Genuine;
    if es == [] {
    } else {
      StepKeepsCover(c, w, es[0]);
      StepKeepsWorld(c, w, es[0]);
      TrackedRunIsCovered(c, Apply(w, es[0]), es[1..], w');
    }
  }

  lemma InitCovered(c: Config, w: World)
    requires ValidConfig(c) && Init(c, w)
    ensures WorldOk(c, w) && AllCovered(c, w)
  {
  }

  /** Agreement from the condition on single deliveries. */
  lemma AgreementWhenLocksTrack(c: Config, w: World, es: seq<Event>, w': World)
    requires ValidConfig(c) && Init(c, w) && Run(c, w, es, w') && RunTracksViews(c, w, es)
    ensures forall x, y :: Committable(c, w'.log, x) && Committable(c, w'.log, y) ==> OnOneChain(c, x, y)
    ensures forall k :: 0 <= k < |w'.commits| ==> Committable(c, w'.log, w'.commits[k])
  {
    hide Run, RunTracksViews, RunCovered, WorldOk, AllCovered;
    InitCovered(c, w);
    TrackedRunIsCovered(c, w, es, w');
    AgreementOverRuns(c, w, es, w');
  }

  // ---------------------------------------------------------------------------
  // A block missing from the cache

  /** The candidate a complete cache would offer. */
  function TreeCandidate(c: Config, prop: Proposal): Option<Locked> { LockCandidate(c.tree, prop.block.parent) }

  /** The height guard on the complete tree agrees with the views, as far as the node votes. */
  ghost predicate GuardAgrees(c: Config, n: Node, prop: Proposal) {
    var t := TreeCandidate(c, prop);
    prop.block.parent in n.pending && t.Some? ==>
      if t.value.height > LockHeight(n.locked) then t.value.view >= LockView(n.locked)
      else Votes(n, prop) ==> t.value.view <= LockView(n.locked)
  }

  /** The candidate is stored, or there is none, or it is not above the lock anyway. */
  ghost predicate MissHarmless(c: Config, n: Node, prop: Proposal) {
    var t := TreeCandidate(c, prop);
    || LockCandidate(AfterVote(n, prop).pending, prop.block.parent).Some?
    || t.None? || t.value.height <= LockHeight(n.locked)
  }

  lemma StoredCandidate(c: Config, log: Log, i: nat, n: Node, prop: Proposal)
    requires Delivered(c, log, i, n, prop)
    ensures var cand := LockCandidate(AfterVote(n, prop).pending, prop.block.parent);
      cand.Some? ==> cand == TreeCandidate(c, prop)
    ensures TreeCandidate(c, prop).Some? ==> TreeCandidate(c, prop).value.view == GrandparentView(c, prop.block.hash)
    ensures TreeCandidate(c, prop).None? ==> GrandparentView(c, prop.block.hash) == 0
  {
    InsertStaysInTree(c, n, prop.block);
  }

  /** The cache leads to the lock the complete tree leads to, if and only if the miss is harmless. */
  lemma CacheMissHarmlessIff(c: Config, log: Log, i: nat, n: Node, prop: Proposal)
    requires Delivered(c, log, i, n, prop) && prop.block.parent in n.pending
    ensures OnProposal(n, prop).locked == UpdateLock(n.locked, TreeCandidate(c, prop)) <==> MissHarmless(c, n, prop)
  {
    hide InsertPending, OnPath, ThreeChainCommit, LogOk, NodeOk, LockCandidate;
    StoredCandidate(c, log, i, n, prop);
  }

  /** With a harmless miss the condition is about the height guard alone. */
  lemma TrackingIsGuardAlone(c: Config, log: Log, i: nat, n: Node, prop: Proposal)
    requires Delivered(c, log, i, n, prop) && MissHarmless(c, n, prop)
    ensures LocksFollowViews(c, n, prop) <==> GuardAgrees(c, n, prop)
  {
    hide InsertPending, OnPath, ThreeChainCommit, LogOk, NodeOk, LockCandidate, GrandparentView;
    StoredCandidate(c, log, i, n, prop);
  }

  /** What a commit prunes is below the lock the same delivery leaves. */
  lemma PrunedBelowLock(c: Config, log: Log, i: nat, n: Node, prop: Proposal, h: Hash)
    requires Structural(c.tree) && Delivered(c, log, i, n, prop) && prop.block.parent in n.pending
    requires h in AfterLock(n, prop).pending && h !in OnProposal(n, prop).pending
    ensures h in c.tree && c.tree[h].height < LockHeight(OnProposal(n, prop).locked)
  {
    hide InsertPending, OnPath, LogOk;
    InsertStaysInTree(c, n, prop.block);
    var p := AfterLock(n, prop).pending;
    var b3 := p[prop.justify.hash];
    var b2 := p[b3.parent];
    assert c.tree[b3.parent] == b2 && c.tree[b2.parent] == p[b2.parent];
    assert LockCandidate(p, prop.block.parent) == Some(Locked(b2.view, b2.height, b3.parent));
    assert b2.height == p[b2.parent].height + 1;
  }

  /** Over every run, a block pruned by the first delivery stays below the node's lock, so missing it is harmless. */
  lemma PruningIsHarmless(c: Config, w: World, prop: Proposal, i: nat, es: seq<Event>, w': World, h: Hash, later: Proposal)
    requires Structural(c.tree) && i < |w.nodes| && Delivered(c, w.log, i, w.nodes[i], prop)
    requires prop.block.parent in w.nodes[i].pending
    requires h in AfterLock(w.nodes[i], prop).pending && h !in OnProposal(w.nodes[i], prop).pending
    requires Run(c, Apply(w, Deliver(i, prop)), es, w') && i < |w'.nodes|
    requires later.block.parent in c.tree && c.tree[later.block.parent].parent == h
    ensures MissHarmless(c, w'.nodes[i], later)
  {
    hide Delivered, OnProposal, AfterLock, Votes, Commits, Run, AfterVote;
    PrunedBelowLock(c, w.log, i, w.nodes[i], prop, h);
    RunNeverGoesBack(c, Apply(w, Deliver(i, prop)), es, w', i);
  }
}
