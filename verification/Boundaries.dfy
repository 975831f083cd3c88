/** Where the boundaries of a validator-set history come from, over any chain of blocks. */
module Boundaries {
  import opened Common
  import opened ValidatorSets
  import opened SetHistory
  import opened KeyHistories
  import opened Reconfig
  import opened Histories

  /**
   * Command `j` of the block turns the preceding set into the next one: the block commits once the
   * preceding boundary is active, the next takes effect at least four views later, and its weights
   * are the preceding ones with the removes, changes and adds applied.
   */
  predicate Explains(prev: Boundary, next: Boundary, b: CommittedBlock, j: nat) {
    && j < |b.commands| && b.commands[j].Reconfigure?
    && next.vEff == b.commands[j].cmd.vEff
    && prev.vEff <= b.view && b.view + MIN_V_EFF_DELAY <= next.vEff
    && WellFormed(prev.vset) && WellFormed(next.vset) && |next.vset.members| >= MIN_VALIDATOR_FLOOR
    && AsMap(next.vset) == NextMap(AsMap(prev.vset), b.commands[j].cmd)
  }

  predicate ExplainedBy(prev: Boundary, next: Boundary, bs: seq<CommittedBlock>) {
    exists k, j :: 0 <= k < |bs| && 0 <= j < |bs[k].commands| && Explains(prev, next, bs[k], j)
  }

  /** Every boundary but the first is explained by a command of some block. */
  predicate AllExplained(sets: seq<Boundary>, bs: seq<CommittedBlock>) {
    forall i :: 0 < i < |sets| ==> ExplainedBy(sets[i - 1], sets[i], bs)
  }

  /** With nothing ahead, the set active in the view is the last one. */
  lemma LastIsActive(sets: seq<Boundary>, view: nat)
    requires ValidHistory(sets) && !BoundaryAhead(sets, view)
    ensures SetAt(sets, view) == sets[|sets| - 1].vset && sets[|sets| - 1].vEff <= view
  {
  }

  lemma NewBoundaryExplained(o: Oracle, delay: nat, h: Hist, b: CommittedBlock, j: nat)
    requires HistOk(h) && j < |b.commands| && b.commands[j].Reconfigure?
    requires NextSet(o, delay, b.view, h, b.commands[j].cmd).Some?
    ensures |h.sets| > 0
    ensures var cmd := b.commands[j].cmd;
      Explains(h.sets[|h.sets| - 1], Boundary(cmd.vEff, NextSet(o, delay, b.view, h, cmd).value), b, j)
  {
    var cmd := b.commands[j].cmd;
    LastIsActive(h.sets, b.view);
    AcceptedMeans(o.checks, cmd, SetAt(h.sets, b.view), b.view, delay);
  }

  lemma OtherPassesKeepSets(o: Oracle, delay: nat, view: nat, pass: Pass, h: Hist, c: Command)
    requires HistOk(h) && (pass != ReconfigPass || !c.Reconfigure?)
    ensures Step(o, delay, view, pass, h, c).sets == h.sets
  {
  }

  lemma {:induction false} PassKeepsSets(o: Oracle, delay: nat, view: nat, pass: Pass, h: Hist, cs: seq<Command>)
    requires HistOk(h) && pass != ReconfigPass
    ensures RunPass(o, delay, view, pass, h, cs).sets == h.sets
  {
    if cs == [] {
    } else {
      PassKeepsSets(o, delay, view, pass, h, cs[..|cs| - 1]);
      OtherPassesKeepSets(o, delay, view, pass, RunPass(o, delay, view, pass, h, cs[..|cs| - 1]), cs[|cs| - 1]);
    }
  }

  lemma ExplainedStill(sets: seq<Boundary>, bs: seq<CommittedBlock>, more: seq<CommittedBlock>)
    requires AllExplained(sets, bs) && bs <= more
    ensures AllExplained(sets, more)
  {
  }

  lemma OneMoreExplained(sets: seq<Boundary>, next: Boundary, bs: seq<CommittedBlock>, k: nat, j: nat)
    requires AllExplained(sets, bs) && |sets| > 0 && k < |bs| && j < |bs[k].commands|
    requires Explains(sets[|sets| - 1], next, bs[k], j)
    ensures AllExplained(sets + [next], bs)
  {
  }

  /** One command of the last block, in the reconfiguration pass. */
  lemma StepExplained(o: Oracle, delay: nat, m: Hist, bs: seq<CommittedBlock>, j: nat)
    requires HistOk(m) && |bs| > 0 && j < |bs[|bs| - 1].commands| && AllExplained(m.sets, bs)
    ensures var b := bs[|bs| - 1];
      AllExplained(Step(o, delay, b.view, ReconfigPass, m, b.commands[j]).sets, bs)
  {
    hide ExplainedBy, Explains, AllExplained, HistOk, AddMembers, RegisterAdds, Validate;
    var b := bs[|bs| - 1];
    var c := b.commands[j];
    if c.Reconfigure? && NextSet(o, delay, b.view, m, c.cmd).Some? {
      NewBoundaryExplained(o, delay, m, b, j);
      OneMoreExplained(m.sets, Boundary(c.cmd.vEff, NextSet(o, delay, b.view, m, c.cmd).value), bs, |bs| - 1, j);
    }
  }

  /** The reconfiguration pass, after the first `n` commands of the last block. */
  lemma {:induction false} ReconfigPassExplained(o: Oracle, delay: nat, h: Hist, bs: seq<CommittedBlock>, n: nat)
    requires HistOk(h) && |bs| > 0 && n <= |bs[|bs| - 1].commands|
    requires AllExplained(h.sets, bs)
    ensures var b := bs[|bs| - 1];
      AllExplained(RunPass(o, delay, b.view, ReconfigPass, h, b.commands[..n]).sets, bs)
  {
    hide ExplainedBy, Explains, AllExplained, HistOk, Step;
    var b := bs[|bs| - 1];
    if n == 0 {
    } else {
      ReconfigPassExplained(o, delay, h, bs, n - 1);
      assert b.commands[..n][..n - 1] == b.commands[..n - 1];
      StepExplained(o, delay, RunPass(o, delay, b.view, ReconfigPass, h, b.commands[..n - 1]), bs, n - 1);
    }
  }

  lemma BlockExplained(o: Oracle, delay: nat, h: Hist, bs: seq<CommittedBlock>)
    requires HistOk(h) && |bs| > 0 && AllExplained(h.sets, bs)
    ensures AllExplained(ApplyBlock(o, delay, h, bs[|bs| - 1]).sets, bs)
  {
    var b := bs[|bs| - 1];
    ReconfigPassExplained(o, delay, h, bs, |b.commands|);
    assert b.commands[..|b.commands|] == b.commands;
    var h1 := RunPass(o, delay, b.view, ReconfigPass, h, b.commands);
    var h2 := RunPass(o, delay, b.view, RotationPass, h1, b.commands);
    var h3 := RunPass(o, delay, b.view, CancelPass, h2, b.commands);
    var h4 := RunPass(o, delay, b.view, OperatorPass, h3, b.commands);
    PassKeepsSets(o, delay, b.view, RotationPass, h1, b.commands);
    PassKeepsSets(o, delay, b.view, CancelPass, h2, b.commands);
    PassKeepsSets(o, delay, b.view, OperatorPass, h3, b.commands);
    PassKeepsSets(o, delay, b.view, OperatorKeyPass, h4, b.commands);
  }

  /** From a single genesis boundary, every boundary any chain produces is explained by the chain. */
  lemma {:induction false} ChainExplained(o: Oracle, delay: nat, h: Hist, bs: seq<CommittedBlock>)
    requires HistOk(h) && |h.sets| == 1
    ensures AllExplained(ApplyChain(o, delay, h, bs).sets, bs)
  {
    if bs == [] {
    } else {
      var front := bs[..|bs| - 1];
      ChainExplained(o, delay, h, front);
      ExplainedStill(ApplyChain(o, delay, h, front).sets, front, bs);
      BlockExplained(o, delay, ApplyChain(o, delay, h, front), bs);
    }
  }

  /**
   * The shape of every reachable set history: consecutive boundaries at least four views apart, all
   * but the last already active in the newest view, well-formed sets of at least four validators.
   */
  lemma {:induction false} ChainShape(o: Oracle, delay: nat, h: Hist, bs: seq<CommittedBlock>, w: nat)
    requires HistOk(h) && |h.sets| == 1
    requires forall i :: 0 <= i < |bs| ==> bs[i].view <= w
    ensures var sets := ApplyChain(o, delay, h, bs).sets;
      && (forall i :: 0 < i < |sets| ==> sets[i - 1].vEff + MIN_V_EFF_DELAY <= sets[i].vEff)
      && (forall i :: 0 <= i < |sets| - 1 ==> sets[i].vEff <= w)
      && (forall i :: 0 < i < |sets| ==> WellFormed(sets[i].vset) && |sets[i].vset.members| >= MIN_VALIDATOR_FLOOR)
  {
    hide ApplyChain, Explains;
    ChainExplained(o, delay, h, bs);
    var sets := ApplyChain(o, delay, h, bs).sets;
    forall i | 0 < i < |sets|
      ensures sets[i - 1].vEff + MIN_V_EFF_DELAY <= sets[i].vEff
      ensures WellFormed(sets[i].vset) && |sets[i].vset.members| >= MIN_VALIDATOR_FLOOR
    {
      ExplainedGap(sets, bs, w, i - 1);
    }
    forall i | 0 <= i < |sets| - 1 ensures sets[i].vEff <= w {
      ExplainedGap(sets, bs, w, i);
    }
  }

  lemma ExplainedGap(sets: seq<Boundary>, bs: seq<CommittedBlock>, w: nat, i: nat)
    requires AllExplained(sets, bs) && i + 1 < |sets|
    requires forall k :: 0 <= k < |bs| ==> bs[k].view <= w
    ensures sets[i].vEff + MIN_V_EFF_DELAY <= sets[i + 1].vEff && sets[i].vEff <= w
    ensures WellFormed(sets[i + 1].vset) && |sets[i + 1].vset.members| >= MIN_VALIDATOR_FLOOR
  {
  }
}
