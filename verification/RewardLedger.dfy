/** Staking rewards by a cumulative index (`replication/reward_ledger.rs`). */
module RewardLedger {
  import opened Common

  type NodeId = nat

  const INDEX_SCALE: nat := 1_000_000_000_000_000_000

  datatype Ledger = Ledger(index: nat, last: map<NodeId, nat>, balance: map<NodeId, nat>)

  function At(m: map<NodeId, nat>, id: NodeId): nat { if id in m then m[id] else 0 }

  /** `as u64`. */
  function Truncate64(n: nat): nat { n % (U64_MAX + 1) }

  /** What the index adds for one block. */
  function IndexGain(issuance: nat, totalStake: nat): nat {
    if totalStake > 0 && issuance > 0 then issuance * INDEX_SCALE / totalStake else 0
  }

  /** `accrue_block`. */
  function Accrue(l: Ledger, proposer: NodeId, issuance: nat, bonus: nat, totalStake: nat): Ledger {
    Ledger(l.index + IndexGain(issuance, totalStake), l.last,
           if bonus > 0 then l.balance[proposer := SatAdd64(At(l.balance, proposer), bonus)] else l.balance)
  }

  /** What the index has earned for a stake since the node last settled. */
  function Earned(l: Ledger, id: NodeId, stake: nat): nat {
    if l.index > At(l.last, id) && stake > 0 then stake * (l.index - At(l.last, id)) / INDEX_SCALE else 0
  }

  /** `settle`. */
  function Settle(l: Ledger, id: NodeId, stake: nat): Ledger {
    var e := Earned(l, id, stake);
    Ledger(l.index, l.last[id := l.index],
           if e > 0 then l.balance[id := SatAdd64(At(l.balance, id), Truncate64(e))] else l.balance)
  }

  /** `claimable`. */
  function Claimable(l: Ledger, id: NodeId, stake: nat): nat {
    SatAdd64(At(l.balance, id), Truncate64(Earned(l, id, stake)))
  }

  predicate Balances(l: Ledger) { forall id :: id in l.balance ==> l.balance[id] <= U64_MAX }

  /** `claimable` is always the balance that settling would leave, and settling leaves nothing unsettled. */
  lemma ClaimableIsSettled(l: Ledger, id: NodeId, stake: nat, later: nat)
    requires Balances(l)
    ensures At(Settle(l, id, stake).balance, id) == Claimable(l, id, stake)
    ensures Claimable(Settle(l, id, stake), id, later) == Claimable(l, id, stake)
    ensures forall x :: x != id ==> At(Settle(l, id, stake).balance, x) == At(l.balance, x)
  {
  }

  // ---------------------------------------------------------------------------
  // Runs

  /**
   * A ledger in use and an account kept beside it: the stakes it is settled with, what was issued, paid
   * for stakes and granted as bonuses, what each node was credited, and what roundings may have lost.
   */
  datatype World = World(ledger: Ledger, stakes: map<NodeId, nat>, issued: nat, paid: nat, granted: nat,
                         credit: map<NodeId, nat>, rounding: nat)

  datatype Event =
    | Block(proposer: NodeId, issuance: nat, bonus: nat, totalStake: nat)
    | SettleNode(id: NodeId)
    | ChangeStake(node: NodeId, stake: nat)

  /** A block's total stake covers the stakes; a total of zero accrues nothing. */
  ghost predicate Covers(w: World, e: Event) {
    e.Block? && e.totalStake > 0 ==> MapSum(w.stakes) <= e.totalStake
  }

  /** As much of an amount as fits into a 64-bit balance. */
  function Fits(credit: map<NodeId, nat>, id: NodeId, amount: nat): nat {
    if At(credit, id) + amount <= U64_MAX then amount else if At(credit, id) <= U64_MAX then U64_MAX - At(credit, id) else 0
  }

  /** A stake's share of what the index gained since the node last settled, in whole units. */
  function Share(w: World, id: NodeId): nat {
    At(w.stakes, id) * Max(0, w.ledger.index - At(w.ledger.last, id)) / INDEX_SCALE
  }

  /** The share as a 64-bit number, as far as the balance can take it. */
  function Pay(w: World, id: NodeId): nat { Fits(w.credit, id, Share(w, id) % 0x1_0000_0000_0000_0000) }

  function SettleIn(w: World, id: NodeId): World {
    w.(ledger := Settle(w.ledger, id, At(w.stakes, id)),
       paid := w.paid + Pay(w, id),
       credit := w.credit[id := At(w.credit, id) + Pay(w, id)],
       rounding := w.rounding + INDEX_SCALE - 1)
  }

  /** A stake changes only after the node has settled with its old stake. */
  function Apply(w: World, e: Event): World {
    match e
    case Block(proposer, issuance, bonus, total) =>
      w.(ledger := Accrue(w.ledger, proposer, issuance, bonus, total),
         issued := w.issued + (if total > 0 then issuance else 0),
         granted := w.granted + Fits(w.credit, proposer, bonus),
         credit := w.credit[proposer := At(w.credit, proposer) + Fits(w.credit, proposer, bonus)],
         rounding := w.rounding + (if total > 0 then total - 1 else 0))
    case SettleNode(id) => SettleIn(w, id)
    case ChangeStake(id, stake) =>
      var s := SettleIn(w, id);
      s.(stakes := s.stakes[id := stake])
  }

  /** What each node could still be paid, times the scale. */
  function Due(w: World): map<NodeId, nat> {
    map id | id in w.stakes :: w.stakes[id] * Max(0, w.ledger.index - At(w.ledger.last, id))
  }

  /** Every balance is what the account says the node was credited. */
  ghost predicate Credited(w: World) { SameAt(w.ledger.balance, w.credit) }

  ghost predicate SameAt(a: map<NodeId, nat>, b: map<NodeId, nat>) { forall id :: At(a, id) == At(b, id) }

  ghost predicate Solvent(w: World) {
    && Balances(w.ledger)
    && (forall id :: id in w.ledger.last ==> w.ledger.last[id] <= w.ledger.index)
    && Credited(w)
    && MapSum(w.ledger.balance) == w.paid + w.granted
    && INDEX_SCALE * w.paid + MapSum(Due(w)) <= INDEX_SCALE * w.issued
  }

  lemma {:induction false} SumGrows(a: map<NodeId, nat>, stakes: map<NodeId, nat>, gain: nat, b: map<NodeId, nat>)
    requires a.Keys == stakes.Keys == b.Keys
    requires forall id :: id in a ==> b[id] == a[id] + stakes[id] * gain
    ensures MapSum(b) == MapSum(a) + MapSum(stakes) * gain
    decreases |a|
  {
    if a != map[] {
      var k := Least(a.Keys);
      MapSumRemove(a, k);
      MapSumRemove(b, k);
      MapSumRemove(stakes, k);
      assert (a - {k}).Keys == a.Keys - {k};
      SumGrows(a - {k}, stakes - {k}, gain, b - {k});
      Distribute(stakes[k], MapSum(stakes - {k}), gain);
    } else {
      assert b == map[] && stakes == map[];
    }
  }

  lemma Distribute(a: nat, b: nat, gain: nat)
    ensures (a + b) * gain == a * gain + b * gain
  {
  }

  /** One block can add no more to what is due than it issues. */
  lemma GainCovered(total: nat, issuance: nat, stakes: nat)
    requires total > 0 ==> stakes <= total
    ensures stakes * IndexGain(issuance, total) <= INDEX_SCALE * (if total > 0 then issuance else 0)
  {
  }

  lemma BalanceUpdate(m: map<NodeId, nat>, id: NodeId, v: nat)
    requires v >= At(m, id)
    ensures MapSum(m[id := v]) == MapSum(m) + (v - At(m, id))
  {
    MapSumUpdate(m, id, v);
  }

  lemma DueAfterGain(w: World, gain: nat, id: NodeId)
    requires id in w.stakes && At(w.ledger.last, id) <= w.ledger.index
    ensures w.stakes[id] * Max(0, w.ledger.index + gain - At(w.ledger.last, id)) == Due(w)[id] + w.stakes[id] * gain
  {
  }

  /** A saturating addition to a balance adds what fits. */
  lemma FitsIsSaturating(l: Ledger, credit: map<NodeId, nat>, id: NodeId, amount: nat)
    requires Balances(l) && At(l.balance, id) == At(credit, id)
    ensures SatAdd64(At(l.balance, id), amount) == At(credit, id) + Fits(credit, id, amount)
  {
  }

  lemma CreditOne(balance: map<NodeId, nat>, credit: map<NodeId, nat>, id: NodeId, v: nat)
    requires SameAt(balance, credit)
    ensures SameAt(balance[id := v], credit[id := v])
    ensures v == At(balance, id) ==> SameAt(balance, credit[id := v])
  {
    var a, b := balance[id := v], credit[id := v];
    forall x ensures At(a, x) == At(b, x) {
      AtUpdate(balance, id, v, x);
      AtUpdate(credit, id, v, x);
      assert At(balance, x) == At(credit, x);
    }
    if v == At(balance, id) {
      var after := credit[id := v];
      forall x ensures At(balance, x) == At(after, x) {
        AtUpdate(credit, id, v, x);
        assert At(balance, x) == At(credit, x);
      }
    }
  }

  lemma AtUpdate(m: map<NodeId, nat>, id: NodeId, v: nat, x: NodeId)
    ensures At(m[id := v], x) == if x == id then v else At(m, x)
  {
  }

  lemma BlockCredits(w: World, e: Event)
    requires Solvent(w) && e.Block?
    ensures var w' := Apply(w, e);
      Balances(w'.ledger) && Credited(w') && MapSum(w'.ledger.balance) == w'.paid + w'.granted
  {
    hide MapSum, IndexGain, Due, Fits;
    SameOne(w.ledger.balance, w.credit, e.proposer);
    FitsIsSaturating(w.ledger, w.credit, e.proposer, e.bonus);
    var v := At(w.credit, e.proposer) + Fits(w.credit, e.proposer, e.bonus);
    CreditOne(w.ledger.balance, w.credit, e.proposer, v);
    if e.bonus > 0 { BalanceUpdate(w.ledger.balance, e.proposer, v); } else { NothingFits(w.credit, e.proposer); }
  }

  lemma SameOne(a: map<NodeId, nat>, b: map<NodeId, nat>, id: NodeId)
    requires SameAt(a, b)
    ensures At(a, id) == At(b, id)
  {
  }

  lemma NothingFits(credit: map<NodeId, nat>, id: NodeId)
    ensures Fits(credit, id, 0) == 0
  {
  }

  /** A block makes due what its gain is worth to all stakes. */
  lemma BlockDue(w: World, e: Event)
    requires Solvent(w) && e.Block?
    ensures MapSum(Due(Apply(w, e))) == MapSum(Due(w)) + MapSum(w.stakes) * IndexGain(e.issuance, e.totalStake)
  {
    hide MapSum, IndexGain, Fits, Credited, Balances;
    var w', gain := Apply(w, e), IndexGain(e.issuance, e.totalStake);
    forall id | id in w.stakes ensures Due(w')[id] == Due(w)[id] + w.stakes[id] * gain { DueAfterGain(w, gain, id); }
    SumGrows(Due(w), w.stakes, gain, Due(w'));
  }

  lemma BlockSolvent(w: World, e: Event)
    requires Solvent(w) && Covers(w, e) && e.Block?
    ensures Solvent(Apply(w, e))
  {
    hide MapSum, IndexGain, Fits, Credited, Balances, Due;
    BlockCredits(w, e);
    BlockDue(w, e);
    GainCovered(e.totalStake, e.issuance, MapSum(w.stakes));
  }

  /** What a settlement pays is covered by what stops being due. */
  lemma EarnedCovered(l: Ledger, id: NodeId, stake: nat)
    ensures INDEX_SCALE * Truncate64(Earned(l, id, stake)) <= stake * Max(0, l.index - At(l.last, id))
  {
  }

  /** The share is what the ledger says was earned. */
  lemma ShareIsEarned(w: World, id: NodeId)
    ensures Share(w, id) == Earned(w.ledger, id, At(w.stakes, id))
    ensures Share(w, id) % 0x1_0000_0000_0000_0000 == Truncate64(Earned(w.ledger, id, At(w.stakes, id)))
  {
    var lag := Max(0, w.ledger.index - At(w.ledger.last, id));
    if At(w.stakes, id) == 0 || lag == 0 { assert At(w.stakes, id) * lag == 0; }
  }

  lemma SettlePays(w: World, id: NodeId)
    requires Balances(w.ledger) && Credited(w)
    ensures var w', earned := SettleIn(w, id), Truncate64(Earned(w.ledger, id, At(w.stakes, id)));
      && Balances(w'.ledger) && Credited(w') && w.paid <= w'.paid <= w.paid + earned
      && MapSum(w'.ledger.balance) == MapSum(w.ledger.balance) + (w'.paid - w.paid)
  {
    hide MapSum, Truncate64, Earned, Share, Fits;
    NothingEarned();
    ShareIsEarned(w, id);
    SameOne(w.ledger.balance, w.credit, id);
    var amount := Share(w, id) % 0x1_0000_0000_0000_0000;
    FitsIsSaturating(w.ledger, w.credit, id, amount);
    FitsAtMost(w.credit, id, amount);
    var v := At(w.credit, id) + Pay(w, id);
    CreditOne(w.ledger.balance, w.credit, id, v);
    if Earned(w.ledger, id, At(w.stakes, id)) > 0 { BalanceUpdate(w.ledger.balance, id, v); } else { NothingFits(w.credit, id); }
  }

  lemma FitsAtMost(credit: map<NodeId, nat>, id: NodeId, amount: nat)
    ensures Fits(credit, id, amount) <= amount
  {
  }

  lemma SettleClearsDue(w: World, id: NodeId)
    ensures id in w.stakes ==> Due(SettleIn(w, id)) == Due(w)[id := 0]
    ensures id !in w.stakes ==> Due(SettleIn(w, id)) == Due(w)
  {
  }

  lemma {:induction false} SettleSolvent(w: World, id: NodeId)
    requires Solvent(w)
    ensures Solvent(SettleIn(w, id))
    ensures At(SettleIn(w, id).ledger.last, id) == w.ledger.index
  {
    hide MapSum, Truncate64, Earned, Due, Pay;
    SettlePays(w, id);
    SettleClearsDue(w, id);
    EarnedCovered(w.ledger, id, At(w.stakes, id));
    if id in w.stakes {
      DueOf(w, id);
      MapSumUpdate(Due(w), id, 0);
    }
  }

  lemma DueOf(w: World, id: NodeId)
    requires id in w.stakes
    ensures id in Due(w) && Due(w)[id] == At(w.stakes, id) * Max(0, w.ledger.index - At(w.ledger.last, id))
  {
  }

  lemma NothingEarned()
    ensures Truncate64(0) == 0
  {
  }

  lemma StepSolvent(w: World, e: Event)
    requires Solvent(w) && Covers(w, e)
    ensures Solvent(Apply(w, e))
  {
    hide MapSum, SettleIn, Due, Accrue;
    match e
    case Block(_, _, _, _) => BlockSolvent(w, e);
    case SettleNode(id) => SettleSolvent(w, id);
    case ChangeStake(id, stake) => ChangeSolvent(w, id, stake);
  }

  lemma {:induction false} ChangeSolvent(w: World, id: NodeId, stake: nat)
    requires Solvent(w)
    ensures Solvent(Apply(w, ChangeStake(id, stake)))
  {
    hide MapSum, Earned, Truncate64, Pay, Credited, Balances;
    SettleSolvent(w, id);
    var s, w' := SettleIn(w, id), Apply(w, ChangeStake(id, stake));
    DueClear(w, id);
    assert Due(w') == Due(s)[id := 0];
    MapSumUpdate(Due(s), id, 0);
    CreditedStill(s, w');
  }

  lemma CreditedStill(a: World, b: World)
    requires Credited(a) && b.ledger == a.ledger && b.credit == a.credit
    ensures Credited(b)
  {
  }

  ghost predicate CoveredRun(w: World, es: seq<Event>)
    decreases |es|
  {
    es != [] ==> Covers(w, es[0]) && CoveredRun(Apply(w, es[0]), es[1..])
  }

  function After(w: World, es: seq<Event>): World
    decreases |es|
  {
    if es == [] then w else After(Apply(w, es[0]), es[1..])
  }

  lemma {:induction false} RunSolvent(w: World, es: seq<Event>)
    requires Solvent(w) && CoveredRun(w, es)
    ensures Solvent(After(w, es))
    decreases |es|
  {
    hide Solvent, Covers, Apply;
    if es == [] {
    } else {
      StepSolvent(w, es[0]);
      RunSolvent(Apply(w, es[0]), es[1..]);
    }
  }

  /**
   * On every run from an empty ledger, what the index paid out never exceeds what was issued, every
   * balance is exactly what its node was credited, and all of them are what was paid and granted.
   */
  lemma PayoutsNeverExceedIssuance(es: seq<Event>)
    requires CoveredRun(NewWorld, es)
    ensures var w := After(NewWorld, es);
      w.paid <= w.issued && MapSum(w.ledger.balance) == w.paid + w.granted && Credited(w)
  {
    hide After, CoveredRun, Credited;
    StartsSolvent();
    RunSolvent(NewWorld, es);
    var w := After(NewWorld, es);
    assert INDEX_SCALE * w.paid <= INDEX_SCALE * w.issued;
  }

  // ---------------------------------------------------------------------------
  // Nothing but roundings is withheld

  /** The block's total is the stakes, and nothing paid is truncated or saturates a balance. */
  ghost predicate Exact(w: World, e: Event) {
    match e
    case Block(_, _, _, total) => total == MapSum(w.stakes)
    case SettleNode(id) => At(w.credit, id) + Share(w, id) <= U64_MAX
    case ChangeStake(id, _) => At(w.credit, id) + Share(w, id) <= U64_MAX
  }

  ghost predicate ExactRun(w: World, es: seq<Event>)
    decreases |es|
  {
    es != [] ==> Exact(w, es[0]) && ExactRun(Apply(w, es[0]), es[1..])
  }

  /** What was paid and is still due falls short of the issuance by no more than the roundings. */
  ghost predicate WellPaid(w: World) {
    INDEX_SCALE * w.issued <= INDEX_SCALE * w.paid + MapSum(Due(w)) + w.rounding
  }

  /** A block rounds away less than one unit of the index for each unit of stake. */
  lemma GainNearly(total: nat, issuance: nat)
    ensures INDEX_SCALE * (if total > 0 then issuance else 0) <= total * IndexGain(issuance, total) + (if total > 0 then total - 1 else 0)
  {
    if total > 0 && issuance > 0 {
      var x := issuance * INDEX_SCALE;
      assert x == total * (x / total) + x % total;
    }
  }

  lemma {:induction false} BlockWellPaid(w: World, e: Event)
    requires Solvent(w) && WellPaid(w) && Exact(w, e) && e.Block?
    ensures WellPaid(Apply(w, e))
  {
    hide MapSum, IndexGain, Due, Solvent;
    BlockDue(w, e);
    GainNearly(e.totalStake, e.issuance);
  }

  /** A settlement rounds away less than one unit. */
  lemma ShareNearly(w: World, id: NodeId)
    ensures At(w.stakes, id) * Max(0, w.ledger.index - At(w.ledger.last, id)) <= INDEX_SCALE * Share(w, id) + INDEX_SCALE - 1
  {
  }

  lemma {:induction false} SettleWellPaid(w: World, id: NodeId)
    requires Solvent(w) && WellPaid(w) && At(w.credit, id) + Share(w, id) <= U64_MAX
    ensures WellPaid(SettleIn(w, id))
  {
    hide MapSum, Due, Share, Settle;
    SettleClearsDue(w, id);
    ShareNearly(w, id);
    assert Pay(w, id) == Share(w, id);
    if id in w.stakes {
      DueOf(w, id);
      MapSumUpdate(Due(w), id, 0);
    }
  }

  lemma {:induction false} ChangeWellPaid(w: World, id: NodeId, stake: nat)
    requires Solvent(w) && WellPaid(w) && Exact(w, ChangeStake(id, stake))
    ensures WellPaid(Apply(w, ChangeStake(id, stake)))
  {
    hide MapSum, Share, Pay;
    SettleSolvent(w, id);
    SettleWellPaid(w, id);
    var s, w' := SettleIn(w, id), Apply(w, ChangeStake(id, stake));
    assert Due(w') == Due(s)[id := 0];
    DueClear(w, id);
    MapSumUpdate(Due(s), id, 0);
  }

  lemma DueClear(w: World, id: NodeId)
    ensures At(SettleIn(w, id).ledger.last, id) == w.ledger.index
    ensures id in Due(SettleIn(w, id)) ==> Due(SettleIn(w, id))[id] == 0
  {
  }

  lemma {:induction false} RunWellPaid(w: World, es: seq<Event>)
    requires Solvent(w) && WellPaid(w) && ExactRun(w, es)
    ensures WellPaid(After(w, es))
    decreases |es|
  {
    hide Solvent, WellPaid, Apply, Share;
    if es == [] {
    } else {
      StepSolvent(w, es[0]);
      match es[0] {
        case Block(_, _, _, _) => BlockWellPaid(w, es[0]);
        case SettleNode(id) => SettleWellPaidEvent(w, id);
        case ChangeStake(id, stake) => ChangeWellPaid(w, id, stake);
      }
      RunWellPaid(Apply(w, es[0]), es[1..]);
    }
  }

  lemma SettleWellPaidEvent(w: World, id: NodeId)
    requires Solvent(w) && WellPaid(w) && Exact(w, SettleNode(id))
    ensures WellPaid(Apply(w, SettleNode(id)))
  {
    hide Solvent, WellPaid, SettleIn, Share;
    SettleWellPaid(w, id);
  }

  /**
   * On every run from an empty ledger whose block totals are the stakes and whose payments fit their
   * balances, what was paid and is still due falls short of what was issued by less than one unit for
   * each settlement and one index unit for each unit of stake and block.
   */
  lemma NothingWithheld(es: seq<Event>)
    requires ExactRun(NewWorld, es)
    ensures var w := After(NewWorld, es);
      INDEX_SCALE * w.issued <= INDEX_SCALE * w.paid + MapSum(Due(w)) + w.rounding
  {
    hide After, ExactRun;
    StartsSolvent();
    RunWellPaid(NewWorld, es);
  }

  // ---------------------------------------------------------------------------
  // The 128-bit index

  lemma QuotientAtMost(x: nat, t: nat)
    requires t > 0
    ensures x / t <= x
  {
    MultipleAtLeast(x / t, t, x, x % t);
  }

  lemma MultipleAtLeast(q: nat, t: nat, x: nat, r: nat)
    requires t > 0 && x == t * q + r
    ensures q <= x
  {
    assert t * q == (t - 1) * q + q;
  }

  lemma GainAtMostIssued(issuance: nat, total: nat)
    ensures IndexGain(issuance, total) <= INDEX_SCALE * (if total > 0 then issuance else 0)
  {
    if total > 0 && issuance > 0 {
      QuotientAtMost(issuance * INDEX_SCALE, total);
    }
  }

  lemma {:induction false} IndexBounded(w: World, es: seq<Event>)
    requires w.ledger.index <= INDEX_SCALE * w.issued
    ensures After(w, es).ledger.index <= INDEX_SCALE * After(w, es).issued
    decreases |es|
  {
    hide IndexGain, Earned, Truncate64;
    if es == [] {
    } else {
      if es[0].Block? { GainAtMostIssued(es[0].issuance, es[0].totalStake); }
      IndexBounded(Apply(w, es[0]), es[1..]);
    }
  }

  lemma DueAtMostTotal(w: World, id: NodeId)
    requires id in w.stakes
    ensures w.stakes[id] * Max(0, w.ledger.index - At(w.ledger.last, id)) <= MapSum(Due(w))
  {
    hide MapSum;
    MapSumRemove(Due(w), id);
  }

  const NewWorld: World := World(Ledger(0, map[], map[]), map[], 0, 0, 0, map[], 0)

  /**
   * While the total issued, times the scale, fits in 128 bits, so do the index and every product of a
   * stake with the index it has not settled: the source's plain arithmetic on them does not overflow.
   */
  lemma NoOverflow(es: seq<Event>, id: NodeId)
    requires CoveredRun(NewWorld, es) && INDEX_SCALE * After(NewWorld, es).issued <= U128_MAX
    ensures var w := After(NewWorld, es);
      && w.ledger.index <= U128_MAX
      && At(w.stakes, id) * Max(0, w.ledger.index - At(w.ledger.last, id)) <= U128_MAX
  {
    hide After, CoveredRun, MapSum, Due, Solvent, At;
    StartsSolvent();
    RunSolvent(NewWorld, es);
    IndexBounded(NewWorld, es);
    var w := After(NewWorld, es);
    DueWithinIssued(w);
    UnsettledAtMostDue(w, id);
  }

  lemma DueWithinIssued(w: World)
    requires Solvent(w)
    ensures MapSum(Due(w)) <= INDEX_SCALE * w.issued
  {
    hide Due, MapSum;
  }

  lemma UnsettledAtMostDue(w: World, id: NodeId)
    ensures At(w.stakes, id) * Max(0, w.ledger.index - At(w.ledger.last, id)) <= MapSum(Due(w))
  {
    hide MapSum, Due;
    if id in w.stakes {
      DueAtMostTotal(w, id);
    } else {
      assert At(w.stakes, id) == 0;
    }
  }

  lemma StartsSolvent()
    ensures Solvent(NewWorld)
  {
    assert Due(NewWorld) == map[];
  }

  /** With a later index and the same last settlement, no less has been earned. */
  lemma EarnedGrows(l: Ledger, later: Ledger, id: NodeId, stake: nat)
    requires later.last == l.last && later.index >= l.index
    ensures Earned(l, id, stake) <= Earned(later, id, stake)
  {
    if l.index > At(l.last, id) && stake > 0 {
      var a, b := l.index - At(l.last, id), later.index - At(l.last, id);
      MoreLagMore(stake, a, b);
    }
  }

  lemma MoreLagMore(stake: nat, a: nat, b: nat)
    requires a <= b
    ensures stake * a / INDEX_SCALE <= stake * b / INDEX_SCALE
  {
    assert stake * b == stake * a + stake * (b - a);
  }

  /** `RewardLedger`. */
  class Rewards {
    var index: nat
    var lastIndex: map<NodeId, nat>
    var balance: map<NodeId, nat>

    function Value(): Ledger
      reads this
    {
      Ledger(index, lastIndex, balance)
    }

    constructor ()
      ensures Value() == Ledger(0, map[], map[])
    {
      index, lastIndex, balance := 0, map[], map[];
    }

    method AccrueBlock(proposer: NodeId, issuance: nat, bonus: nat, totalStake: nat)
      modifies this
      ensures Value() == Accrue(old(Value()), proposer, issuance, bonus, totalStake)
      ensures forall id: NodeId, stake: nat :: Earned(old(Value()), id, stake) <= Earned(Value(), id, stake)
      ensures forall id: NodeId :: id != proposer ==> At(balance, id) == At(old(balance), id)
      ensures old(Balances(Value())) ==> At(balance, proposer) == Min(At(old(balance), proposer) + bonus, U64_MAX)
    {
      ghost var before := Value();
      if totalStake > 0 && issuance > 0 {
        index := index + issuance * INDEX_SCALE / totalStake;
      }
      if bonus > 0 {
        balance := balance[proposer := SatAdd64(At(balance, proposer), bonus)];
      }
      forall id: NodeId, stake: nat ensures Earned(before, id, stake) <= Earned(Value(), id, stake) {
        EarnedGrows(before, Value(), id, stake);
      }
    }

    method SettleStake(id: NodeId, stake: nat)
      modifies this
      ensures Value() == Settle(old(Value()), id, stake)
      ensures old(Balances(Value())) ==> At(balance, id) == old(Claimable(Value(), id, stake))
    {
      var last := At(lastIndex, id);
      if index > last && stake > 0 {
        var earned := stake * (index - last) / INDEX_SCALE;
        if earned > 0 {
          balance := balance[id := SatAdd64(At(balance, id), Truncate64(earned))];
        }
      }
      lastIndex := lastIndex[id := index];
    }
  }
}
