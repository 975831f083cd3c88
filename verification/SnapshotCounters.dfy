/** When the in-flight counters of the snapshot download equal the slots really in flight. */
module SnapshotCounters {
  import opened Common
  import opened SnapshotChunks
  import opened SnapshotSync
  import opened SnapshotRuns

  ghost predicate Exact(s: State) { s.Fetching? ==> CountersExact(s.f) }

  lemma ScheduledExact(f: Fetch)
    requires CountersExact(f)
    ensures Exact(Scheduled(f).state) && Exact(ScheduleOrAbort(f).state)
  {
    hide Gap;
    forall p: NodeId ensures Gap(Schedule(f).0, p) == 0 { ScheduleGap(f, p); }
  }

  lemma AnsweredExact(f: Fetch, from: NodeId, idx: nat, slot: Slot)
    requires CountersExact(f) && idx < |f.chunks| && f.chunks[idx].status == InFlight(from) && !slot.status.InFlight?
    ensures CountersExact(CountDown(f, from).(chunks := f.chunks[idx := slot]))
  {
    hide Gap, CountDown;
    var g := CountDown(f, from).(chunks := f.chunks[idx := slot]);
    forall p: NodeId ensures Gap(g, p) == 0 {
      assert Gap(f, p) == 0;
      AnsweredGap(f, from, idx, slot, p);
    }
  }

  /** A chunk that arrives and fails its hash check. */
  predicate BadChunk(hash: Bytes -> nat, s: State, e: Event) {
    && s.Fetching? && e.ChunkResponse? && Accepted(s.f, e.from, e.atHeight, e.idx)
    && e.payload.Some? && !ChunkVerifies(hash, s.f.manifest, e.idx, e.payload.value)
  }

  lemma ChunkExact(hash: Bytes -> nat, f: Fetch, e: Event)
    requires CountersExact(f) && e.ChunkResponse? && !BadChunk(hash, Fetching(f), e)
    ensures Exact(OnChunk(hash, f, e.from, e.atHeight, e.idx, e.payload).state)
  {
    hide CountersExact, ScheduleOrAbort;
    if Accepted(f, e.from, e.atHeight, e.idx) {
      var slot := f.chunks[e.idx];
      var f1 := CountDown(f, e.from);
      if e.payload.None? {
        AnsweredExact(f, e.from, e.idx, Failed(slot, e.from));
        ScheduledExact(AfterFailure(f1, e.from, e.idx));
      } else {
        var done := slot.(status := Received(e.payload.value));
        AnsweredExact(f, e.from, e.idx, done);
        ScheduledExact(f1.(chunks := f1.chunks[e.idx := done]));
      }
    }
  }

  lemma DisconnectExact(f: Fetch, peer: NodeId)
    requires CountersExact(f)
    ensures Exact(OnDisconnect(f, peer).state)
  {
    hide Gap, ScheduleOrAbort, Without;
    var f1 := DropPeer(f, peer);
    if Disconnected(f1.chunks, f1.candidates, peer, 0).Ok? {
      DisconnectedExact(f1.chunks, f1.candidates, peer, 0);
      var chunks := Disconnected(f1.chunks, f1.candidates, peer, 0).value;
      forall p: NodeId ensures Gap(f1.(chunks := chunks), p) == 0 {
        assert Gap(f, p) == 0;
        DisconnectGap(f, peer, chunks, p);
      }
      ScheduledExact(f1.(chunks := chunks));
    }
  }

  lemma CandidateExact(f: Fetch, peer: NodeId)
    requires CountersExact(f)
    ensures Exact(Scheduled(WithCandidate(f, peer)).state)
  {
    hide Gap, Scheduled, WithCandidate;
    var g := WithCandidate(f, peer);
    forall p: NodeId ensures Gap(g, p) == 0 {
      assert Gap(f, p) == 0;
      CandidateGap(f, peer, p);
    }
    ScheduledExact(g);
  }

  lemma StepExact(hash: Bytes -> nat, interval: nat, s: State, e: Event)
    requires Exact(s) && !BadChunk(hash, s, e)
    ensures Exact(Step(hash, interval, s, e).state)
  {
    hide CountersExact, Scheduled, WithCandidate, FreshFetch, OnChunk, OnDisconnect, BadChunk;
    match e
    case ObserveProposal(_, _, p, _) => if s.Fetching? { CandidateExact(s.f, p); }
    case AddCandidate(p) => if s.Fetching? { CandidateExact(s.f, p); }
    case ManifestResponse(_, m, _) =>
      if s.ManifestPending? && m.Some? { FreshExact(m.value, s.waiting + {s.primary}); }
    case ChunkResponse(_, _, _, _) => if s.Fetching? { ChunkExact(hash, s.f, e); }
    case PeerDisconnected(p) => if s.Fetching? { DisconnectExact(s.f, p); }
  }

  lemma FreshExact(m: Manifest, peers: set<NodeId>)
    ensures Exact(Scheduled(FreshFetch(m, peers)).state)
  {
    hide Gap, Scheduled, FreshFetch;
    forall p: NodeId ensures Gap(FreshFetch(m, peers), p) == 0 { FreshGap(m, peers, p); }
    ScheduledExact(FreshFetch(m, peers));
  }

  ghost predicate NoBadChunks(hash: Bytes -> nat, interval: nat, es: seq<Event>) {
    es != [] ==>
      && NoBadChunks(hash, interval, es[..|es| - 1])
      && !BadChunk(hash, Run(hash, interval, es[..|es| - 1]).state, es[|es| - 1])
  }

  /** On a run without failed verifications every counter equals the slots really in flight. */
  lemma {:induction false} CountersExactWithoutBadChunks(hash: Bytes -> nat, interval: nat, es: seq<Event>)
    requires NoBadChunks(hash, interval, es)
    ensures Exact(Run(hash, interval, es).state)
  {
    hide Exact, Step, BadChunk;
    if es != [] {
      CountersExactWithoutBadChunks(hash, interval, es[..|es| - 1]);
      StepExact(hash, interval, Run(hash, interval, es[..|es| - 1]).state, es[|es| - 1]);
    } else {
      assert Exact(Idle({})) by { IdleExact(); }
    }
  }

  lemma IdleExact()
    ensures Exact(Idle({}))
  {
  }

  /**
   * A failed verification keeps exact counters exact if and only if the peer had no other slot in
   * flight: its counter is dropped, its other slots are not.
   */
  lemma BadChunkExactIff(hash: Bytes -> nat, f: Fetch, e: Event)
    requires CountersExact(f) && BadChunk(hash, Fetching(f), e)
    requires OnChunk(hash, f, e.from, e.atHeight, e.idx, e.payload).state.Fetching?
    ensures Exact(OnChunk(hash, f, e.from, e.atHeight, e.idx, e.payload).state) <==> TrueCount(f.chunks, e.from) == 1
  {
    hide TrueCount, Without, Schedule, Gap;
    var slot := Failed(f.chunks[e.idx], e.from);
    var g := DropPeer(AfterFailure(CountDown(f, e.from), e.from, e.idx), e.from);
    var h := Schedule(g).0;
    forall p: NodeId ensures Gap(h, p) == if p == e.from then TrueCount(f.chunks, p) - 1 else 0 {
      ScheduleGap(g, p);
      assert Gap(f, p) == 0;
      DroppedGap(f, e.from, e.idx, p);
    }
    assert Gap(h, e.from) == TrueCount(f.chunks, e.from) - 1;
  }

  lemma DroppedGap(f: Fetch, from: NodeId, idx: nat, p: NodeId)
    requires idx < |f.chunks| && f.chunks[idx].status == InFlight(from) && Gap(f, p) == 0
    ensures Gap(DropPeer(AfterFailure(CountDown(f, from), from, idx), from), p) ==
            if p == from then TrueCount(f.chunks, p) - 1 else 0
  {
    TrueCountUpdate(f.chunks, idx, Failed(f.chunks[idx], from), p);
  }

  function InFlightTotal(chunks: seq<Slot>): nat {
    if chunks == [] then 0
    else InFlightTotal(chunks[..|chunks| - 1]) + if chunks[|chunks| - 1].status.InFlight? then 1 else 0
  }

  /** Exact counters add up to the slots in flight. */
  lemma {:induction false} ExactTotal(chunks: seq<Slot>, m: map<NodeId, nat>)
    requires forall p: NodeId :: Counter(m, p) == TrueCount(chunks, p)
    ensures MapSum(m) == InFlightTotal(chunks)
  {
    if chunks == [] {
      forall p | p in m ensures m[p] == 0 { assert Counter(m, p) == 0; }
      ZeroSum(m);
    } else {
      var front, last := chunks[..|chunks| - 1], chunks[|chunks| - 1].status;
      if last.InFlight? {
        var c := Counter(m, last.peer);
        assert c == TrueCount(front, last.peer) + 1;
        var m' := m[last.peer := c - 1];
        MapSumUpdate(m, last.peer, c - 1);
        forall p: NodeId ensures Counter(m', p) == TrueCount(front, p) {
          assert Counter(m, p) == TrueCount(chunks, p);
        }
        ExactTotal(front, m');
      } else {
        forall p: NodeId ensures Counter(m, p) == TrueCount(front, p) {
          assert Counter(m, p) == TrueCount(chunks, p);
        }
        ExactTotal(front, m);
      }
    }
  }

  /** On such a run at most two chunks are in flight per peer and at most four in all. */
  lemma InFlightLimits(hash: Bytes -> nat, interval: nat, es: seq<Event>, p: NodeId)
    requires NoBadChunks(hash, interval, es) && Run(hash, interval, es).state.Fetching?
    ensures var f := Run(hash, interval, es).state.f;
      TrueCount(f.chunks, p) <= 2 && InFlightTotal(f.chunks) <= 4
  {
    hide Run, NoBadChunks, LogSlot, SlotOk, TrueCount, LogFinal, RestoresOk;
    RunOk(hash, interval, es);
    CountersExactWithoutBadChunks(hash, interval, es);
    var f := Run(hash, interval, es).state.f;
    forall q: NodeId ensures Counter(f.counters, q) == TrueCount(f.chunks, q) { assert Gap(f, q) == 0; }
    ExactTotal(f.chunks, f.counters);
  }

  // ---------------------------------------------------------------------------
  // Slots left waiting for a peer that is gone

  lemma {:induction false} WithoutDrops(cs: seq<NodeId>, peer: NodeId)
    ensures peer !in Without(cs, peer)
  {
    if cs == [] {
    } else {
      WithoutDrops(cs[..|cs| - 1], peer);
    }
  }

  /** Nothing is sent to a peer that is not a candidate. */
  lemma {:induction false} ScheduleSkips(f: Fetch, p: NodeId)
    requires p !in f.candidates
    ensures TrueCount(Schedule(f).0.chunks, p) == TrueCount(f.chunks, p)
    decreases MAX_CONCURRENT - MapSum(f.counters)
  {
    hide TrueCount, Pick, MapSum;
    if MapSum(f.counters) < MAX_CONCURRENT && Pick(f, 0).Some? {
      var q := Pick(f, 0).value;
      PickExact(f, 0);
      SentSum(f, q);
      TrueCountUpdate(f.chunks, q.0, f.chunks[q.0].(status := InFlight(q.1)), p);
      ScheduleSkips(Send(f, q), p);
    }
  }

  /**
   * When a peer disconnects and the download goes on, no slot is left waiting for it if and only if
   * it was still a candidate or had no slot in flight: a peer dropped after a failed verification
   * keeps its other slots, and its disconnection is then ignored.
   */
  lemma DisconnectFreesSlotsIff(f: Fetch, peer: NodeId)
    requires OnDisconnect(f, peer).state.Fetching?
    ensures TrueCount(OnDisconnect(f, peer).state.f.chunks, peer) == 0 <==>
      peer in f.candidates || TrueCount(f.chunks, peer) == 0
  {
    hide TrueCount, Without, Schedule;
    if peer in f.candidates {
      var f1 := DropPeer(f, peer);
      var chunks := Disconnected(f1.chunks, f1.candidates, peer, 0).value;
      DisconnectedExact(f1.chunks, f1.candidates, peer, 0);
      TrueCountZero(chunks, peer);
      WithoutDrops(f.candidates, peer);
      ScheduleSkips(f1.(chunks := chunks), peer);
    }
  }

  // ---------------------------------------------------------------------------
  // Slots in flight on runs with failed verifications

  /** How many slots in flight no counter accounts for. */
  ghost function Lag(f: Fetch): int { InFlightTotal(f.chunks) - MapSum(f.counters) }

  lemma {:induction false} InFlightUpdate(chunks: seq<Slot>, i: nat, slot: Slot)
    requires i < |chunks|
    ensures InFlightTotal(chunks[i := slot]) == InFlightTotal(chunks)
      - (if chunks[i].status.InFlight? then 1 else 0) + (if slot.status.InFlight? then 1 else 0)
  {
    var n := |chunks| - 1;
    if i < n {
      InFlightUpdate(chunks[..n], i, slot);
      assert chunks[i := slot][..n] == chunks[..n][i := slot];
    } else {
      assert chunks[i := slot][..n] == chunks[..n];
    }
  }

  lemma {:induction false} InFlightDropped(before: seq<Slot>, after: seq<Slot>, peer: NodeId)
    requires |before| == |after|
    requires forall j :: 0 <= j < |before| ==>
      after[j] == if before[j].status == InFlight(peer) then Failed(before[j], peer) else before[j]
    ensures InFlightTotal(after) == InFlightTotal(before) - TrueCount(before, peer)
  {
    if before == [] {
    } else {
      InFlightDropped(before[..|before| - 1], after[..|after| - 1], peer);
    }
  }

  lemma {:induction false} ScheduleLag(f: Fetch)
    ensures Lag(Schedule(f).0) == Lag(f)
    decreases MAX_CONCURRENT - MapSum(f.counters)
  {
    hide Pick, Schedule, MapSum, InFlightTotal;
    ScheduleTurn(f);
    if MapSum(f.counters) < MAX_CONCURRENT && Pick(f, 0).Some? {
      var q := Pick(f, 0).value;
      PickExact(f, 0);
      InFlightUpdate(f.chunks, q.0, f.chunks[q.0].(status := InFlight(q.1)));
      ScheduleLag(Send(f, q));
    }
  }

  lemma AnsweredLag(f: Fetch, from: NodeId, idx: nat, slot: Slot)
    requires idx < |f.chunks| && f.chunks[idx].status == InFlight(from) && !slot.status.InFlight?
    ensures Lag(CountDown(f, from).(chunks := f.chunks[idx := slot])) <= Lag(f)
  {
    hide MapSum, InFlightTotal;
    InFlightUpdate(f.chunks, idx, slot);
    if from in f.counters { MapSumUpdate(f.counters, from, if f.counters[from] == 0 then 0 else f.counters[from] - 1); }
  }

  lemma DropLag(f: Fetch, peer: NodeId)
    ensures Lag(DropPeer(f, peer)) == Lag(f) + Counter(f.counters, peer)
  {
    hide MapSum, InFlightTotal, Without;
    if peer in f.counters { MapSumRemove(f.counters, peer); } else { assert f.counters - {peer} == f.counters; }
  }

  /** The state, if still fetching, lags by no more than the bound. */
  ghost predicate LagsBy(s: State, bound: int) { s.Fetching? ==> Lag(s.f) <= bound }

  lemma ScheduledLag(f: Fetch, bound: int)
    requires Lag(f) <= bound
    ensures LagsBy(Scheduled(f).state, bound) && LagsBy(ScheduleOrAbort(f).state, bound)
  {
    hide Lag, Schedule;
    ScheduleLag(f);
  }

  /** An accepted response adds at most one to the lag, and only if it fails verification. */
  lemma ChunkLag(hash: Bytes -> nat, f: Fetch, e: Event, bound: int)
    requires Bounded(f.counters) && Lag(f) <= bound && e.ChunkResponse?
    ensures LagsBy(OnChunk(hash, f, e.from, e.atHeight, e.idx, e.payload).state, bound + if BadChunk(hash, Fetching(f), e) then 1 else 0)
  {
    hide Lag, ScheduleOrAbort, MapSum, Without;
    if Accepted(f, e.from, e.atHeight, e.idx) {
      var slot, f1 := f.chunks[e.idx], CountDown(f, e.from);
      var failed := AfterFailure(f1, e.from, e.idx);
      AnsweredLag(f, e.from, e.idx, Failed(slot, e.from));
      if e.payload.None? {
        ScheduledLag(failed, bound);
      } else if BadChunk(hash, Fetching(f), e) {
        DropLag(failed, e.from);
        ScheduledLag(DropPeer(failed, e.from), bound + 1);
      } else {
        var done := slot.(status := Received(e.payload.value));
        AnsweredLag(f, e.from, e.idx, done);
        ScheduledLag(f1.(chunks := f1.chunks[e.idx := done]), bound);
      }
    }
  }

  lemma DisconnectLag(f: Fetch, peer: NodeId, bound: int)
    requires CountersLow(f) && Lag(f) <= bound
    ensures LagsBy(OnDisconnect(f, peer).state, bound)
  {
    hide MapSum, InFlightTotal, TrueCount, Without, ScheduleOrAbort;
    var f1 := DropPeer(f, peer);
    if Disconnected(f1.chunks, f1.candidates, peer, 0).Ok? {
      DisconnectedExact(f1.chunks, f1.candidates, peer, 0);
      var chunks := Disconnected(f1.chunks, f1.candidates, peer, 0).value;
      InFlightDropped(f.chunks, chunks, peer);
      DropLag(f, peer);
      assert Gap(f, peer) >= 0;
      ScheduledLag(f1.(chunks := chunks), bound);
    }
  }

  lemma CandidateLag(f: Fetch, peer: NodeId, bound: int)
    requires Lag(f) <= bound
    ensures LagsBy(Scheduled(WithCandidate(f, peer)).state, bound)
  {
    hide MapSum, InFlightTotal, Scheduled;
    MapSumUpdate(f.counters, peer, 0);
    ScheduledLag(WithCandidate(f, peer), bound);
  }

  lemma FreshLag(m: Manifest, peers: set<NodeId>, bound: nat)
    ensures LagsBy(Scheduled(FreshFetch(m, peers)).state, bound)
  {
    hide Scheduled, Sorted;
    var f := FreshFetch(m, peers);
    forall p: NodeId ensures Counter(f.counters, p) == TrueCount(f.chunks, p) { FreshGap(m, peers, p); }
    ExactTotal(f.chunks, f.counters);
    ScheduledLag(f, bound);
  }

  lemma StepLag(hash: Bytes -> nat, interval: nat, log: seq<Request>, s: State, e: Event, bound: nat)
    requires StateOk(hash, log, s) && LagsBy(s, bound)
    ensures LagsBy(Step(hash, interval, s, e).state, bound + if BadChunk(hash, s, e) then 1 else 0)
  {
    hide Lag, Scheduled, WithCandidate, FreshFetch, OnChunk, OnDisconnect, BadChunk, LogFinal, AnyInFlight, LogSlot, SlotOk;
    match e
    case ObserveProposal(_, _, p, _) => if s.Fetching? { CandidateLag(s.f, p, bound); }
    case AddCandidate(p) => if s.Fetching? { CandidateLag(s.f, p, bound); }
    case ManifestResponse(_, m, _) =>
      if s.ManifestPending? && m.Some? { FreshLag(m.value, s.waiting + {s.primary}, bound); }
    case ChunkResponse(_, _, _, _) => if s.Fetching? { ChunkLag(hash, s.f, e, bound); }
    case PeerDisconnected(p) => if s.Fetching? { DisconnectLag(s.f, p, bound); }
  }

  /** The failed verifications of a run. */
  ghost function BadChunks(hash: Bytes -> nat, interval: nat, es: seq<Event>): nat {
    if es == [] then 0
    else
      BadChunks(hash, interval, es[..|es| - 1])
      + if BadChunk(hash, Run(hash, interval, es[..|es| - 1]).state, es[|es| - 1]) then 1 else 0
  }

  lemma {:induction false} RunLag(hash: Bytes -> nat, interval: nat, es: seq<Event>)
    ensures LagsBy(Run(hash, interval, es).state, BadChunks(hash, interval, es))
  {
    hide Lag, Step, BadChunk, StateOk;
    if es == [] {
    } else {
      var front := es[..|es| - 1];
      RunLag(hash, interval, front);
      RunOk(hash, interval, front);
      var r := Run(hash, interval, front);
      StepLag(hash, interval, LogOf(r.actions), r.state, es[|es| - 1], BadChunks(hash, interval, front));
    }
  }

  /** Over every run, at most four chunks are in flight beyond one for each failed verification so far. */
  lemma InFlightBound(hash: Bytes -> nat, interval: nat, es: seq<Event>)
    requires Run(hash, interval, es).state.Fetching?
    ensures InFlightTotal(Run(hash, interval, es).state.f.chunks) <= 4 + BadChunks(hash, interval, es)
  {
    hide Run, BadChunks, LogSlot, SlotOk, LogFinal, RestoresOk, Gap;
    RunOk(hash, interval, es);
    RunLag(hash, interval, es);
  }
}
