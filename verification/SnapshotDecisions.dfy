/**
 * Exactly when a download gives up, and what it does instead: the decisions behind every answer,
 * refusal and disconnection, and what the scheduler sends.
 */
module SnapshotDecisions {
  import opened Common
  import opened SnapshotChunks
  import opened SnapshotSync
  import opened SnapshotRuns

  // ---------------------------------------------------------------------------
  // What the scheduler sends

  /** None of the candidates from `j` up to `k` can serve the slot. */
  predicate Unfit(f: Fetch, slot: Slot, j: nat, k: nat)
    requires k <= |f.candidates|
  {
    forall l :: j <= l < k ==> f.candidates[l] in slot.tried || Counter(f.counters, f.candidates[l]) >= 2
  }

  lemma {:induction false} EligibleFirst(f: Fetch, slot: Slot, j: nat)
    requires j <= |f.candidates| && EligiblePeer(f, slot, j).Some?
    ensures exists k :: j <= k < |f.candidates| && f.candidates[k] == EligiblePeer(f, slot, j).value && Unfit(f, slot, j, k)
    decreases |f.candidates| - j
  {
    var p := f.candidates[j];
    if p in slot.tried || Counter(f.counters, p) >= 2 { EligibleFirst(f, slot, j + 1); }
  }

  lemma {:induction false} PickFirst(f: Fetch, i: nat)
    requires i <= |f.chunks| && Pick(f, i).Some?
    ensures var q := Pick(f, i).value;
      && i <= q.0 < |f.chunks| && (forall r: Request :: i <= r.0 < q.0 ==> !Sendable(f, r))
      && exists k :: 0 <= k < |f.candidates| && f.candidates[k] == q.1 && forall l :: 0 <= l < k ==> !Sendable(f, (q.0, f.candidates[l]))
    decreases |f.chunks| - i
  {
    EligibleSound(f, f.chunks[i], 0);
    if f.chunks[i].status.Pending? && EligiblePeer(f, f.chunks[i], 0).Some? {
      EligibleFirst(f, f.chunks[i], 0);
      var k :| 0 <= k < |f.candidates| && f.candidates[k] == EligiblePeer(f, f.chunks[i], 0).value && Unfit(f, f.chunks[i], 0, k);
      assert forall l :: 0 <= l < k ==> !Sendable(f, (i, f.candidates[l]));
    } else {
      PickFirst(f, i + 1);
    }
  }

  /** What is sent next is for the first slot that anybody can serve, to the first candidate that can. */
  lemma NextIsFirst(f: Fetch)
    requires Pick(f, 0).Some?
    ensures var q := Pick(f, 0).value;
      && Sendable(f, q) && (forall r: Request :: r.0 < q.0 ==> !Sendable(f, r))
      && exists k :: 0 <= k < |f.candidates| && f.candidates[k] == q.1 && forall l :: 0 <= l < k ==> !Sendable(f, (q.0, f.candidates[l]))
  {
    hide Pick, Sendable;
    PickExact(f, 0);
    PickFirst(f, 0);
  }

  /** A slot is untouched, or it was pending and is now in flight at a candidate it has not tried. */
  predicate Advanced(f: Fetch, before: Slot, after: Slot) {
    || after == before
    || (before.status.Pending? && after.status.InFlight? && after == before.(status := after.status)
        && after.status.peer in f.candidates && after.status.peer !in before.tried)
  }

  /** Every request sent is for a slot that it puts in flight, and every such slot is requested. */
  predicate SentFor(f: Fetch, g: Fetch, sent: seq<Request>) {
    && |g.chunks| == |f.chunks|
    && (forall q :: q in sent ==> q.0 < |f.chunks| && f.chunks[q.0].status.Pending? && g.chunks[q.0].status == InFlight(q.1))
    && (forall i :: 0 <= i < |f.chunks| && g.chunks[i] != f.chunks[i] ==>
          g.chunks[i].status.InFlight? && (i, g.chunks[i].status.peer) in sent)
  }

  /** The scheduler only puts pending slots in flight, requests exactly those, and goes on while it can. */
  lemma {:induction false} ScheduleExact(f: Fetch)
    ensures var (g, sent) := Schedule(f);
      && g.manifest == f.manifest && g.candidates == f.candidates && SentFor(f, g, sent)
      && (forall i :: 0 <= i < |f.chunks| ==> Advanced(f, f.chunks[i], g.chunks[i]))
      && (MapSum(g.counters) >= 4 || forall q: Request :: !Sendable(g, q))
    decreases MAX_CONCURRENT - MapSum(f.counters)
  {
    hide MapSum, Pick;
    ScheduleTurn(f);
    PickExact(f, 0);
    if MapSum(f.counters) < MAX_CONCURRENT && Pick(f, 0).Some? {
      hide Schedule;
      var q := Pick(f, 0).value;
      ScheduleExact(Send(f, q));
      var g := Schedule(f).0;
      assert g.chunks[q.0] == Send(f, q).chunks[q.0];
    }
  }

  /** Each request sent names the snapshot of the manifest, and there is one for each slot put in flight. */
  lemma RequestsNameSnapshot(f: Fetch)
    ensures var out, g := Scheduled(f), Schedule(f).0;
      && out.state == Fetching(g) && |g.chunks| == |f.chunks|
      && (forall a :: a in out.actions ==>
            a.SendChunkRequest? && a.height == f.manifest.height && a.idx < |g.chunks| && g.chunks[a.idx].status == InFlight(a.peer))
      && (forall i :: 0 <= i < |f.chunks| && g.chunks[i] != f.chunks[i] ==>
            g.chunks[i].status.InFlight? && SendChunkRequest(g.chunks[i].status.peer, f.manifest.height, i) in out.actions)
  {
    hide Schedule;
    ScheduleExact(f);
    var (g, sent) := Schedule(f);
    var acts := Scheduled(f).actions;
    forall i | 0 <= i < |f.chunks| && g.chunks[i] != f.chunks[i]
      ensures g.chunks[i].status.InFlight? && SendChunkRequest(g.chunks[i].status.peer, f.manifest.height, i) in acts
    {
      var k :| 0 <= k < |sent| && sent[k] == (i, g.chunks[i].status.peer);
      assert acts[k] == SendChunkRequest(g.chunks[i].status.peer, f.manifest.height, i);
    }
    forall a | a in acts
      ensures a.SendChunkRequest? && a.height == f.manifest.height && a.idx < |g.chunks| && g.chunks[a.idx].status == InFlight(a.peer)
    {
      var k :| 0 <= k < |acts| && acts[k] == a;
      assert sent[k] in sent;
    }
  }

  // ---------------------------------------------------------------------------
  // When it gives up

  /** Some candidate has not been asked for this slot. */
  predicate Untried(f: Fetch, slot: Slot) { exists c :: c in f.candidates && c !in slot.tried }

  lemma NoneInFlightNoCount(f: Fetch)
    requires CountersLow(f) && !AnyInFlight(f.chunks)
    ensures MapSum(f.counters) == 0 && forall p: NodeId :: Counter(f.counters, p) == 0
  {
    hide MapSum, TrueCount;
    forall p: NodeId ensures Counter(f.counters, p) == 0 {
      TrueCountZero(f.chunks, p);
      assert Gap(f, p) >= 0;
    }
    forall p | p in f.counters ensures f.counters[p] == 0 { assert Counter(f.counters, p) == 0; }
    ZeroSum(f.counters);
  }

  /** The last look before giving up: nothing in flight, and no pending slot has anybody left to ask. */
  lemma ScheduleOrAbortIff(f: Fetch)
    requires CountersLow(f)
    ensures ScheduleOrAbort(f).state.Aborted? <==>
      && !AnyInFlight(f.chunks) && AnyPending(f.chunks)
      && forall i :: 0 <= i < |f.chunks| && f.chunks[i].status.Pending? ==> !Untried(f, f.chunks[i])
    ensures ScheduleOrAbort(f).state.Aborted? ==> ScheduleOrAbort(f).actions == [Abort(CandidatesExhausted)]
    ensures !ScheduleOrAbort(f).state.Aborted? ==> ScheduleOrAbort(f) == Scheduled(f)
  {
    hide MapSum, Schedule, Gap;
    ScheduleShape(f);
    ScheduleExact(f);
    if !AnyInFlight(f.chunks) {
      NoneInFlightNoCount(f);
      if i :| 0 <= i < |f.chunks| && f.chunks[i].status.Pending? && Untried(f, f.chunks[i]) {
        var c :| c in f.candidates && c !in f.chunks[i].tried;
        assert Sendable(f, (i, c));
      }
    }
  }

  lemma {:induction false} WithoutExact(cs: seq<NodeId>, peer: NodeId, c: NodeId)
    ensures c in Without(cs, peer) <==> c in cs && c != peer
  {
    if cs == [] {
    } else {
      WithoutExact(cs[..|cs| - 1], peer, c);
      assert cs == cs[..|cs| - 1] + [cs[|cs| - 1]];
    }
  }

  /** A third failure, or nobody left who has not been asked for the chunk. */
  predicate Exhausted(f: Fetch, slot: Slot, peer: NodeId) {
    slot.attempts >= 2 || forall c :: c in f.candidates ==> c in slot.tried || c == peer
  }

  function GiveUpReason(idx: nat, attempts: nat, alone: bool): AbortReason {
    if attempts < 3 && alone then CandidatesExhausted else ChunkRetryBudgetExhausted(idx, attempts)
  }

  lemma CheckAbortIff(f: Fetch, slot: Slot, peer: NodeId, idx: nat, candidates: seq<NodeId>)
    requires forall c :: c in candidates ==> c in f.candidates
    requires forall c :: c in f.candidates && c != peer ==> c in candidates
    ensures CheckAbort(Failed(slot, peer), idx, candidates).Some? <==> Exhausted(f, slot, peer)
    ensures Exhausted(f, slot, peer) ==>
      CheckAbort(Failed(slot, peer), idx, candidates) == Some(GiveUpReason(idx, slot.attempts + 1, candidates == []))
  {
    if candidates != [] { assert candidates[0] in candidates; }
    if c :| c in f.candidates && c !in slot.tried && c != peer { assert c in candidates; }
  }

  /** A chunk that was not delivered: the peer declined, or what it sent does not verify. */
  predicate Undelivered(hash: Bytes -> nat, f: Fetch, idx: nat, payload: Option<Bytes>) {
    payload.None? || !ChunkVerifies(hash, f.manifest, idx, payload.value)
  }

  /** The download after an undelivered chunk, before anything new is sent. */
  function AfterUndelivered(f: Fetch, from: NodeId, idx: nat, declined: bool): Fetch
    requires idx < |f.chunks|
  {
    var g := AfterFailure(CountDown(f, from), from, idx);
    if declined then g else DropPeer(g, from)
  }

  lemma UndeliveredLow(hash: Bytes -> nat, log: seq<Request>, f: Fetch, from: NodeId, idx: nat, declined: bool)
    requires Good(hash, log, f) && idx < |f.chunks| && f.chunks[idx].status == InFlight(from)
    ensures CountersLow(AfterUndelivered(f, from, idx, declined))
  {
    hide TrueCount, CountDown, Without;
    CountDownChunks(f, from);
    var failed := Failed(f.chunks[idx], from);
    assert AfterFailure(CountDown(f, from), from, idx) == CountDown(f, from).(chunks := f.chunks[idx := failed]);
    forall p: NodeId ensures Gap(AfterUndelivered(f, from, idx, declined), p) >= 0 {
      assert Gap(f, p) >= 0;
      AnsweredGap(f, from, idx, failed, p);
    }
  }

  lemma CountDownChunks(f: Fetch, from: NodeId)
    ensures CountDown(f, from).chunks == f.chunks && CountDown(f, from).candidates == f.candidates
    ensures CountDown(f, from).manifest == f.manifest
  {
  }

  /**
   * An undelivered chunk ends the download if and only if it is the slot's third failure or nobody is
   * left who has not been asked for it. Otherwise the peer is remembered as tried; it stays a candidate
   * if it declined, and is dropped if it sent a bad chunk. The chunk is pending or in flight at somebody
   * not tried, and every other slot is as it was or newly in flight.
   */
  lemma UndeliveredIff(hash: Bytes -> nat, log: seq<Request>, f: Fetch, from: NodeId, height: nat, idx: nat, payload: Option<Bytes>)
    requires Good(hash, log, f) && Accepted(f, from, height, idx) && Undelivered(hash, f, idx, payload)
    ensures var out := OnChunk(hash, f, from, height, idx, payload);
      var alone := forall c :: c in f.candidates ==> payload.Some? && c == from;
      && (out.state.Aborted? <==> Exhausted(f, f.chunks[idx], from))
      && (out.state.Aborted? ==> out.actions == [Abort(GiveUpReason(idx, f.chunks[idx].attempts + 1, alone))])
      && (!out.state.Aborted? ==> out.state.Fetching? && WentOn(f, from, idx, payload.None?, out.state.f))
  {
    hide Good, TrueCount, CountDown, Without, Schedule, ScheduleOrAbort;
    var g := AfterUndelivered(f, from, idx, payload.None?);
    CountDownChunks(f, from);
    UndeliveredLow(hash, log, f, from, idx, payload.None?);
    forall c ensures c in Without(f.candidates, from) <==> c in f.candidates && c != from { WithoutExact(f.candidates, from, c); }
    CheckAbortIff(f, f.chunks[idx], from, idx, g.candidates);
    ScheduleOrAbortIff(g);
    if g.candidates != [] { assert g.candidates[0] in g.candidates; }
    if !Exhausted(f, f.chunks[idx], from) {
      var c :| c in f.candidates && c !in f.chunks[idx].tried && c != from;
      assert g.chunks[idx].status.Pending? && Untried(g, g.chunks[idx]);
      ScheduleExact(g);
      WentOnBy(f, from, idx, payload.None?, g);
    }
  }

  /** What an undelivered chunk leaves when the download goes on. */
  predicate WentOn(f: Fetch, from: NodeId, idx: nat, declined: bool, g: Fetch)
    requires idx < |f.chunks|
  {
    && g.manifest == f.manifest && |g.chunks| == |f.chunks|
    && (forall c :: c in g.candidates ==> c in f.candidates) && (forall c :: c in f.candidates && c != from ==> c in g.candidates)
    && (declined ==> g.candidates == f.candidates) && (!declined ==> from !in g.candidates)
    && g.chunks[idx].tried == f.chunks[idx].tried + {from} && g.chunks[idx].attempts == f.chunks[idx].attempts + 1
    && !g.chunks[idx].status.Received?
    && (g.chunks[idx].status.InFlight? ==>
          g.chunks[idx].status.peer in g.candidates && g.chunks[idx].status.peer !in g.chunks[idx].tried)
    && (forall i :: 0 <= i < |f.chunks| && i != idx ==> Advanced(f, f.chunks[i], g.chunks[i]))
  }

  lemma WentOnBy(f: Fetch, from: NodeId, idx: nat, declined: bool, m: Fetch)
    requires idx < |f.chunks| && m == AfterUndelivered(f, from, idx, declined)
    requires Schedule(m).0.candidates == m.candidates && Schedule(m).0.manifest == m.manifest && |Schedule(m).0.chunks| == |m.chunks|
    requires forall i :: 0 <= i < |m.chunks| ==> Advanced(m, m.chunks[i], Schedule(m).0.chunks[i])
    ensures WentOn(f, from, idx, declined, Schedule(m).0)
  {
    hide Schedule, CountDown, Without;
    CountDownChunks(f, from);
    var g := Schedule(m).0;
    forall c ensures c in Without(f.candidates, from) <==> c in f.candidates && c != from { WithoutExact(f.candidates, from, c); }
    forall i | 0 <= i < |f.chunks| && i != idx ensures Advanced(f, f.chunks[i], g.chunks[i]) {
      assert Advanced(m, m.chunks[i], g.chunks[i]) && m.chunks[i] == f.chunks[i];
    }
    assert Advanced(m, m.chunks[idx], g.chunks[idx]);
  }

  /**
   * A delivered chunk ends the download in its restore if it was the last one missing. It ends it in an
   * abort if and only if others are missing, none of them is in flight, and for none of them anybody is
   * left to ask. Otherwise the chunk is kept.
   */
  lemma DeliveredIff(hash: Bytes -> nat, log: seq<Request>, f: Fetch, from: NodeId, height: nat, idx: nat, p: Bytes)
    requires Good(hash, log, f) && Accepted(f, from, height, idx) && ChunkVerifies(hash, f.manifest, idx, p)
    ensures var out := OnChunk(hash, f, from, height, idx, Some(p));
      && (out.state.Done? <==> forall i :: 0 <= i < |f.chunks| && i != idx ==> f.chunks[i].status.Received?)
      && (out.state.Aborted? <==>
            && (exists i :: 0 <= i < |f.chunks| && i != idx && f.chunks[i].status.Pending?)
            && forall i :: 0 <= i < |f.chunks| && i != idx ==>
                 !f.chunks[i].status.InFlight? && (f.chunks[i].status.Pending? ==> !Untried(f, f.chunks[i])))
      && (out.state.Fetching? ==>
            && out.state.f.candidates == f.candidates && out.state.f.manifest == f.manifest && |out.state.f.chunks| == |f.chunks|
            && out.state.f.chunks[idx] == f.chunks[idx].(status := Received(p))
            && forall i :: 0 <= i < |f.chunks| && i != idx ==> Advanced(f, f.chunks[i], out.state.f.chunks[i]))
      && (out.state.Done? || out.state.Aborted? || out.state.Fetching?)
  {
    hide LogSlot, SlotOk, Bounded, Distinct, InRange, TrueCount, CountDown, Schedule, ScheduleOrAbort, Concat;
    var done := f.chunks[idx].(status := Received(p));
    var g := CountDown(f, from).(chunks := f.chunks[idx := done]);
    CountDownChunks(f, from);
    forall q: NodeId ensures Gap(g, q) >= 0 {
      assert Gap(f, q) >= 0;
      AnsweredGap(f, from, idx, done, q);
    }
    ScheduleOrAbortIff(g);
    ScheduleExact(g);
    forall i | 0 <= i < |f.chunks| && i != idx ensures g.chunks[i] == f.chunks[i] && (Untried(g, g.chunks[i]) <==> Untried(f, f.chunks[i])) {
    }
    assert AllReceived(g.chunks) <==> forall i :: 0 <= i < |f.chunks| && i != idx ==> f.chunks[i].status.Received?;
    DeliveredParts(f, g, idx, p);
    if !AllReceived(g.chunks) {
      var i :| 0 <= i < |f.chunks| && i != idx && !f.chunks[i].status.Received?;
      assert f.chunks[i].status.Pending? || f.chunks[i].status.InFlight?;
      assert g.chunks[i].status.Pending? ==> AnyPending(g.chunks);
      assert g.chunks[i].status.InFlight? ==> AnyInFlight(g.chunks);
    }
  }

  lemma DeliveredParts(f: Fetch, g: Fetch, idx: nat, p: Bytes)
    requires idx < |f.chunks| && g.chunks == f.chunks[idx := f.chunks[idx].(status := Received(p))] && g.candidates == f.candidates
    ensures AnyPending(g.chunks) <==> exists i :: 0 <= i < |f.chunks| && i != idx && f.chunks[i].status.Pending?
    ensures AnyInFlight(g.chunks) <==> exists i :: 0 <= i < |f.chunks| && i != idx && f.chunks[i].status.InFlight?
    ensures var h := Schedule(g).0;
      && |h.chunks| == |f.chunks| && h.chunks[idx] == g.chunks[idx]
      && forall i :: 0 <= i < |f.chunks| && i != idx ==> Advanced(f, f.chunks[i], h.chunks[i])
  {
    hide Schedule;
    ScheduleExact(g);
    var h := Schedule(g).0;
    assert Advanced(g, g.chunks[idx], h.chunks[idx]);
    forall i | 0 <= i < |f.chunks| && i != idx ensures Advanced(f, f.chunks[i], h.chunks[i]) {
      assert Advanced(g, g.chunks[i], h.chunks[i]) && g.chunks[i] == f.chunks[i];
    }
    if i :| 0 <= i < |f.chunks| && i != idx && f.chunks[i].status.Pending? { assert g.chunks[i].status.Pending?; }
    if i :| 0 <= i < |f.chunks| && i != idx && f.chunks[i].status.InFlight? { assert g.chunks[i].status.InFlight?; }
    if AnyPending(g.chunks) {
      var i :| 0 <= i < |g.chunks| && g.chunks[i].status.Pending?;
      assert i != idx && f.chunks[i].status.Pending?;
    }
    if AnyInFlight(g.chunks) {
      var i :| 0 <= i < |g.chunks| && g.chunks[i].status.InFlight?;
      assert i != idx && f.chunks[i].status.InFlight?;
    }
  }

  /** The machine reacts to a chunk response if and only if it is for its snapshot and from the peer the slot waits for. */
  lemma ReactsIff(hash: Bytes -> nat, log: seq<Request>, f: Fetch, from: NodeId, height: nat, idx: nat, payload: Option<Bytes>)
    requires Good(hash, log, f)
    ensures OnChunk(hash, f, from, height, idx, payload).state != Fetching(f) <==>
      height == f.manifest.height && idx < |f.chunks| && f.chunks[idx].status == InFlight(from)
    ensures OnChunk(hash, f, from, height, idx, payload).state == Fetching(f) ==>
      OnChunk(hash, f, from, height, idx, payload) == Outcome(Fetching(f), [])
  {
    hide Good, OnChunk;
    if height == f.manifest.height && idx < |f.chunks| && f.chunks[idx].status == InFlight(from) {
      if payload.Some? && ChunkVerifies(hash, f.manifest, idx, payload.value) {
        DeliveredIff(hash, log, f, from, height, idx, payload.value);
      } else {
        UndeliveredIff(hash, log, f, from, height, idx, payload);
      }
    } else {
      IgnoredChunk(hash, f, from, height, idx, payload);
    }
  }

  /** The loop over the slots gives up exactly at a slot of the peer that is exhausted. */
  lemma {:induction false} DisconnectedIff(f: Fetch, chunks: seq<Slot>, candidates: seq<NodeId>, peer: NodeId, i: nat)
    requires i <= |chunks|
    requires forall c :: c in candidates <==> c in f.candidates && c != peer
    ensures Disconnected(chunks, candidates, peer, i).Err? <==>
      exists j :: i <= j < |chunks| && chunks[j].status == InFlight(peer) && Exhausted(f, chunks[j], peer)
    decreases |chunks| - i
  {
    hide Exhausted, CheckAbort;
    if i < |chunks| {
      if chunks[i].status != InFlight(peer) {
        DisconnectedIff(f, chunks, candidates, peer, i + 1);
      } else {
        CheckAbortIff(f, chunks[i], peer, i, candidates);
        if !Exhausted(f, chunks[i], peer) {
          var later := chunks[i := Failed(chunks[i], peer)];
          DisconnectedIff(f, later, candidates, peer, i + 1);
          assert forall j :: i + 1 <= j < |chunks| ==> later[j] == chunks[j];
        }
      }
    }
  }

  /**
   * The disconnection of a candidate ends the download if and only if a slot in flight at it fails for
   * the third time or has nobody left to ask. Otherwise the peer is no candidate any more and each of
   * its slots has failed once more; the disconnection of anybody else changes nothing.
   */
  lemma DisconnectIff(hash: Bytes -> nat, log: seq<Request>, f: Fetch, peer: NodeId)
    requires StateOk(hash, log, Fetching(f))
    ensures peer !in f.candidates ==> OnDisconnect(f, peer) == Outcome(Fetching(f), [])
    ensures peer in f.candidates ==>
      (OnDisconnect(f, peer).state.Aborted? <==>
        exists j :: 0 <= j < |f.chunks| && f.chunks[j].status == InFlight(peer) && Exhausted(f, f.chunks[j], peer))
    ensures peer in f.candidates && !OnDisconnect(f, peer).state.Aborted? ==>
      var s := OnDisconnect(f, peer).state;
      && s.Fetching? && s.f.manifest == f.manifest && |s.f.chunks| == |f.chunks|
      && (forall c :: c in s.f.candidates <==> c in f.candidates && c != peer)
      && forall j :: 0 <= j < |f.chunks| ==>
           Advanced(s.f, if f.chunks[j].status == InFlight(peer) then Failed(f.chunks[j], peer) else f.chunks[j], s.f.chunks[j])
  {
    hide Good, TrueCount, Without, Schedule, ScheduleOrAbort, Disconnected, Exhausted;
    if peer in f.candidates {
      var f1 := DropPeer(f, peer);
      forall c ensures c in f1.candidates <==> c in f.candidates && c != peer { WithoutExact(f.candidates, peer, c); }
      DisconnectedIff(f, f.chunks, f1.candidates, peer, 0);
      if Disconnected(f1.chunks, f1.candidates, peer, 0).Ok? {
        var chunks := Disconnected(f1.chunks, f1.candidates, peer, 0).value;
        DisconnectedExact(f1.chunks, f1.candidates, peer, 0);
        var g := f1.(chunks := chunks);
        DisconnectGood(hash, log, f, peer, chunks);
        GoodIsLow(hash, log, g);
        ScheduleOrAbortIff(g);
        ScheduleExact(g);
        if f.chunks != [] { StillAsked(f, g, peer); }
        forall j | 0 <= j < |f.chunks| ensures Advanced(Schedule(g).0, chunks[j], Schedule(g).0.chunks[j]) {
          assert Advanced(g, chunks[j], Schedule(g).0.chunks[j]);
        }
      }
    }
  }

  lemma GoodIsLow(hash: Bytes -> nat, log: seq<Request>, f: Fetch)
    requires Good(hash, log, f)
    ensures CountersLow(f)
  {
  }

  /** A slot in flight elsewhere stays so; one that has failed has somebody left to ask. */
  lemma StillAsked(f: Fetch, g: Fetch, peer: NodeId)
    requires AnyInFlight(f.chunks) && |g.chunks| == |f.chunks|
    requires forall c :: c in g.candidates <==> c in f.candidates && c != peer
    requires forall j :: 0 <= j < |f.chunks| ==>
      g.chunks[j] == if f.chunks[j].status == InFlight(peer) then Failed(f.chunks[j], peer) else f.chunks[j]
    requires forall j :: 0 <= j < |f.chunks| && f.chunks[j].status == InFlight(peer) ==> !Exhausted(f, f.chunks[j], peer)
    ensures AnyInFlight(g.chunks) || exists j :: 0 <= j < |g.chunks| && g.chunks[j].status.Pending? && Untried(g, g.chunks[j])
  {
    var j :| 0 <= j < |f.chunks| && f.chunks[j].status.InFlight?;
    if f.chunks[j].status == InFlight(peer) {
      var c :| c in f.candidates && c !in f.chunks[j].tried && c != peer;
      assert g.chunks[j].status.Pending? && Untried(g, g.chunks[j]);
    } else {
      assert g.chunks[j].status.InFlight?;
    }
  }

  // ---------------------------------------------------------------------------
  // How a download starts

  /** The last word on a peer: a proposal of it as a validator, unless it disconnected since. */
  function Known(interval: nat, es: seq<Event>, p: NodeId): bool {
    if es == [] then false
    else
      match es[|es| - 1]
      case ObserveProposal(_, _, proposer, isValidator) =>
        (proposer == p && isValidator && interval > 0) || Known(interval, es[..|es| - 1], p)
      case PeerDisconnected(q) => q != p && Known(interval, es[..|es| - 1], p)
      case _ => Known(interval, es[..|es| - 1], p)
  }

  /** The peers a waiting machine remembers. */
  function Remembered(s: State): set<NodeId> {
    match s
    case Idle(observed) => observed
    case ManifestPending(primary, waiting) => waiting + {primary}
    case _ => {}
  }

  lemma RememberStep(hash: Bytes -> nat, interval: nat, s: State, e: Event, p: NodeId)
    requires s.Idle? || s.ManifestPending?
    ensures var now := Step(hash, interval, s, e).state;
      now.Idle? || now.ManifestPending? ==>
        (p in Remembered(now) <==>
          match e
          case ObserveProposal(_, _, proposer, isValidator) => (proposer == p && isValidator && interval > 0) || p in Remembered(s)
          case PeerDisconnected(q) => q != p && p in Remembered(s)
          case _ => p in Remembered(s))
  {
    hide Schedule, FreshFetch;
  }

  /** Over every run, until a download is under way the machine remembers exactly the peers it knows. */
  lemma {:induction false} RemembersKnown(hash: Bytes -> nat, interval: nat, es: seq<Event>, p: NodeId)
    ensures var s := Run(hash, interval, es).state;
      s.Idle? || s.ManifestPending? ==> (p in Remembered(s) <==> Known(interval, es, p))
  {
    hide Step, Remembered;
    if es == [] {
      NothingRemembered(p);
    } else {
      var front, e := es[..|es| - 1], es[|es| - 1];
      var before := Run(hash, interval, front).state;
      RemembersKnown(hash, interval, front, p);
      if before.Idle? || before.ManifestPending? {
        RememberStep(hash, interval, before, e, p);
      } else {
        NeverBack(hash, interval, before, e);
      }
    }
  }

  lemma NothingRemembered(p: NodeId)
    ensures p !in Remembered(Idle({}))
  {
  }

  lemma NeverBack(hash: Bytes -> nat, interval: nat, s: State, e: Event)
    requires !s.Idle? && !s.ManifestPending?
    ensures !Step(hash, interval, s, e).state.Idle? && !Step(hash, interval, s, e).state.ManifestPending?
  {
    hide Schedule, Concat, WithCandidate, DropPeer, Disconnected, CountDown, CheckAbort, AnyInFlight, AnyPending;
  }

  /**
   * An idle machine asks for a manifest if and only if snapshots are enabled and a validator proposes
   * at least the interval above the committed height; it asks that proposer.
   */
  lemma StartIff(hash: Bytes -> nat, interval: nat, s: State, e: Event)
    requires s.Idle?
    ensures var out := Step(hash, interval, s, e);
      && (!out.state.Idle? <==> e.ObserveProposal? && interval > 0 && e.isValidator && e.height >= e.lastCommitted + interval)
      && (!out.state.Idle? ==>
            out.state.ManifestPending? && out.state.primary == e.proposer && out.actions == [SendManifestRequest(e.proposer)])
      && (out.state.Idle? ==> out.actions == [])
  {
  }

  /**
   * The primary's answer starts the download if and only if it is a manifest that verifies, with
   * everybody remembered as candidate and every chunk unasked; any other answer of the primary, and
   * its disconnection, ends it. Nothing else changes the primary or sends anything.
   */
  lemma ManifestIff(hash: Bytes -> nat, interval: nat, s: State, e: Event)
    requires s.ManifestPending?
    ensures var out := Step(hash, interval, s, e);
      var answered := e.ManifestResponse? && e.sender == s.primary;
      && (out.state.Fetching? <==>
            answered && e.manifest.Some? && e.otherChecksPass && e.manifest.value.chunkCount == |e.manifest.value.hashes| && e.manifest.value.chunkSize > 0)
      && (out.state.Fetching? ==> exists f: Fetch :: out == Scheduled(f) && StartsWith(f, e.manifest.value, Remembered(s)))
      && (out.state.Aborted? <==> (answered && !out.state.Fetching?) || e == PeerDisconnected(s.primary))
      && (out.state.Aborted? ==>
            && (e.PeerDisconnected? ==> out.actions == [Abort(CandidatesExhausted)])
            && (answered ==> out.actions == [Abort(if e.manifest.None? then PeerHasNoSnapshot else ManifestVerifyFailed)]))
      && (!out.state.Fetching? && !out.state.Aborted? ==> out.state.ManifestPending? && out.state.primary == s.primary && out.actions == [])
  {
    hide Schedule, Sorted, FreshFetch;
    if e.ManifestResponse? && e.manifest.Some? { FreshStarts(e.manifest.value, s.waiting + {s.primary}); }
  }

  /** A download before its first request. */
  ghost predicate StartsWith(f: Fetch, m: Manifest, peers: set<NodeId>) {
    && f.manifest == m && |f.chunks| == m.chunkCount
    && (forall p :: p in f.candidates <==> p in peers)
    && (forall p: NodeId :: Counter(f.counters, p) == 0)
    && (forall i :: 0 <= i < |f.chunks| ==> f.chunks[i] == Slot(Pending, {}, 0))
  }

  lemma FreshStarts(m: Manifest, peers: set<NodeId>)
    ensures StartsWith(FreshFetch(m, peers), m, peers)
  {
    hide Sorted;
    SortedHasAll(peers);
  }

  /** A new candidate of a download under way joins the others, and the scheduler runs again. */
  lemma CandidateJoins(hash: Bytes -> nat, interval: nat, f: Fetch, e: Event)
    requires e.AddCandidate? || (e.ObserveProposal? && interval > 0 && e.isValidator)
    ensures var p := if e.AddCandidate? then e.candidate else e.proposer;
      exists g: Fetch ::
        && Step(hash, interval, Fetching(f), e) == Scheduled(g)
        && g.manifest == f.manifest && g.chunks == f.chunks
        && (forall c :: c in g.candidates <==> c in f.candidates || c == p)
        && (forall c: NodeId :: Counter(g.counters, c) == Counter(f.counters, c))
  {
    hide Schedule, Scheduled;
    var p := if e.AddCandidate? then e.candidate else e.proposer;
    var g := WithCandidate(f, p);
    assert Step(hash, interval, Fetching(f), e) == Scheduled(g);
  }

  /** A proposal of nobody in the set, or with snapshots disabled, changes nothing in any state. */
  lemma StrangerIgnored(hash: Bytes -> nat, interval: nat, s: State, e: Event)
    requires e.ObserveProposal? && (interval == 0 || !e.isValidator)
    ensures Step(hash, interval, s, e) == Outcome(s, [])
  {
    hide Schedule;
  }
}
