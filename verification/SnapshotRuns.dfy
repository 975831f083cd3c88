/** What holds over every run of the snapshot download. */
module SnapshotRuns {
  import opened Common
  import opened SnapshotChunks
  import opened SnapshotSync

  // ---------------------------------------------------------------------------
  // Slots in flight against counters

  /** How many slots really wait for a peer. */
  function TrueCount(chunks: seq<Slot>, p: NodeId): nat {
    if chunks == [] then 0
    else TrueCount(chunks[..|chunks| - 1], p) + if chunks[|chunks| - 1].status == InFlight(p) then 1 else 0
  }

  /** How far the counter of a peer lags behind. */
  function Gap(f: Fetch, p: NodeId): int { TrueCount(f.chunks, p) - Counter(f.counters, p) }

  ghost predicate CountersExact(f: Fetch) { forall p: NodeId :: Gap(f, p) == 0 }
  ghost predicate CountersLow(f: Fetch) { forall p: NodeId :: Gap(f, p) >= 0 }

  ghost predicate Bounded(m: map<NodeId, nat>) {
    MapSum(m) <= MAX_CONCURRENT && forall p :: p in m ==> m[p] <= PER_PEER
  }

  lemma {:induction false} TrueCountUpdate(chunks: seq<Slot>, i: nat, slot: Slot, p: NodeId)
    requires i < |chunks|
    ensures TrueCount(chunks[i := slot], p) == TrueCount(chunks, p)
      - (if chunks[i].status == InFlight(p) then 1 else 0) + (if slot.status == InFlight(p) then 1 else 0)
  {
    var n := |chunks| - 1;
    if i < n {
      TrueCountUpdate(chunks[..n], i, slot, p);
      assert chunks[i := slot][..n] == chunks[..n][i := slot];
    } else {
      assert chunks[i := slot][..n] == chunks[..n];
    }
  }

  lemma {:induction false} TrueCountSame(a: seq<Slot>, b: seq<Slot>, p: NodeId)
    requires |a| == |b|
    requires forall i :: 0 <= i < |a| ==> (a[i].status == InFlight(p) <==> b[i].status == InFlight(p))
    ensures TrueCount(a, p) == TrueCount(b, p)
  {
    if a == [] {
    } else {
      TrueCountSame(a[..|a| - 1], b[..|b| - 1], p);
    }
  }

  lemma {:induction false} TrueCountZero(chunks: seq<Slot>, p: NodeId)
    requires forall i :: 0 <= i < |chunks| ==> chunks[i].status != InFlight(p)
    ensures TrueCount(chunks, p) == 0
  {
    if chunks == [] {
    } else {
      TrueCountZero(chunks[..|chunks| - 1], p);
    }
  }

  lemma {:induction false} TrueCountPositive(chunks: seq<Slot>, i: nat, p: NodeId)
    requires i < |chunks| && chunks[i].status == InFlight(p)
    ensures TrueCount(chunks, p) > 0
  {
    if i < |chunks| - 1 { TrueCountPositive(chunks[..|chunks| - 1], i, p); }
  }

  // ---------------------------------------------------------------------------
  // Slots and the log of requests

  ghost predicate SlotOk(hash: Bytes -> nat, m: Manifest, i: nat, slot: Slot) {
    && slot.attempts < RETRY_BUDGET
    && (slot.status.Received? ==> ChunkVerifies(hash, m, i, slot.status.bytes))
  }

  function CountFor(log: seq<Request>, i: nat): nat {
    if log == [] then 0 else CountFor(log[..|log| - 1], i) + if log[|log| - 1].0 == i then 1 else 0
  }

  predicate Distinct(log: seq<Request>) {
    forall a, b :: 0 <= a < b < |log| ==> log[a] != log[b]
  }

  /** Every request for a slot is accounted for by what the slot remembers. */
  predicate LogSlot(log: seq<Request>, i: nat, slot: Slot) {
    && (forall q: Request :: q in log && q.0 == i ==>
          q.1 in slot.tried || slot.status == InFlight(q.1) || slot.status.Received?)
    && CountFor(log, i) == slot.attempts + (if slot.status.Pending? then 0 else 1)
  }

  predicate InRange(log: seq<Request>, n: nat) { forall q: Request :: q in log ==> q.0 < n }

  /** The requests of a whole run: none twice, at most three per chunk. */
  ghost predicate LogFinal(log: seq<Request>) {
    Distinct(log) && forall i: nat :: CountFor(log, i) <= RETRY_BUDGET
  }

  /** Everything known about a fetching state and the requests that led to it. */
  ghost predicate Good(hash: Bytes -> nat, log: seq<Request>, f: Fetch) {
    && Bounded(f.counters) && CountersLow(f) && Distinct(log) && InRange(log, |f.chunks|)
    && |f.chunks| == |f.manifest.hashes|
    && forall i :: 0 <= i < |f.chunks| ==> SlotOk(hash, f.manifest, i, f.chunks[i]) && LogSlot(log, i, f.chunks[i])
  }

  lemma {:induction false} CountOutOfRange(log: seq<Request>, n: nat, i: nat)
    requires InRange(log, n) && i >= n
    ensures CountFor(log, i) == 0
  {
    if log == [] {
    } else {
      assert log[|log| - 1] in log;
      CountOutOfRange(log[..|log| - 1], n, i);
    }
  }

  /** In every good state each chunk has been requested at most three times. */
  lemma GoodIsFinal(hash: Bytes -> nat, log: seq<Request>, f: Fetch)
    requires Good(hash, log, f)
    ensures LogFinal(log)
  {
    forall i: nat ensures CountFor(log, i) <= RETRY_BUDGET {
      if i < |f.chunks| { assert LogSlot(log, i, f.chunks[i]); } else { CountOutOfRange(log, |f.chunks|, i); }
    }
  }

  // ---------------------------------------------------------------------------
  // The scheduler

  lemma LogSend(log: seq<Request>, i: nat, slot: Slot, q: Request)
    requires LogSlot(log, i, slot) && (q.0 == i ==> slot.status.Pending? && q.1 !in slot.tried)
    ensures LogSlot(log + [q], i, if q.0 == i then slot.(status := InFlight(q.1)) else slot)
    ensures q.0 == i ==> q !in log
  {
  }

  lemma SendGap(f: Fetch, q: Request, p: NodeId)
    requires Sendable(f, q)
    ensures Gap(Send(f, q), p) == Gap(f, p)
  {
    TrueCountUpdate(f.chunks, q.0, f.chunks[q.0].(status := InFlight(q.1)), p);
  }

  lemma SendBounded(f: Fetch, q: Request)
    requires Sendable(f, q) && Bounded(f.counters) && MapSum(f.counters) < MAX_CONCURRENT
    ensures Bounded(Send(f, q).counters)
    ensures MapSum(Send(f, q).counters) == MapSum(f.counters) + 1
  {
    MapSumUpdate(f.counters, q.1, Counter(f.counters, q.1) + 1);
  }

  lemma SendGood(hash: Bytes -> nat, log: seq<Request>, f: Fetch, q: Request)
    requires Good(hash, log, f) && Sendable(f, q) && MapSum(f.counters) < MAX_CONCURRENT
    ensures Good(hash, log + [q], Send(f, q))
  {
    hide LogSlot, Bounded, Gap, TrueCount, CountFor;
    var g, log' := Send(f, q), log + [q];
    SendBounded(f, q);
    forall p: NodeId ensures Gap(g, p) >= 0 { SendGap(f, q, p); }
    LogSend(log, q.0, f.chunks[q.0], q);
    forall i | 0 <= i < |g.chunks| ensures SlotOk(hash, g.manifest, i, g.chunks[i]) && LogSlot(log', i, g.chunks[i]) {
      assert SlotOk(hash, f.manifest, i, f.chunks[i]) && LogSlot(log, i, f.chunks[i]);
      LogSend(log, i, f.chunks[i], q);
    }
    assert Distinct(log') by {
      forall a, b | 0 <= a < b < |log'| ensures log'[a] != log'[b] {
        if b == |log| { assert log'[a] in log; }
      }
    }
  }

  /** The scheduler keeps every good state good, sends only what was not sent before, and moves no counter gap. */
  lemma {:induction false} ScheduleGood(hash: Bytes -> nat, log: seq<Request>, f: Fetch)
    requires Good(hash, log, f)
    ensures Good(hash, log + Schedule(f).1, Schedule(f).0)
    decreases MAX_CONCURRENT - MapSum(f.counters)
  {
    hide Good, Send, Sendable, Pick;
    if MapSum(f.counters) >= MAX_CONCURRENT || Pick(f, 0).None? {
      assert log + Schedule(f).1 == log;
    } else {
      var q := Pick(f, 0).value;
      PickExact(f, 0);
      SendGood(hash, log, f, q);
      SentSum(f, q);
      ScheduleGood(hash, log + [q], Send(f, q));
      assert log + Schedule(f).1 == log + [q] + Schedule(Send(f, q)).1;
    }
  }

  lemma SentSum(f: Fetch, q: Request)
    requires q.0 < |f.chunks|
    ensures MapSum(Send(f, q).counters) == MapSum(f.counters) + 1
  {
    MapSumUpdate(f.counters, q.1, Counter(f.counters, q.1) + 1);
  }

  lemma {:induction false} ScheduleGap(f: Fetch, p: NodeId)
    ensures Gap(Schedule(f).0, p) == Gap(f, p)
    decreases MAX_CONCURRENT - MapSum(f.counters)
  {
    hide Gap, Send, Sendable, Pick;
    if MapSum(f.counters) < MAX_CONCURRENT && Pick(f, 0).Some? {
      var q := Pick(f, 0).value;
      PickExact(f, 0);
      SendGap(f, q, p);
      assert q.0 < |f.chunks| by { SendableInRange(f, q); }
      SentSum(f, q);
      ScheduleGap(Send(f, q), p);
    }
  }

  lemma SendableInRange(f: Fetch, q: Request)
    requires Sendable(f, q)
    ensures q.0 < |f.chunks|
  {
  }

  /** What the scheduler leaves alone, and what it must have sent. */
  lemma {:induction false} ScheduleShape(f: Fetch)
    ensures var (g, sent) := Schedule(f);
      && g.manifest == f.manifest && g.candidates == f.candidates && |g.chunks| == |f.chunks|
      && (sent == [] ==> g == f)
      && (AnyInFlight(f.chunks) || sent != [] ==> AnyInFlight(g.chunks))
      && Work(g.chunks) == Work(f.chunks)
    decreases MAX_CONCURRENT - MapSum(f.counters)
  {
    hide Work, EligiblePeer;
    if MapSum(f.counters) < MAX_CONCURRENT && Pick(f, 0).Some? {
      var q := Pick(f, 0).value;
      PickExact(f, 0);
      SentSum(f, q);
      var g := Send(f, q);
      assert g.chunks[q.0].status.InFlight?;
      WorkUpdate(f.chunks, q.0, g.chunks[q.0]);
      ScheduleShape(g);
    }
  }

  // ---------------------------------------------------------------------------
  // The measure

  function SlotWork(slot: Slot): nat {
    if slot.status.Received? || slot.attempts > RETRY_BUDGET then 0 else RETRY_BUDGET - slot.attempts
  }

  /** Work left: nothing for a received chunk, otherwise the attempts it has left. */
  function Work(chunks: seq<Slot>): nat {
    if chunks == [] then 0 else Work(chunks[..|chunks| - 1]) + SlotWork(chunks[|chunks| - 1])
  }

  function WorkLeft(s: State): nat { if s.Fetching? then Work(s.f.chunks) else 0 }

  lemma {:induction false} WorkUpdate(chunks: seq<Slot>, i: nat, slot: Slot)
    requires i < |chunks|
    ensures Work(chunks[i := slot]) == Work(chunks) - SlotWork(chunks[i]) + SlotWork(slot)
  {
    var n := |chunks| - 1;
    if i < n {
      WorkUpdate(chunks[..n], i, slot);
      assert chunks[i := slot][..n] == chunks[..n][i := slot];
    } else {
      assert chunks[i := slot][..n] == chunks[..n];
    }
  }

  lemma {:induction false} WorkAtLeast(chunks: seq<Slot>, i: nat)
    requires i < |chunks|
    ensures Work(chunks) >= SlotWork(chunks[i])
  {
    if i < |chunks| - 1 { WorkAtLeast(chunks[..|chunks| - 1], i); }
  }

  lemma {:induction false} WorkLess(a: seq<Slot>, b: seq<Slot>)
    requires |a| == |b| && forall i :: 0 <= i < |a| ==> SlotWork(a[i]) <= SlotWork(b[i])
    ensures Work(a) <= Work(b)
  {
    if a == [] {
    } else {
      WorkLess(a[..|a| - 1], b[..|b| - 1]);
    }
  }

  // ---------------------------------------------------------------------------
  // Outcomes

  function LogOf(actions: seq<Action>): seq<Request> {
    if actions == [] then []
    else
      var a := actions[|actions| - 1];
      LogOf(actions[..|actions| - 1]) + if a.SendChunkRequest? then [(a.idx, a.peer)] else []
  }

  lemma {:induction false} LogOfAppend(a: seq<Action>, b: seq<Action>)
    ensures LogOf(a + b) == LogOf(a) + LogOf(b)
  {
    if b == [] {
      assert a + b == a;
    } else {
      LogOfAppend(a, b[..|b| - 1]);
      assert (a + b)[..|a + b| - 1] == a + b[..|b| - 1];
    }
  }

  lemma {:induction false} LogOfRequests(height: nat, qs: seq<Request>)
    ensures LogOf(Requests(height, qs)) == qs
  {
    if qs == [] {
    } else {
      LogOfRequests(height, qs[..|qs| - 1]);
      assert Requests(height, qs)[..|qs| - 1] == Requests(height, qs[..|qs| - 1]);
    }
  }

  /** The payload of a restore is made of parts that match the hashes of its manifest, in order. */
  ghost predicate RestoreOk(hash: Bytes -> nat, a: Action) {
    a.Restore? ==> exists parts :: Match(hash, a.manifest.hashes, parts) && a.payload == Concat(parts)
  }

  ghost predicate RestoresOk(hash: Bytes -> nat, actions: seq<Action>) {
    forall i :: 0 <= i < |actions| ==> RestoreOk(hash, actions[i])
  }

  /** A state and the requests sent before it: a non-empty download always waits for some peer. */
  ghost predicate StateOk(hash: Bytes -> nat, log: seq<Request>, s: State) {
    match s
    case Idle(_) => log == []
    case ManifestPending(_, _) => log == []
    case Fetching(f) => Good(hash, log, f) && (f.chunks != [] ==> AnyInFlight(f.chunks))
    case Done => LogFinal(log)
    case Aborted => LogFinal(log)
  }

  ghost predicate OutcomeOk(hash: Bytes -> nat, log: seq<Request>, out: Outcome) {
    StateOk(hash, log + LogOf(out.actions), out.state) && RestoresOk(hash, out.actions)
  }

  lemma QuietOk(hash: Bytes -> nat, log: seq<Request>, s: State)
    requires StateOk(hash, log, s)
    ensures OutcomeOk(hash, log, Outcome(s, []))
  {
    hide Good, LogFinal;
    assert log + LogOf([]) == log;
  }

  lemma AbortOk(hash: Bytes -> nat, log: seq<Request>, reason: AbortReason)
    requires LogFinal(log)
    ensures OutcomeOk(hash, log, Outcome(Aborted, [Abort(reason)]))
  {
    hide LogFinal;
    assert [Abort(reason)][..0] == [];
    assert log + LogOf([Abort(reason)]) == log;
  }

  lemma ScheduledOk(hash: Bytes -> nat, log: seq<Request>, f: Fetch)
    requires Good(hash, log, f) && (f.chunks == [] || AnyInFlight(f.chunks) || Schedule(f).1 != [])
    ensures OutcomeOk(hash, log, Scheduled(f))
  {
    hide Good, Schedule, AnyInFlight;
    ScheduleGood(hash, log, f);
    ScheduleShape(f);
    LogOfRequests(f.manifest.height, Schedule(f).1);
    assert forall i :: 0 <= i < |Scheduled(f).actions| ==> Scheduled(f).actions[i].SendChunkRequest?;
  }

  lemma ScheduleOrAbortOk(hash: Bytes -> nat, log: seq<Request>, f: Fetch)
    requires Good(hash, log, f) && !AllReceived(f.chunks)
    ensures OutcomeOk(hash, log, ScheduleOrAbort(f))
  {
    hide Good, Schedule, OutcomeOk;
    GoodIsFinal(hash, log, f);
    AbortOk(hash, log, CandidatesExhausted);
    ScheduleShape(f);
    var i :| 0 <= i < |f.chunks| && !f.chunks[i].status.Received?;
    assert f.chunks[i].status.Pending? ==> AnyPending(f.chunks);
    assert f.chunks[i].status.InFlight? ==> AnyInFlight(f.chunks);
    if AnyInFlight(f.chunks) || Schedule(f).1 != [] { ScheduledOk(hash, log, f); }
  }

  // ---------------------------------------------------------------------------
  // Chunk responses

  lemma CountDownBounded(f: Fetch, from: NodeId)
    requires Bounded(f.counters)
    ensures Bounded(CountDown(f, from).counters) && Bounded(DropPeer(f, from).counters)
  {
    if from in f.counters {
      var c := f.counters[from];
      MapSumUpdate(f.counters, from, if c == 0 then 0 else c - 1);
      MapSumRemove(f.counters, from);
    } else {
      assert f.counters - {from} == f.counters;
    }
  }

  /** The slot answered leaves flight and its peer is counted down: no gap opens. */
  lemma AnsweredGap(f: Fetch, from: NodeId, idx: nat, slot: Slot, p: NodeId)
    requires idx < |f.chunks| && f.chunks[idx].status == InFlight(from) && !slot.status.InFlight?
    ensures var g := CountDown(f, from).(chunks := f.chunks[idx := slot]);
      && (Gap(f, p) >= 0 ==> Gap(g, p) >= 0)
      && (Gap(f, p) == 0 ==> Gap(g, p) == 0)
  {
    TrueCountUpdate(f.chunks, idx, slot, p);
    TrueCountPositive(f.chunks, idx, from);
  }

  lemma LogAnswered(log: seq<Request>, i: nat, slot: Slot, answer: Slot)
    requires LogSlot(log, i, slot) && slot.status.InFlight?
    requires answer == Failed(slot, slot.status.peer) || (answer == slot.(status := answer.status) && answer.status.Received?)
    ensures LogSlot(log, i, answer)
  {
  }

  /** One slot answered, well or badly, leaves a good state. */
  lemma AnsweredGood(hash: Bytes -> nat, log: seq<Request>, f: Fetch, from: NodeId, idx: nat, answer: Slot)
    requires Good(hash, log, f) && idx < |f.chunks| && f.chunks[idx].status == InFlight(from)
    requires SlotOk(hash, f.manifest, idx, answer) && !answer.status.InFlight?
    requires LogSlot(log, idx, answer)
    ensures Good(hash, log, CountDown(f, from).(chunks := f.chunks[idx := answer]))
  {
    hide LogSlot, Bounded, Gap, TrueCount, CountFor, SlotOk, Distinct;
    CountDownBounded(f, from);
    var g := CountDown(f, from).(chunks := f.chunks[idx := answer]);
    forall p: NodeId ensures Gap(g, p) >= 0 {
      assert Gap(f, p) >= 0;
      AnsweredGap(f, from, idx, answer, p);
    }
  }

  lemma DropPeerGood(hash: Bytes -> nat, log: seq<Request>, f: Fetch, peer: NodeId)
    requires Good(hash, log, f)
    ensures Good(hash, log, DropPeer(f, peer))
  {
    hide LogSlot, Bounded, CountFor, SlotOk, Distinct, Without, TrueCount;
    CountDownBounded(f, peer);
    forall p: NodeId ensures Gap(DropPeer(f, peer), p) >= 0 {
      assert Gap(f, p) >= 0;
    }
  }

  lemma RetryOk(hash: Bytes -> nat, log: seq<Request>, f: Fetch, from: NodeId, idx: nat, drop: bool)
    requires Good(hash, log, f) && idx < |f.chunks| && f.chunks[idx].status == InFlight(from)
    ensures var g := AfterFailure(CountDown(f, from), from, idx);
      OutcomeOk(hash, log, Retry(if drop then DropPeer(g, from) else g, idx))
  {
    hide LogSlot, OutcomeOk, DropPeer, ScheduleOrAbort;
    GoodIsFinal(hash, log, f);
    var g := AfterFailure(CountDown(f, from), from, idx);
    var answer := Failed(f.chunks[idx], from);
    assert g == CountDown(f, from).(chunks := f.chunks[idx := answer]);
    LogAnswered(log, idx, f.chunks[idx], answer);
    RetryGood(hash, log, f, from, idx, drop, g);
  }

  lemma RetryGood(hash: Bytes -> nat, log: seq<Request>, f: Fetch, from: NodeId, idx: nat, drop: bool, g: Fetch)
    requires Good(hash, log, f) && LogFinal(log) && idx < |f.chunks| && f.chunks[idx].status == InFlight(from)
    requires LogSlot(log, idx, Failed(f.chunks[idx], from))
    requires g == CountDown(f, from).(chunks := f.chunks[idx := Failed(f.chunks[idx], from)])
    ensures OutcomeOk(hash, log, Retry(if drop then DropPeer(g, from) else g, idx))
  {
    hide LogSlot, OutcomeOk, Good, ScheduleOrAbort, LogFinal, CountDown, Without;
    var h := if drop then DropPeer(g, from) else g;
    var reason := CheckAbort(h.chunks[idx], idx, h.candidates);
    if reason.Some? {
      AbortOk(hash, log, reason.value);
    } else {
      AnsweredGood(hash, log, f, from, idx, Failed(f.chunks[idx], from));
      if drop { DropPeerGood(hash, log, g, from); }
      assert !h.chunks[idx].status.Received?;
      ScheduleOrAbortOk(hash, log, h);
    }
  }

  lemma ReceivedOk(hash: Bytes -> nat, log: seq<Request>, f: Fetch, from: NodeId, idx: nat, p: Bytes)
    requires Good(hash, log, f) && idx < |f.chunks| && f.chunks[idx].status == InFlight(from)
    requires ChunkVerifies(hash, f.manifest, idx, p)
    ensures var f1 := CountDown(f, from);
      OutcomeOk(hash, log, TryFinish(f1.(chunks := f1.chunks[idx := f1.chunks[idx].(status := Received(p))])))
  {
    hide LogSlot, OutcomeOk, ScheduleOrAbort, Bounded, Gap, Distinct, InRange, Concat;
    var answer := f.chunks[idx].(status := Received(p));
    var g := CountDown(f, from).(chunks := f.chunks[idx := answer]);
    LogAnswered(log, idx, f.chunks[idx], answer);
    AnsweredGood(hash, log, f, from, idx, answer);
    if AllReceived(g.chunks) { FinishOk(hash, log, g); } else { ScheduleOrAbortOk(hash, log, g); }
  }

  /** A restore is emitted with exactly the verified chunks, in order. */
  lemma FinishOk(hash: Bytes -> nat, log: seq<Request>, f: Fetch)
    requires Good(hash, log, f) && AllReceived(f.chunks)
    ensures OutcomeOk(hash, log, Outcome(Done, [Restore(f.manifest, Concat(Parts(f.chunks)))]))
  {
    hide LogSlot, Bounded, Gap, Distinct, InRange, Concat, LogFinal;
    GoodIsFinal(hash, log, f);
    var a := Restore(f.manifest, Concat(Parts(f.chunks)));
    forall i | 0 <= i < |f.chunks| ensures hash(Parts(f.chunks)[i]) == f.manifest.hashes[i] {
      assert SlotOk(hash, f.manifest, i, f.chunks[i]);
    }
    assert Match(hash, f.manifest.hashes, Parts(f.chunks));
    assert RestoreOk(hash, a);
    assert [a][..0] == [];
    assert log + LogOf([a]) == log;
  }

  lemma OnChunkOk(hash: Bytes -> nat, log: seq<Request>, f: Fetch, from: NodeId, height: nat, idx: nat, payload: Option<Bytes>)
    requires StateOk(hash, log, Fetching(f))
    ensures OutcomeOk(hash, log, OnChunk(hash, f, from, height, idx, payload))
  {
    hide OutcomeOk, Good, Retry, TryFinish, AnyInFlight;
    if !Accepted(f, from, height, idx) {
      QuietOk(hash, log, Fetching(f));
    } else if payload.None? {
      RetryOk(hash, log, f, from, idx, false);
    } else if !ChunkVerifies(hash, f.manifest, idx, payload.value) {
      RetryOk(hash, log, f, from, idx, true);
    } else {
      ReceivedOk(hash, log, f, from, idx, payload.value);
    }
  }

  // ---------------------------------------------------------------------------
  // Disconnections, candidates and manifests

  /** After a disconnection the slots that waited for the peer have failed once more, the others are as before. */
  lemma {:induction false} DisconnectedExact(chunks: seq<Slot>, candidates: seq<NodeId>, peer: NodeId, i: nat)
    requires i <= |chunks| && Disconnected(chunks, candidates, peer, i).Ok?
    ensures var r := Disconnected(chunks, candidates, peer, i).value;
      && |r| == |chunks|
      && (forall j :: 0 <= j < |chunks| ==>
            r[j] == if j >= i && chunks[j].status == InFlight(peer) then Failed(chunks[j], peer) else chunks[j])
      && (forall j :: i <= j < |chunks| && chunks[j].status == InFlight(peer) ==> r[j].attempts < RETRY_BUDGET)
    decreases |chunks| - i
  {
    if i < |chunks| {
      if chunks[i].status != InFlight(peer) {
        DisconnectedExact(chunks, candidates, peer, i + 1);
      } else {
        DisconnectedExact(chunks[i := Failed(chunks[i], peer)], candidates, peer, i + 1);
      }
    }
  }

  lemma DisconnectGap(f: Fetch, peer: NodeId, chunks: seq<Slot>, p: NodeId)
    requires |chunks| == |f.chunks|
    requires forall j :: 0 <= j < |chunks| ==>
      chunks[j] == if f.chunks[j].status == InFlight(peer) then Failed(f.chunks[j], peer) else f.chunks[j]
    ensures Gap(DropPeer(f, peer).(chunks := chunks), p) == if p == peer then 0 else Gap(f, p)
  {
    if p == peer { TrueCountZero(chunks, p); } else { TrueCountSame(chunks, f.chunks, p); }
  }

  lemma DisconnectGood(hash: Bytes -> nat, log: seq<Request>, f: Fetch, peer: NodeId, chunks: seq<Slot>)
    requires Good(hash, log, f) && |chunks| == |f.chunks|
    requires forall j :: 0 <= j < |chunks| ==>
      chunks[j] == if f.chunks[j].status == InFlight(peer) then Failed(f.chunks[j], peer) else f.chunks[j]
    requires forall j :: 0 <= j < |chunks| && f.chunks[j].status == InFlight(peer) ==> chunks[j].attempts < RETRY_BUDGET
    ensures Good(hash, log, DropPeer(f, peer).(chunks := chunks))
  {
    hide LogSlot, Bounded, CountFor, Distinct, TrueCount, Without, Gap;
    CountDownBounded(f, peer);
    var g := DropPeer(f, peer).(chunks := chunks);
    forall p: NodeId ensures Gap(g, p) >= 0 {
      assert Gap(f, p) >= 0;
      DisconnectGap(f, peer, chunks, p);
    }
    forall i | 0 <= i < |chunks| ensures SlotOk(hash, g.manifest, i, chunks[i]) && LogSlot(log, i, chunks[i]) {
      assert SlotOk(hash, f.manifest, i, f.chunks[i]) && LogSlot(log, i, f.chunks[i]);
      if f.chunks[i].status == InFlight(peer) { LogAnswered(log, i, f.chunks[i], chunks[i]); }
    }
  }

  /** A manifest without chunks leaves the machine waiting, with nothing to request. */
  lemma NothingToFetch(hash: Bytes -> nat, log: seq<Request>, f: Fetch)
    requires Good(hash, log, f) && f.chunks == []
    ensures OutcomeOk(hash, log, ScheduleOrAbort(f))
  {
  }

  lemma OnDisconnectOk(hash: Bytes -> nat, log: seq<Request>, f: Fetch, peer: NodeId)
    requires StateOk(hash, log, Fetching(f))
    ensures OutcomeOk(hash, log, OnDisconnect(f, peer))
  {
    hide OutcomeOk, Good, ScheduleOrAbort, LogFinal, Without;
    GoodIsFinal(hash, log, f);
    if peer !in f.candidates {
      QuietOk(hash, log, Fetching(f));
    } else {
      var f1 := DropPeer(f, peer);
      match Disconnected(f1.chunks, f1.candidates, peer, 0)
      case Err(reason) => AbortOk(hash, log, reason);
      case Ok(chunks) =>
        DisconnectedExact(f1.chunks, f1.candidates, peer, 0);
        DisconnectGood(hash, log, f, peer, chunks);
        if f.chunks != [] {
          var i :| 0 <= i < |f.chunks| && f.chunks[i].status.InFlight?;
          assert !chunks[i].status.Received?;
          ScheduleOrAbortOk(hash, log, f1.(chunks := chunks));
        } else {
          NothingToFetch(hash, log, f1.(chunks := chunks));
        }
    }
  }

  lemma CandidateGap(f: Fetch, peer: NodeId, p: NodeId)
    ensures Gap(WithCandidate(f, peer), p) == Gap(f, p)
  {
  }

  lemma CandidateGood(hash: Bytes -> nat, log: seq<Request>, f: Fetch, peer: NodeId)
    requires Good(hash, log, f)
    ensures Good(hash, log, WithCandidate(f, peer))
  {
    hide LogSlot, CountFor, Distinct, TrueCount, Gap;
    MapSumUpdate(f.counters, peer, 0);
    var g := WithCandidate(f, peer);
    forall p: NodeId ensures Gap(g, p) >= 0 {
      assert Gap(f, p) >= 0;
      CandidateGap(f, peer, p);
    }
    assert Bounded(g.counters);
  }

  lemma CandidateOk(hash: Bytes -> nat, log: seq<Request>, f: Fetch, peer: NodeId)
    requires StateOk(hash, log, Fetching(f))
    ensures OutcomeOk(hash, log, Scheduled(WithCandidate(f, peer)))
  {
    hide Good, OutcomeOk, AnyInFlight, Scheduled;
    CandidateGood(hash, log, f, peer);
    ScheduledOk(hash, log, WithCandidate(f, peer));
  }

  lemma {:induction false} SortedHasAll(s: set<NodeId>)
    ensures forall p :: p in s <==> p in Sorted(s)
  {
    if s != {} { SortedHasAll(s - {Least(s)}); }
  }

  lemma {:induction false} ZeroSum(m: map<NodeId, nat>)
    requires forall p :: p in m ==> m[p] == 0
    ensures MapSum(m) == 0
    decreases |m|
  {
    if m != map[] {
      var k := Least(m.Keys);
      MapSumRemove(m, k);
      assert (m - {k}).Keys == m.Keys - {k};
      ZeroSum(m - {k});
    }
  }

  lemma FreshGap(m: Manifest, peers: set<NodeId>, p: NodeId)
    ensures Gap(FreshFetch(m, peers), p) == 0
  {
    TrueCountZero(FreshFetch(m, peers).chunks, p);
  }

  lemma FreshGood(hash: Bytes -> nat, m: Manifest, peers: set<NodeId>)
    requires m.chunkCount == |m.hashes|
    ensures Good(hash, [], FreshFetch(m, peers))
  {
    hide Gap, Sorted;
    var f := FreshFetch(m, peers);
    ZeroSum(f.counters);
    forall p: NodeId ensures Gap(f, p) >= 0 { FreshGap(m, peers, p); }
  }

  /** A fresh download with something to fetch and someone to ask sends at least one request. */
  lemma FreshSends(m: Manifest, peers: set<NodeId>)
    requires peers != {}
    ensures m.chunkCount > 0 ==> Schedule(FreshFetch(m, peers)).1 != []
  {
    hide Sorted;
    var f := FreshFetch(m, peers);
    ZeroSum(f.counters);
    SortedHasAll(peers);
    PickExact(f, 0);
    var p :| p in peers;
    if m.chunkCount > 0 { assert Sendable(f, (0, p)); }
  }

  lemma ManifestOk(hash: Bytes -> nat, m: Manifest, peers: set<NodeId>)
    requires m.chunkCount == |m.hashes| && peers != {}
    ensures OutcomeOk(hash, [], Scheduled(FreshFetch(m, peers)))
  {
    hide Good, OutcomeOk, Schedule, Scheduled, Sorted;
    FreshGood(hash, m, peers);
    FreshSends(m, peers);
    ScheduledOk(hash, [], FreshFetch(m, peers));
  }

  // ---------------------------------------------------------------------------
  // Steps and runs

  lemma ProposalOk(hash: Bytes -> nat, interval: nat, log: seq<Request>, s: State, e: Event)
    requires StateOk(hash, log, s) && e.ObserveProposal?
    ensures OutcomeOk(hash, log, OnProposal(interval, s, e))
  {
    hide Good, LogFinal, Scheduled, WithCandidate;
    var out := OnProposal(interval, s, e);
    if s.Fetching? && interval != 0 && e.isValidator {
      CandidateOk(hash, log, s.f, e.proposer);
    } else if out.actions == [] {
      QuietOk(hash, log, out.state);
    } else {
      assert out.actions == [SendManifestRequest(e.proposer)];
      assert [SendManifestRequest(e.proposer)][..0] == [];
      assert LogOf(out.actions) == [];
    }
  }

  /** Every event, in every state, keeps everything that is known. */
  lemma StepOk(hash: Bytes -> nat, interval: nat, log: seq<Request>, s: State, e: Event)
    requires StateOk(hash, log, s)
    ensures OutcomeOk(hash, log, Step(hash, interval, s, e))
  {
    hide Good, OutcomeOk, LogFinal, Scheduled, WithCandidate, FreshFetch, OnChunk, OnDisconnect, OnProposal, AnyInFlight;
    QuietOk(hash, log, s);
    match e
    case ObserveProposal(_, _, _, _) => ProposalOk(hash, interval, log, s, e);
    case AddCandidate(p) => if s.Fetching? { CandidateOk(hash, log, s.f, p); }
    case ManifestResponse(sender, manifest, others) =>
      if s.ManifestPending? {
        EmptyLogFinal();
        AbortOk(hash, [], PeerHasNoSnapshot);
        AbortOk(hash, [], ManifestVerifyFailed);
        if manifest.Some? && ManifestVerifies(manifest.value, others) {
          ManifestOk(hash, manifest.value, s.waiting + {s.primary});
        }
      }
    case ChunkResponse(from, height, idx, payload) =>
      if s.Fetching? { OnChunkOk(hash, log, s.f, from, height, idx, payload); }
    case PeerDisconnected(p) =>
      match s
      case ManifestPending(primary, waiting) =>
        EmptyLogFinal();
        AbortOk(hash, [], CandidatesExhausted);
        QuietOk(hash, log, ManifestPending(primary, waiting - {p}));
      case Idle(observed) => QuietOk(hash, log, Idle(observed - {p}));
      case Fetching(f) => OnDisconnectOk(hash, log, f, p);
      case _ =>
  }

  lemma EmptyLogFinal()
    ensures LogFinal([])
  {
  }

  /**
   * Over every run: no chunk is requested twice from the same peer, none more than three times in
   * all, counters stay within their limits, a download with chunks always waits for some peer, and
   * every restore is made of verified chunks in order.
   */
  lemma {:induction false} RunOk(hash: Bytes -> nat, interval: nat, es: seq<Event>)
    ensures var r := Run(hash, interval, es);
      && StateOk(hash, LogOf(r.actions), r.state) && LogFinal(LogOf(r.actions)) && RestoresOk(hash, r.actions)
  {
    hide StateOk, Step, RestoreOk, LogFinal;
    var r := Run(hash, interval, es);
    if es == [] {
      EmptyLogFinal();
      IdleOk(hash);
    } else {
      var before := Run(hash, interval, es[..|es| - 1]);
      RunOk(hash, interval, es[..|es| - 1]);
      StepOk(hash, interval, LogOf(before.actions), before.state, es[|es| - 1]);
      LogOfAppend(before.actions, Step(hash, interval, before.state, es[|es| - 1]).actions);
      StateFinal(hash, LogOf(r.actions), r.state);
    }
  }

  lemma IdleOk(hash: Bytes -> nat)
    ensures StateOk(hash, [], Idle({}))
  {
  }

  lemma StateFinal(hash: Bytes -> nat, log: seq<Request>, s: State)
    requires StateOk(hash, log, s)
    ensures LogFinal(log)
  {
    hide Good, LogFinal;
    EmptyLogFinal();
    if s.Fetching? { GoodIsFinal(hash, log, s.f); }
  }

  /** If the hashes came from splitting a payload, what is restored is that payload. */
  lemma RestoreIsOriginal(hash: Bytes -> nat, interval: nat, es: seq<Event>, i: nat, p: Bytes, size: nat)
    requires forall a, b :: hash(a) == hash(b) ==> a == b
    requires var acts := Run(hash, interval, es).actions;
      i < |acts| && acts[i].Restore? && size > 0 && acts[i].manifest.hashes == Hashes(hash, Chunks(p, size))
    ensures Run(hash, interval, es).actions[i].payload == p
  {
    hide Run, Chunks, Concat, StateOk, LogFinal;
    RunOk(hash, interval, es);
    var a := Run(hash, interval, es).actions[i];
    assert RestoreOk(hash, a);
    var parts :| Match(hash, a.manifest.hashes, parts) && a.payload == Concat(parts);
    MatchingChunksAssemble(hash, p, size, parts);
  }

  /** `Done` and `Aborted` are final: nothing that follows changes the state or causes an action. */
  lemma {:induction false} FinalStatesAbsorb(hash: Bytes -> nat, interval: nat, es: seq<Event>, more: seq<Event>)
    requires Run(hash, interval, es).state.Done? || Run(hash, interval, es).state.Aborted?
    ensures Run(hash, interval, es + more) == Run(hash, interval, es)
  {
    if more == [] {
      assert es + more == es;
    } else {
      FinalStatesAbsorb(hash, interval, es, more[..|more| - 1]);
      assert (es + more)[..|es + more| - 1] == es + more[..|more| - 1];
    }
  }

  // ---------------------------------------------------------------------------
  // Progress

  lemma ScheduledWork(f: Fetch)
    ensures WorkLeft(Scheduled(f).state) == Work(f.chunks)
    ensures WorkLeft(ScheduleOrAbort(f).state) <= Work(f.chunks)
  {
    hide Work;
    ScheduleShape(f);
  }

  /** Every accepted response strictly decreases the work left. */
  lemma AcceptedDecreasesWork(hash: Bytes -> nat, log: seq<Request>, f: Fetch, from: NodeId, height: nat, idx: nat, payload: Option<Bytes>)
    requires Good(hash, log, f) && Accepted(f, from, height, idx)
    ensures WorkLeft(OnChunk(hash, f, from, height, idx, payload).state) < WorkLeft(Fetching(f))
  {
    hide Work, Schedule, ScheduleOrAbort, LogSlot, Gap, Bounded, Distinct, InRange, Without;
    var slot := f.chunks[idx];
    assert SlotOk(hash, f.manifest, idx, slot);
    WorkAtLeast(f.chunks, idx);
    WorkUpdate(f.chunks, idx, Failed(slot, from));
    var f1 := CountDown(f, from);
    var bad := AfterFailure(f1, from, idx);
    ScheduledWork(bad);
    ScheduledWork(DropPeer(bad, from));
    if payload.Some? {
      var good := f1.(chunks := f1.chunks[idx := slot.(status := Received(payload.value))]);
      WorkUpdate(f.chunks, idx, slot.(status := Received(payload.value)));
      ScheduledWork(good);
    }
  }

  /** No event ever increases the work left of a download under way. */
  lemma WorkNeverGrows(hash: Bytes -> nat, interval: nat, log: seq<Request>, f: Fetch, e: Event)
    requires Good(hash, log, f)
    ensures WorkLeft(Step(hash, interval, Fetching(f), e).state) <= WorkLeft(Fetching(f))
  {
    hide Good, Work, Schedule, Scheduled, ScheduleOrAbort, OnChunk, Without;
    match e
    case ObserveProposal(_, _, p, _) => ScheduledWork(WithCandidate(f, p));
    case AddCandidate(p) => ScheduledWork(WithCandidate(f, p));
    case ManifestResponse(_, _, _) =>
    case ChunkResponse(from, height, idx, payload) =>
      if Accepted(f, from, height, idx) {
        AcceptedDecreasesWork(hash, log, f, from, height, idx, payload);
      } else {
        IgnoredChunk(hash, f, from, height, idx, payload);
      }
    case PeerDisconnected(p) =>
      var f1 := DropPeer(f, p);
      if Disconnected(f1.chunks, f1.candidates, p, 0).Ok? {
        DisconnectedExact(f1.chunks, f1.candidates, p, 0);
        var chunks := Disconnected(f1.chunks, f1.candidates, p, 0).value;
        WorkLess(chunks, f.chunks);
        ScheduledWork(f1.(chunks := chunks));
      }
  }

  lemma IgnoredChunk(hash: Bytes -> nat, f: Fetch, from: NodeId, height: nat, idx: nat, payload: Option<Bytes>)
    requires !Accepted(f, from, height, idx)
    ensures OnChunk(hash, f, from, height, idx, payload) == Outcome(Fetching(f), [])
  {
  }
}
