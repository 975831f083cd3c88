/** Downloads that end in a restore, and downloads that cannot while a peer is away. */
module SnapshotCompletion {
  import opened Common
  import opened SnapshotChunks
  import opened SnapshotSync
  import opened SnapshotRuns
  import opened SnapshotCounters
  import opened SnapshotLimits
  import opened SnapshotDecisions

  // ---------------------------------------------------------------------------
  // Runs on which nobody fails for good

  /**
   * Nothing goes wrong for good: the manifest asked for is there and verifies, every chunk the machine
   * waits for arrives and verifies or is declined before its third failure while somebody is left to
   * ask for it, and neither the primary nor, once fetching, anybody disconnects.
   */
  predicate CleanEvent(hash: Bytes -> nat, s: State, e: Event) {
    match e
    case ChunkResponse(from, _, idx, payload) =>
      IsAccepted(s, e) ==>
        if payload.Some? then ChunkVerifies(hash, s.f.manifest, idx, payload.value)
        else !Exhausted(s.f, s.f.chunks[idx], from)
    case ManifestResponse(sender, m, others) =>
      s.ManifestPending? && sender == s.primary ==> m.Some? && ManifestVerifies(m.value, others)
    case PeerDisconnected(p) => !s.Fetching? && !(s.ManifestPending? && s.primary == p)
    case _ => true
  }

  ghost predicate Clean(hash: Bytes -> nat, interval: nat, es: seq<Event>) {
    es != [] ==>
      && Clean(hash, interval, es[..|es| - 1])
      && CleanEvent(hash, Run(hash, interval, es[..|es| - 1]).state, es[|es| - 1])
  }

  function ReceivedCount(chunks: seq<Slot>): (n: nat)
    ensures n <= |chunks|
  {
    if chunks == [] then 0
    else ReceivedCount(chunks[..|chunks| - 1]) + if chunks[|chunks| - 1].status.Received? then 1 else 0
  }

  /** Every pending slot has somebody left to ask. */
  predicate Askable(f: Fetch) {
    forall i :: 0 <= i < |f.chunks| && f.chunks[i].status.Pending? ==> Untried(f, f.chunks[i])
  }

  /** The chunks the run has accepted: responses it reacted to that were not declines. */
  ghost function DeliveredCount(hash: Bytes -> nat, interval: nat, es: seq<Event>): nat {
    if es == [] then 0
    else
      DeliveredCount(hash, interval, es[..|es| - 1])
      + if Delivers(Run(hash, interval, es[..|es| - 1]).state, es[|es| - 1]) then 1 else 0
  }

  predicate Delivers(s: State, e: Event) { IsAccepted(s, e) && e.payload.Some? }

  predicate OnCourse(s: State, accepted: nat, wanted: nat) {
    match s
    case Idle(_) => accepted == 0 && wanted == 0
    case ManifestPending(_, _) => accepted == 0 && wanted == 0
    case Fetching(f) => Askable(f) && |f.chunks| == wanted && ReceivedCount(f.chunks) == accepted
    case Done => wanted > 0 && accepted == wanted
    case Aborted => false
  }

  lemma {:induction false} ReceivedUpdate(chunks: seq<Slot>, i: nat, slot: Slot)
    requires i < |chunks|
    ensures ReceivedCount(chunks[i := slot]) == ReceivedCount(chunks)
      - (if chunks[i].status.Received? then 1 else 0) + (if slot.status.Received? then 1 else 0)
  {
    var n := |chunks| - 1;
    if i < n {
      ReceivedUpdate(chunks[..n], i, slot);
      assert chunks[i := slot][..n] == chunks[..n][i := slot];
    } else {
      assert chunks[i := slot][..n] == chunks[..n];
    }
  }

  lemma {:induction false} AllReceivedIff(chunks: seq<Slot>)
    ensures AllReceived(chunks) <==> ReceivedCount(chunks) == |chunks|
  {
    if chunks == [] {
    } else {
      AllReceivedIff(chunks[..|chunks| - 1]);
      assert forall i :: 0 <= i < |chunks| - 1 ==> chunks[..|chunks| - 1][i] == chunks[i];
    }
  }

  lemma {:induction false} NoneReceived(chunks: seq<Slot>)
    requires forall i :: 0 <= i < |chunks| ==> !chunks[i].status.Received?
    ensures ReceivedCount(chunks) == 0
  {
    if chunks == [] {
    } else {
      NoneReceived(chunks[..|chunks| - 1]);
    }
  }

  lemma {:induction false} ScheduleOnCourse(f: Fetch)
    requires Askable(f)
    ensures Askable(Schedule(f).0) && ReceivedCount(Schedule(f).0.chunks) == ReceivedCount(f.chunks)
    decreases MAX_CONCURRENT - MapSum(f.counters)
  {
    hide ReceivedCount, Pick, MapSum;
    if MapSum(f.counters) < MAX_CONCURRENT && Pick(f, 0).Some? {
      var q := Pick(f, 0).value;
      PickExact(f, 0);
      SentSum(f, q);
      ReceivedUpdate(f.chunks, q.0, f.chunks[q.0].(status := InFlight(q.1)));
      SendAskable(f, q);
      ScheduleOnCourse(Send(f, q));
    }
  }

  lemma SendAskable(f: Fetch, q: Request)
    requires Askable(f) && q.0 < |f.chunks|
    ensures Askable(Send(f, q))
  {
    forall i | 0 <= i < |f.chunks| && Send(f, q).chunks[i].status.Pending? ensures Untried(Send(f, q), Send(f, q).chunks[i]) {
      assert Send(f, q).chunks[i] == f.chunks[i] && Untried(f, f.chunks[i]);
    }
  }

  lemma NeverAborts(f: Fetch)
    requires CountersLow(f) && Askable(f)
    ensures ScheduleOrAbort(f) == Scheduled(f)
  {
    hide Schedule, Gap, Untried;
    ScheduleOrAbortIff(f);
  }

  lemma LowAfterAnswer(f: Fetch, from: NodeId, idx: nat, slot: Slot)
    requires CountersLow(f) && idx < |f.chunks| && f.chunks[idx].status == InFlight(from) && !slot.status.InFlight?
    ensures CountersLow(CountDown(f, from).(chunks := f.chunks[idx := slot]))
  {
    hide Gap, CountDown;
    var g := CountDown(f, from).(chunks := f.chunks[idx := slot]);
    forall p: NodeId ensures Gap(g, p) >= 0 {
      assert Gap(f, p) >= 0;
      AnsweredGap(f, from, idx, slot, p);
    }
  }

  /** One slot less to ask about, or one that has somebody left. */
  lemma AnsweredAskable(f: Fetch, g: Fetch, idx: nat)
    requires Askable(f) && idx < |f.chunks| == |g.chunks| && g.candidates == f.candidates
    requires forall i :: 0 <= i < |f.chunks| && i != idx ==> g.chunks[i] == f.chunks[i]
    requires g.chunks[idx].status.Pending? ==> Untried(g, g.chunks[idx])
    ensures Askable(g)
  {
    forall i | 0 <= i < |g.chunks| && g.chunks[i].status.Pending? ensures Untried(g, g.chunks[i]) {
      if i != idx { assert Untried(f, f.chunks[i]); }
    }
  }

  /** An answer: one chunk more, or one asked of somebody else. */
  lemma AnswerOnCourse(hash: Bytes -> nat, log: seq<Request>, f: Fetch, e: Event, accepted: nat, wanted: nat)
    requires Good(hash, log, f) && OnCourse(Fetching(f), accepted, wanted) && e.ChunkResponse? && CleanEvent(hash, Fetching(f), e)
    ensures var now := OnChunk(hash, f, e.from, e.atHeight, e.idx, e.payload);
      && OnCourse(now.state, accepted + (if Delivers(Fetching(f), e) then 1 else 0), wanted)
      && (now.state.Fetching? ==> now.state.f.manifest == f.manifest)
      && (now.state.Done? ==> |now.actions| == 1 && now.actions[0].Restore? && now.actions[0].manifest == f.manifest)
  {
    hide Good, ReceivedCount, ScheduleOrAbort, Schedule, Concat, AllReceived, CountDown, Askable, Exhausted, Untried;
    if IsAccepted(Fetching(f), e) {
      GoodIsLow(hash, log, f);
      CountDownChunks(f, e.from);
      if e.payload.Some? {
        var done := f.chunks[e.idx].(status := Received(e.payload.value));
        var g := CountDown(f, e.from).(chunks := f.chunks[e.idx := done]);
        ReceivedUpdate(f.chunks, e.idx, done);
        AllReceivedIff(g.chunks);
        LowAfterAnswer(f, e.from, e.idx, done);
        AnsweredAskable(f, g, e.idx);
        NeverAborts(g);
        ScheduleShape(g);
        ScheduleOnCourse(g);
      } else {
        var failed := Failed(f.chunks[e.idx], e.from);
        var g := CountDown(f, e.from).(chunks := f.chunks[e.idx := failed]);
        CheckAbortIff(f, f.chunks[e.idx], e.from, e.idx, f.candidates);
        ReceivedUpdate(f.chunks, e.idx, failed);
        LowAfterAnswer(f, e.from, e.idx, failed);
        LeftToAsk(f, g, e.idx, e.from);
        AnsweredAskable(f, g, e.idx);
        NeverAborts(g);
        ScheduleShape(g);
        ScheduleOnCourse(g);
      }
    }
  }

  lemma LeftToAsk(f: Fetch, g: Fetch, idx: nat, from: NodeId)
    requires idx < |f.chunks| == |g.chunks| && g.candidates == f.candidates && !Exhausted(f, f.chunks[idx], from)
    requires g.chunks[idx] == Failed(f.chunks[idx], from)
    ensures Untried(g, g.chunks[idx])
  {
    var c :| c in f.candidates && c !in f.chunks[idx].tried && c != from;
    assert c in g.candidates && c !in g.chunks[idx].tried;
  }

  lemma CandidateOnCourse(f: Fetch, p: NodeId, accepted: nat, wanted: nat)
    requires OnCourse(Fetching(f), accepted, wanted)
    ensures OnCourse(Scheduled(WithCandidate(f, p)).state, accepted, wanted)
  {
    hide ReceivedCount, Schedule;
    var g := WithCandidate(f, p);
    forall i | 0 <= i < |g.chunks| && g.chunks[i].status.Pending? ensures Untried(g, g.chunks[i]) {
      var c :| c in f.candidates && c !in f.chunks[i].tried;
      assert c in g.candidates;
    }
    ScheduleOnCourse(WithCandidate(f, p));
    ScheduleShape(WithCandidate(f, p));
  }

  lemma FreshOnCourse(m: Manifest, peers: set<NodeId>)
    requires peers != {}
    ensures var s := Scheduled(FreshFetch(m, peers)).state;
      s.Fetching? && OnCourse(s, 0, |s.f.chunks|)
  {
    hide ReceivedCount, Schedule, Sorted;
    var f := FreshFetch(m, peers);
    NoneReceived(f.chunks);
    SortedHasAll(peers);
    var p :| p in peers;
    assert p in f.candidates;
    ScheduleOnCourse(f);
    ScheduleShape(f);
  }

  lemma StepOnCourse(hash: Bytes -> nat, interval: nat, log: seq<Request>, s: State, e: Event, accepted: nat, wanted: nat)
    requires StateOk(hash, log, s) && OnCourse(s, accepted, wanted) && CleanEvent(hash, s, e)
    ensures var now := Step(hash, interval, s, e).state;
      OnCourse(now, accepted + (if Delivers(s, e) then 1 else 0), if !s.Fetching? && now.Fetching? then |now.f.chunks| else wanted)
  {
    hide Good, Scheduled, WithCandidate, FreshFetch, OnChunk, AnyInFlight, LogFinal, Askable, ReceivedCount, Exhausted;
    match e
    case ObserveProposal(_, _, p, _) => if s.Fetching? { ScheduledFetches(WithCandidate(s.f, p)); CandidateOnCourse(s.f, p, accepted, wanted); }
    case AddCandidate(p) => if s.Fetching? { ScheduledFetches(WithCandidate(s.f, p)); CandidateOnCourse(s.f, p, accepted, wanted); }
    case ManifestResponse(_, m, _) =>
      if s.ManifestPending? && m.Some? { FreshOnCourse(m.value, s.waiting + {s.primary}); }
    case ChunkResponse(_, _, _, _) => if s.Fetching? { AnswerOnCourse(hash, log, s.f, e, accepted, wanted); }
    case PeerDisconnected(p) =>
  }

  lemma ScheduledFetches(f: Fetch)
    ensures Scheduled(f).state.Fetching?
  {
    hide Schedule;
  }

  lemma {:induction false} RunOnCourse(hash: Bytes -> nat, interval: nat, es: seq<Event>)
    requires Clean(hash, interval, es)
    ensures OnCourse(Run(hash, interval, es).state, DeliveredCount(hash, interval, es), ChunksWanted(hash, interval, es))
  {
    hide Step, StateOk, OnCourse, Delivers, CleanEvent, LogFinal, RestoresOk;
    if es == [] {
      assert OnCourse(Idle({}), 0, 0) by { IdleOnCourse(); }
    } else {
      var front := es[..|es| - 1];
      RunOnCourse(hash, interval, front);
      RunOk(hash, interval, front);
      var r := Run(hash, interval, front);
      StepOnCourse(hash, interval, LogOf(r.actions), r.state, es[|es| - 1],
                   DeliveredCount(hash, interval, front), ChunksWanted(hash, interval, front));
    }
  }

  lemma IdleOnCourse()
    ensures OnCourse(Idle({}), 0, 0)
  {
  }

  predicate Restored(actions: seq<Action>) { exists i :: 0 <= i < |actions| && actions[i].Restore? }

  lemma StepRestores(hash: Bytes -> nat, interval: nat, s: State, e: Event)
    ensures var now := Step(hash, interval, s, e);
      && (s.Done? ==> now.state.Done?)
      && (Restored(now.actions) <==> now.state.Done? && !s.Done?)
  {
    hide Schedule, Concat, WithCandidate, FreshFetch, DropPeer, Disconnected, CountDown, CheckAbort, AnyInFlight, AnyPending;
    var now := Step(hash, interval, s, e);
    if now.state.Done? && !s.Done? { assert now.actions[0].Restore?; }
  }

  /** Over every run the machine is done exactly when it has restored. */
  lemma {:induction false} DoneIffRestored(hash: Bytes -> nat, interval: nat, es: seq<Event>)
    ensures Run(hash, interval, es).state.Done? <==> Restored(Run(hash, interval, es).actions)
  {
    hide Step;
    if es == [] {
    } else {
      var before := Run(hash, interval, es[..|es| - 1]);
      DoneIffRestored(hash, interval, es[..|es| - 1]);
      StepRestores(hash, interval, before.state, es[|es| - 1]);
      var now := Step(hash, interval, before.state, es[|es| - 1]).actions;
      RestoredAppend(before.actions, now);
    }
  }

  lemma RestoredAppend(a: seq<Action>, b: seq<Action>)
    ensures Restored(a + b) <==> Restored(a) || Restored(b)
  {
    if Restored(b) {
      var i :| 0 <= i < |b| && b[i].Restore?;
      assert (a + b)[|a| + i].Restore?;
    }
    if Restored(a) {
      var i :| 0 <= i < |a| && a[i].Restore?;
      assert (a + b)[i].Restore?;
    }
  }

  /**
   * A run on which nothing fails for good never aborts. Until it restores it lacks exactly the chunks
   * not yet delivered and some peer is asked for one of them; it restores if and only if there is a
   * chunk to fetch and as many chunks were delivered as there are.
   */
  lemma CleanRunCompletes(hash: Bytes -> nat, interval: nat, es: seq<Event>)
    requires Clean(hash, interval, es)
    ensures var r, accepted, wanted := Run(hash, interval, es), DeliveredCount(hash, interval, es), ChunksWanted(hash, interval, es);
      && !r.state.Aborted?
      && (r.state.Fetching? ==> |r.state.f.chunks| == wanted && ReceivedCount(r.state.f.chunks) == accepted)
      && (r.state.Fetching? && wanted > 0 ==> accepted < wanted && AnyInFlight(r.state.f.chunks))
      && (Restored(r.actions) <==> wanted > 0 && accepted == wanted)
  {
    hide Run, Clean, DeliveredCount, ChunksWanted, Good, Askable, LogFinal, RestoresOk, Restored, ReceivedCount;
    RunOnCourse(hash, interval, es);
    RunOk(hash, interval, es);
    DoneIffRestored(hash, interval, es);
    var s := Run(hash, interval, es).state;
    if s.Fetching? { AllReceivedIff(s.f.chunks); }
  }

  // ---------------------------------------------------------------------------
  // Honest answers complete every such download

  /** The run restores the payload. */
  ghost predicate RestoresTo(hash: Bytes -> nat, interval: nat, es: seq<Event>, p: Bytes) {
    var acts := Run(hash, interval, es).actions;
    exists i :: 0 <= i < |acts| && acts[i].Restore? && acts[i].payload == p
  }

  predicate RestoresFrom(actions: seq<Action>, m: Manifest) {
    exists i :: 0 <= i < |actions| && actions[i].Restore? && actions[i].manifest == m
  }

  /** The next honest answer: a chunk some peer was asked for. */
  lemma NextAnswer(hash: Bytes -> nat, log: seq<Request>, f: Fetch, p: Bytes, size: nat) returns (e: Event)
    requires Good(hash, log, f) && AnyInFlight(f.chunks) && size > 0 && f.manifest.hashes == Hashes(hash, Chunks(p, size))
    ensures CleanEvent(hash, Fetching(f), e) && Delivers(Fetching(f), e)
  {
    hide LogSlot, SlotOk, Bounded, Distinct, InRange, Gap, Chunks;
    var i :| 0 <= i < |f.chunks| && f.chunks[i].status.InFlight?;
    e := ChunkResponse(f.chunks[i].status.peer, f.manifest.height, i, Some(Chunks(p, size)[i]));
  }

  /** One honest answer from a run under way. */
  lemma AnswerOnce(hash: Bytes -> nat, interval: nat, es: seq<Event>, p: Bytes, size: nat) returns (e: Event)
    requires Clean(hash, interval, es) && Run(hash, interval, es).state.Fetching? && size > 0
    requires Run(hash, interval, es).state.f.manifest.hashes == Hashes(hash, Chunks(p, size))
    ensures Clean(hash, interval, es + [e])
    ensures DeliveredCount(hash, interval, es + [e]) == DeliveredCount(hash, interval, es) + 1
    ensures ChunksWanted(hash, interval, es + [e]) == ChunksWanted(hash, interval, es)
    ensures var now := Run(hash, interval, es + [e]);
      && (now.state.Fetching? || now.state.Done?)
      && (now.state.Fetching? ==> now.state.f.manifest == Run(hash, interval, es).state.f.manifest)
      && (now.state.Done? ==> RestoresFrom(now.actions, Run(hash, interval, es).state.f.manifest))
  {
    hide Good, OnChunk, CleanEvent, Delivers, LogFinal, RestoresOk, Chunks, Hashes, OnCourse;
    var r := Run(hash, interval, es);
    RunOk(hash, interval, es);
    RunOnCourse(hash, interval, es);
    SomeInFlight(hash, LogOf(r.actions), r.state.f, p, size);
    e := NextAnswer(hash, LogOf(r.actions), r.state.f, p, size);
    AcceptedIsChunk(r.state, e);
    assert (es + [e])[..|es|] == es;
    var a, w := DeliveredCount(hash, interval, es), ChunksWanted(hash, interval, es);
    AnswerOnCourse(hash, LogOf(r.actions), r.state.f, e, a, w);
    var now := Step(hash, interval, r.state, e);
    CourseGoesOn(now.state, a + 1, w, r.state, e);
    if now.state.Done? { assert (r.actions + now.actions)[|r.actions|] == now.actions[0]; }
  }

  lemma SomeInFlight(hash: Bytes -> nat, log: seq<Request>, f: Fetch, p: Bytes, size: nat)
    requires StateOk(hash, log, Fetching(f)) && size > 0 && f.manifest.hashes == Hashes(hash, Chunks(p, size))
    ensures AnyInFlight(f.chunks)
  {
    hide Chunks, AnyInFlight, Bounded, Distinct, InRange, Gap, SlotOk, LogSlot;
    ChunksRoundTrip(p, size);
  }

  lemma AcceptedIsChunk(s: State, e: Event)
    requires Delivers(s, e)
    ensures s.Fetching? && e.ChunkResponse?
  {
  }

  lemma CourseGoesOn(now: State, accepted: nat, wanted: nat, s: State, e: Event)
    requires OnCourse(now, accepted, wanted) && accepted > 0
    ensures now.Fetching? || now.Done?
  {
  }

  /**
   * From every run on which nothing failed for good so far, whatever was declined, and whose manifest
   * describes the payload, honest answers to the requests outstanding, one for each chunk not yet
   * delivered, end in its restore.
   */
  lemma {:induction false} HonestAnswersRestore(hash: Bytes -> nat, interval: nat, es: seq<Event>, p: Bytes, size: nat) returns (more: seq<Event>)
    requires forall a, b :: hash(a) == hash(b) ==> a == b
    requires Clean(hash, interval, es) && Run(hash, interval, es).state.Fetching? && size > 0
    requires Run(hash, interval, es).state.f.manifest.hashes == Hashes(hash, Chunks(p, size))
    ensures Clean(hash, interval, es + more) && RestoresTo(hash, interval, es + more, p)
    ensures |more| == ChunksWanted(hash, interval, es) - DeliveredCount(hash, interval, es)
    decreases ChunksWanted(hash, interval, es) - DeliveredCount(hash, interval, es)
  {
    hide Run, Clean, DeliveredCount, ChunksWanted, Chunks, Hashes;
    var e := AnswerOnce(hash, interval, es, p, size);
    var now := Run(hash, interval, es + [e]);
    StillWanted(hash, interval, es + [e]);
    if now.state.Done? {
      var i :| 0 <= i < |now.actions| && now.actions[i].Restore? && now.actions[i].manifest == Run(hash, interval, es).state.f.manifest;
      RestoreIsOriginal(hash, interval, es + [e], i, p, size);
      more := [e];
    } else {
      var rest := HonestAnswersRestore(hash, interval, es + [e], p, size);
      more := [e] + rest;
      assert es + more == es + [e] + rest;
    }
  }

  lemma StillWanted(hash: Bytes -> nat, interval: nat, es: seq<Event>)
    requires Clean(hash, interval, es)
    ensures DeliveredCount(hash, interval, es) <= ChunksWanted(hash, interval, es)
    ensures Run(hash, interval, es).state.Done? ==> DeliveredCount(hash, interval, es) == ChunksWanted(hash, interval, es)
  {
    hide Run, Clean, DeliveredCount, ChunksWanted, Askable;
    RunOnCourse(hash, interval, es);
  }

  // ---------------------------------------------------------------------------
  // A slot that waits for a peer nobody knows any more

  predicate StuckOn(s: State, i: nat, p: NodeId) {
    s.Fetching? && i < |s.f.chunks| && s.f.chunks[i].status == InFlight(p) && p !in s.f.candidates
  }

  /** The peer sends no chunk and is not named as a candidate; it may disconnect. */
  predicate Away(e: Event, p: NodeId) {
    match e
    case ChunkResponse(from, _, _, _) => from != p
    case AddCandidate(c) => c != p
    case ObserveProposal(_, _, c, _) => c != p
    case _ => true
  }

  lemma {:induction false} ScheduleStuck(f: Fetch, i: nat, p: NodeId)
    requires StuckOn(Fetching(f), i, p)
    ensures StuckOn(Fetching(Schedule(f).0), i, p)
    decreases MAX_CONCURRENT - MapSum(f.counters)
  {
    hide Pick, MapSum;
    if MapSum(f.counters) < MAX_CONCURRENT && Pick(f, 0).Some? {
      var q := Pick(f, 0).value;
      PickExact(f, 0);
      SentSum(f, q);
      ScheduleStuck(Send(f, q), i, p);
    }
  }

  lemma ScheduledStuck(f: Fetch, i: nat, p: NodeId)
    requires StuckOn(Fetching(f), i, p)
    ensures StuckOn(Scheduled(f).state, i, p) && TryFinish(f) == ScheduleOrAbort(f)
    ensures ScheduleOrAbort(f).state.Aborted? || StuckOn(ScheduleOrAbort(f).state, i, p)
  {
    hide Schedule, AnyInFlight, AnyPending;
    ScheduleStuck(f, i, p);
    assert !f.chunks[i].status.Received?;
  }

  lemma {:induction false} WithoutIsPart(cs: seq<NodeId>, peer: NodeId, p: NodeId)
    requires p !in cs
    ensures p !in Without(cs, peer)
  {
    if cs == [] {
    } else {
      WithoutIsPart(cs[..|cs| - 1], peer, p);
    }
  }

  lemma ChunkStuck(hash: Bytes -> nat, f: Fetch, e: Event, i: nat, p: NodeId)
    requires StuckOn(Fetching(f), i, p) && e.ChunkResponse? && Away(e, p)
    ensures var now := OnChunk(hash, f, e.from, e.atHeight, e.idx, e.payload).state;
      now.Aborted? || StuckOn(now, i, p)
  {
    hide TryFinish, ScheduleOrAbort, CheckAbort, Without;
    if Accepted(f, e.from, e.atHeight, e.idx) {
      var f1 := CountDown(f, e.from);
      var failed := AfterFailure(f1, e.from, e.idx);
      ScheduledStuck(failed, i, p);
      WithoutIsPart(f.candidates, e.from, p);
      ScheduledStuck(DropPeer(failed, e.from), i, p);
      if e.payload.Some? {
        ScheduledStuck(f1.(chunks := f1.chunks[e.idx := f1.chunks[e.idx].(status := Received(e.payload.value))]), i, p);
      }
    }
  }

  lemma StepStuck(hash: Bytes -> nat, interval: nat, s: State, e: Event, i: nat, p: NodeId)
    requires StuckOn(s, i, p) && Away(e, p)
    ensures var now := Step(hash, interval, s, e).state;
      now.Aborted? || StuckOn(now, i, p)
  {
    hide Schedule, ScheduleOrAbort, OnChunk, Scheduled, Without, Disconnected;
    match e
    case ObserveProposal(_, _, c, _) => ScheduledStuck(WithCandidate(s.f, c), i, p);
    case AddCandidate(c) => ScheduledStuck(WithCandidate(s.f, c), i, p);
    case ManifestResponse(_, _, _) =>
    case ChunkResponse(_, _, _, _) => ChunkStuck(hash, s.f, e, i, p);
    case PeerDisconnected(q) =>
      var f1 := DropPeer(s.f, q);
      if q in s.f.candidates && Disconnected(f1.chunks, f1.candidates, q, 0).Ok? {
        DisconnectedExact(f1.chunks, f1.candidates, q, 0);
        WithoutIsPart(s.f.candidates, q, p);
        ScheduledStuck(f1.(chunks := Disconnected(f1.chunks, f1.candidates, q, 0).value), i, p);
      }
  }

  /**
   * A slot that waits for a peer that is no candidate is never asked of anybody else: whatever else
   * happens while that peer stays away, the download aborts or waits on, and never restores.
   */
  lemma {:induction false} StuckWhileAway(hash: Bytes -> nat, interval: nat, es: seq<Event>, more: seq<Event>, i: nat, p: NodeId)
    requires StuckOn(Run(hash, interval, es).state, i, p)
    requires forall k :: 0 <= k < |more| ==> Away(more[k], p)
    ensures var s := Run(hash, interval, es + more).state;
      s.Aborted? || StuckOn(s, i, p)
    ensures !Restored(Run(hash, interval, es + more).actions)
  {
    hide Step, StuckOn, Away, Restored;
    DoneIffRestored(hash, interval, es + more);
    if more == [] {
      assert es + more == es;
      StuckIsFetching(Run(hash, interval, es).state, i, p);
    } else {
      var front := more[..|more| - 1];
      StuckWhileAway(hash, interval, es, front, i, p);
      assert (es + more)[..|es + more| - 1] == es + front;
      var before := Run(hash, interval, es + front).state;
      if before.Aborted? {
        AbortedStays(hash, interval, more[|more| - 1]);
      } else {
        StepStuck(hash, interval, before, more[|more| - 1], i, p);
      }
      if !Run(hash, interval, es + more).state.Aborted? { StuckIsFetching(Run(hash, interval, es + more).state, i, p); }
    }
  }

  lemma StuckIsFetching(s: State, i: nat, p: NodeId)
    requires StuckOn(s, i, p)
    ensures s.Fetching?
  {
  }

  lemma AbortedStays(hash: Bytes -> nat, interval: nat, e: Event)
    ensures Step(hash, interval, Aborted, e).state == Aborted
  {
  }

  /** The run with the bad chunk never restores while the peer that sent it stays away. */
  lemma GonePeerBlocksRestore(hash: Bytes -> nat, more: seq<Event>)
    requires forall k :: 0 <= k < |more| ==> Away(more[k], 1)
    ensures !Restored(Run(hash, 10, Lagging(hash) + more).actions)
  {
    hide Run, Lagging, Restored, Away;
    LaggingRun(hash);
    StuckWhileAway(hash, 10, Lagging(hash), more, 1, 1);
  }
}
