/** How much a download can take, and a download that leaves a slot waiting for a peer that is gone. */
module SnapshotLimits {
  import opened Common
  import opened SnapshotChunks
  import opened SnapshotSync
  import opened SnapshotRuns
  import opened SnapshotCounters

  // ---------------------------------------------------------------------------
  // Accepted responses over a run

  predicate IsAccepted(s: State, e: Event) {
    s.Fetching? && e.ChunkResponse? && Accepted(s.f, e.from, e.atHeight, e.idx)
  }

  /** The chunk responses of the run that the machine reacted to. */
  ghost function AcceptedCount(hash: Bytes -> nat, interval: nat, es: seq<Event>): nat {
    if es == [] then 0
    else
      AcceptedCount(hash, interval, es[..|es| - 1])
      + if IsAccepted(Run(hash, interval, es[..|es| - 1]).state, es[|es| - 1]) then 1 else 0
  }

  /** The chunks of the snapshot the run set out to fetch. */
  ghost function ChunksWanted(hash: Bytes -> nat, interval: nat, es: seq<Event>): nat {
    if es == [] then 0
    else
      var before, now := Run(hash, interval, es[..|es| - 1]).state, Run(hash, interval, es).state;
      if !before.Fetching? && now.Fetching? then |now.f.chunks| else ChunksWanted(hash, interval, es[..|es| - 1])
  }

  predicate Waiting(s: State) { s.Idle? || s.ManifestPending? }

  lemma {:induction false} FreshWork(n: nat, chunks: seq<Slot>)
    requires |chunks| == n && forall i :: 0 <= i < n ==> chunks[i] == Slot(Pending, {}, 0)
    ensures Work(chunks) == RETRY_BUDGET * n
  {
    if n == 0 {
    } else {
      FreshWork(n - 1, chunks[..n - 1]);
    }
  }

  /** What one event does to the phase of the run and to the work left. */
  lemma PhaseStep(hash: Bytes -> nat, interval: nat, log: seq<Request>, s: State, e: Event)
    requires StateOk(hash, log, s)
    ensures var now := Step(hash, interval, s, e).state;
      && (!Waiting(s) ==> !Waiting(now))
      && (s.Fetching? ==> WorkLeft(now) + (if IsAccepted(s, e) then 1 else 0) <= WorkLeft(s))
      && (Waiting(s) && now.Fetching? ==> WorkLeft(now) == RETRY_BUDGET * |now.f.chunks|)
      && (!Waiting(s) && !s.Fetching? ==> now == s)
  {
    hide Good, Work, Schedule, Scheduled, ScheduleOrAbort, Retry, TryFinish, LogFinal, AnyInFlight, FreshFetch, WithCandidate, DropPeer, Disconnected;
    if s.Fetching? {
      WorkNeverGrows(hash, interval, log, s.f, e);
      if IsAccepted(s, e) { AcceptedDecreasesWork(hash, log, s.f, e.from, e.atHeight, e.idx, e.payload); }
      StaysUnderWay(hash, interval, s.f, e);
    } else if s.ManifestPending? && e.ManifestResponse? && e.manifest.Some? {
      FreshScheduled(e.manifest.value, s.waiting + {s.primary});
    }
  }

  lemma FreshScheduled(m: Manifest, peers: set<NodeId>)
    ensures var s := Scheduled(FreshFetch(m, peers)).state;
      s.Fetching? && WorkLeft(s) == RETRY_BUDGET * |s.f.chunks|
  {
    hide Work, Schedule, Sorted;
    var f := FreshFetch(m, peers);
    ScheduleShape(f);
    FreshWork(|f.chunks|, f.chunks);
  }

  lemma StaysUnderWay(hash: Bytes -> nat, interval: nat, f: Fetch, e: Event)
    ensures !Waiting(Step(hash, interval, Fetching(f), e).state)
  {
    hide Schedule, AnyInFlight, AnyPending, AllReceived, CheckAbort, WithCandidate, DropPeer, Disconnected, CountDown;
  }

  ghost predicate WithinBudget(s: State, accepted: nat, wanted: nat) {
    && (Waiting(s) ==> accepted == 0 && wanted == 0)
    && accepted + WorkLeft(s) <= RETRY_BUDGET * wanted
  }

  lemma {:induction false} RunWithinBudget(hash: Bytes -> nat, interval: nat, es: seq<Event>)
    ensures WithinBudget(Run(hash, interval, es).state, AcceptedCount(hash, interval, es), ChunksWanted(hash, interval, es))
  {
    hide Step, StateOk, Work, IsAccepted;
    if es == [] {
    } else {
      var front, e := es[..|es| - 1], es[|es| - 1];
      RunWithinBudget(hash, interval, front);
      RunOk(hash, interval, front);
      var r := Run(hash, interval, front);
      PhaseStep(hash, interval, LogOf(r.actions), r.state, e);
      if !r.state.Fetching? { NotAccepted(r.state, e); }
    }
  }

  lemma NotAccepted(s: State, e: Event)
    requires !s.Fetching?
    ensures !IsAccepted(s, e)
  {
  }

  /** Over every run, however many peers come and go, at most three responses per chunk are ever accepted. */
  lemma AcceptedAtMostThreePerChunk(hash: Bytes -> nat, interval: nat, es: seq<Event>)
    ensures AcceptedCount(hash, interval, es) <= 3 * ChunksWanted(hash, interval, es)
  {
    hide Run, AcceptedCount, ChunksWanted;
    RunWithinBudget(hash, interval, es);
  }

  // ---------------------------------------------------------------------------
  // A bad chunk, then a disconnection
  //
  // Peer 1 is asked for both chunks of a snapshot, peer 2 joins, chunk 0 arrives from peer 1 and fails
  // its hash check, and peer 1 disconnects.

  function TwoChunks(hash: Bytes -> nat): Manifest { Manifest(7, 4, 2, [hash([0]) + 1, hash([1])]) }

  function Lagging(hash: Bytes -> nat): seq<Event> {
    [ObserveProposal(0, 10, 1, true)] + [ManifestResponse(1, Some(TwoChunks(hash)), true)] + [AddCandidate(2)]
    + [ChunkResponse(1, 7, 0, Some([0]))]
  }

  const Unasked: Slot := Slot(Pending, {}, 0)
  function Asked(peer: NodeId): Slot { Slot(InFlight(peer), {}, 0) }

  function BothAsked(hash: Bytes -> nat): Fetch { Fetch(TwoChunks(hash), [1], map[1 := 2], [Asked(1), Asked(1)]) }
  function Joined(hash: Bytes -> nat): Fetch { Fetch(TwoChunks(hash), [1, 2], map[1 := 2, 2 := 0], [Asked(1), Asked(1)]) }
  function Retried(hash: Bytes -> nat): Fetch {
    Fetch(TwoChunks(hash), [2], map[2 := 1], [Slot(InFlight(2), {1}, 1), Asked(1)])
  }

  lemma NoSum()
    ensures MapSum(map[]) == 0
  {
  }

  lemma SumOne(k: NodeId, v: nat)
    ensures MapSum(map[k := v]) == v
  {
    NoSum();
    MapSumUpdate(map[], k, v);
    assert map[][k := v] == map[k := v];
  }

  lemma NothingPending(f: Fetch)
    requires forall i :: 0 <= i < |f.chunks| ==> !f.chunks[i].status.Pending?
    ensures Schedule(f) == (f, [])
  {
    hide Pick, MapSum;
    PickExact(f, 0);
    ScheduleTurn(f);
  }

  lemma FreshIsScheduled(hash: Bytes -> nat)
    ensures Schedule(FreshFetch(TwoChunks(hash), {1})).0 == BothAsked(hash)
  {
    hide Schedule, MapSum;
    var f := FreshFetch(TwoChunks(hash), {1});
    assert {1} - {1} == {};
    assert f == Fetch(TwoChunks(hash), [1], map[1 := 0], [Unasked, Unasked]);
    SumOne(1, 0);
    ScheduleTurn(f);
    var f1 := Send(f, (0, 1));
    assert f1 == Fetch(TwoChunks(hash), [1], map[1 := 1], [Asked(1), Unasked]);
    SumOne(1, 1);
    ScheduleTurn(f1);
    var f2 := Send(f1, (1, 1));
    assert f2 == BothAsked(hash);
    NothingPending(f2);
  }

  lemma JoinedIsScheduled(hash: Bytes -> nat)
    ensures WithCandidate(BothAsked(hash), 2) == Joined(hash) && Schedule(Joined(hash)).0 == Joined(hash)
  {
    hide Schedule;
    assert [1] + [2] == [1, 2] && map[1 := 2][2 := 0] == map[1 := 2, 2 := 0];
    NothingPending(Joined(hash));
  }

  lemma DroppedState(hash: Bytes -> nat)
    ensures DropPeer(AfterFailure(CountDown(Joined(hash), 1), 1, 0), 1)
         == Fetch(TwoChunks(hash), [2], map[2 := 0], [Slot(Pending, {1}, 1), Asked(1)])
  {
    var cs: seq<NodeId> := [1, 2];
    assert cs[..1] == [1] && cs[..1][..0] == [];
    assert Without([1], 1) == [] && Without(cs, 1) == [2];
    assert map[1 := 2, 2 := 0][1 := 1] - {1} == map[2 := 0];
    assert [Asked(1), Asked(1)][0 := Slot(Pending, {1}, 1)] == [Slot(Pending, {1}, 1), Asked(1)];
    assert {} + {1} == {1};
  }

  lemma DroppedIsScheduled(hash: Bytes -> nat)
    ensures var f := Fetch(TwoChunks(hash), [2], map[2 := 0], [Slot(Pending, {1}, 1), Asked(1)]);
      Schedule(f).0 == Retried(hash) && Schedule(f).1 != []
  {
    hide Schedule, MapSum;
    var f := Fetch(TwoChunks(hash), [2], map[2 := 0], [Slot(Pending, {1}, 1), Asked(1)]);
    SumOne(2, 0);
    ScheduleTurn(f);
    var g := Send(f, (0, 2));
    assert g == Retried(hash);
    NothingPending(g);
  }

  lemma BadChunkStep(hash: Bytes -> nat)
    ensures OnChunk(hash, Joined(hash), 1, 7, 0, Some([0])).state == Fetching(Retried(hash))
    ensures BadChunk(hash, Fetching(Joined(hash)), ChunkResponse(1, 7, 0, Some([0])))
  {
    hide Schedule, DropPeer, CountDown, AfterFailure;
    DroppedState(hash);
    DroppedIsScheduled(hash);
    assert 2 in [2] && 2 !in {1};
  }

  lemma {:induction false} OneMoreEvent(hash: Bytes -> nat, interval: nat, es: seq<Event>, e: Event)
    ensures Run(hash, interval, es + [e]).state == Step(hash, interval, Run(hash, interval, es).state, e).state
  {
    hide Step;
    assert (es + [e])[..|es|] == es;
  }

  lemma LaggingRun(hash: Bytes -> nat)
    ensures Run(hash, 10, Lagging(hash)).state == Fetching(Retried(hash))
  {
    hide Run, Schedule, OnChunk, WithCandidate, FreshFetch;
    var es1: seq<Event> := [ObserveProposal(0, 10, 1, true)];
    var es2 := es1 + [ManifestResponse(1, Some(TwoChunks(hash)), true)];
    var es3 := es2 + [AddCandidate(2)];
    EmptyRunState(hash);
    assert [] + es1 == es1;
    OneMoreEvent(hash, 10, [], es1[0]);
    assert {} + {1} == {1} && {1} + {1} == {1};
    OneMoreEvent(hash, 10, es1, ManifestResponse(1, Some(TwoChunks(hash)), true));
    FreshIsScheduled(hash);
    OneMoreEvent(hash, 10, es2, AddCandidate(2));
    JoinedIsScheduled(hash);
    OneMoreEvent(hash, 10, es3, ChunkResponse(1, 7, 0, Some([0])));
    BadChunkStep(hash);
  }

  lemma EmptyRunState(hash: Bytes -> nat)
    ensures Run(hash, 10, []).state == Idle({})
  {
  }

  lemma RetriedCounts(hash: Bytes -> nat)
    ensures TrueCount(Retried(hash).chunks, 1) == 1 && Counter(Retried(hash).counters, 1) == 0
  {
    var cs := Retried(hash).chunks;
    assert cs[..1] == [cs[0]] && cs[..1][..0] == [];
    assert TrueCount(cs[..1], 1) == 0;
  }

  /**
   * After the bad chunk one slot waits for peer 1 that no counter knows of, and after the
   * disconnection of peer 1 it still does.
   */
  lemma SlotWaitsForGonePeer(hash: Bytes -> nat)
    ensures var s := Run(hash, 10, Lagging(hash)).state;
      && s.Fetching? && !CountersExact(s.f) && TrueCount(s.f.chunks, 1) == 1
      && Run(hash, 10, Lagging(hash) + [PeerDisconnected(1)]).state == s
  {
    hide Run, Lagging, TrueCount;
    LaggingRun(hash);
    RetriedCounts(hash);
    assert Gap(Retried(hash), 1) == 1;
    OneMoreEvent(hash, 10, Lagging(hash), PeerDisconnected(1));
    assert 1 !in Retried(hash).candidates;
  }
}
