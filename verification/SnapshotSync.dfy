/**
 * Downloading a snapshot chunk by chunk from several peers (`snapshot_sync.rs`): the states, the
 * scheduler and what each event does to them.
 */
module SnapshotSync {
  import opened Common
  import opened SnapshotChunks

  type NodeId = nat

  const MAX_CONCURRENT: nat := 4
  const PER_PEER: nat := 2
  const RETRY_BUDGET: nat := 3

  datatype ChunkStatus = Pending | InFlight(peer: NodeId) | Received(bytes: Bytes)
  datatype Slot = Slot(status: ChunkStatus, tried: set<NodeId>, attempts: nat)

  datatype Manifest = Manifest(height: nat, chunkSize: nat, chunkCount: nat, hashes: seq<nat>)

  /** The fields of `State::Fetching`. */
  datatype Fetch = Fetch(manifest: Manifest, candidates: seq<NodeId>, counters: map<NodeId, nat>, chunks: seq<Slot>)

  datatype State =
    | Idle(observed: set<NodeId>)
    | ManifestPending(primary: NodeId, waiting: set<NodeId>)
    | Fetching(f: Fetch)
    | Done
    | Aborted

  datatype AbortReason = PeerHasNoSnapshot | ManifestVerifyFailed
                       | ChunkRetryBudgetExhausted(idx: nat, attempts: nat) | CandidatesExhausted

  datatype Action =
    | SendManifestRequest(peer: NodeId)
    | SendChunkRequest(peer: NodeId, height: nat, idx: nat)
    | Restore(manifest: Manifest, payload: Bytes)
    | Abort(reason: AbortReason)

  /** A chunk requested from a peer. */
  type Request = (nat, NodeId)

  // ---------------------------------------------------------------------------
  // Counters

  function Counter(m: map<NodeId, nat>, p: NodeId): nat { if p in m then m[p] else 0 }

  // ---------------------------------------------------------------------------
  // The scheduler

  /** The first candidate, from position `j`, that the slot has not tried and that has room. */
  function EligiblePeer(f: Fetch, slot: Slot, j: nat): Option<NodeId>
    requires j <= |f.candidates|
    decreases |f.candidates| - j
  {
    if j == |f.candidates| then None
    else
      var p := f.candidates[j];
      if p !in slot.tried && Counter(f.counters, p) < PER_PEER then Some(p) else EligiblePeer(f, slot, j + 1)
  }

  /** The first pending slot, from `i`, that some candidate can serve. */
  function Pick(f: Fetch, i: nat): Option<Request>
    requires i <= |f.chunks|
    decreases |f.chunks| - i
  {
    if i == |f.chunks| then None
    else if f.chunks[i].status.Pending? && EligiblePeer(f, f.chunks[i], 0).Some? then
      Some((i, EligiblePeer(f, f.chunks[i], 0).value))
    else Pick(f, i + 1)
  }

  predicate Sendable(f: Fetch, q: Request) {
    && q.0 < |f.chunks| && f.chunks[q.0].status.Pending?
    && q.1 in f.candidates && q.1 !in f.chunks[q.0].tried && Counter(f.counters, q.1) < PER_PEER
  }

  lemma {:induction false} EligibleSound(f: Fetch, slot: Slot, j: nat)
    requires j <= |f.candidates|
    ensures var r := EligiblePeer(f, slot, j);
      && (r.Some? ==> r.value in f.candidates && r.value !in slot.tried && Counter(f.counters, r.value) < PER_PEER)
      && (r.None? ==> forall k :: j <= k < |f.candidates| ==>
            f.candidates[k] in slot.tried || Counter(f.counters, f.candidates[k]) >= PER_PEER)
    decreases |f.candidates| - j
  {
    if j < |f.candidates| { EligibleSound(f, slot, j + 1); }
  }

  /** `Pick` finds a sendable request exactly when there is one. */
  lemma {:induction false} PickExact(f: Fetch, i: nat)
    requires i <= |f.chunks|
    ensures Pick(f, i).Some? ==> Sendable(f, Pick(f, i).value)
    ensures Pick(f, i).None? ==> forall q: Request :: i <= q.0 ==> !Sendable(f, q)
    decreases |f.chunks| - i
  {
    if i < |f.chunks| {
      EligibleSound(f, f.chunks[i], 0);
      PickExact(f, i + 1);
    }
  }

  /** Marking a slot in flight and counting it. */
  function Send(f: Fetch, q: Request): Fetch
    requires q.0 < |f.chunks|
  {
    f.(chunks := f.chunks[q.0 := f.chunks[q.0].(status := InFlight(q.1))],
       counters := f.counters[q.1 := Counter(f.counters, q.1) + 1])
  }

  /** `schedule`: the new state and the requests sent, in order. */
  ghost function Schedule(f: Fetch): (Fetch, seq<Request>)
    decreases MAX_CONCURRENT - MapSum(f.counters)
  {
    PickExact(f, 0);
    if MapSum(f.counters) >= MAX_CONCURRENT || Pick(f, 0).None? then (f, [])
    else
      var q := Pick(f, 0).value;
      MapSumUpdate(f.counters, q.1, Counter(f.counters, q.1) + 1);
      var (g, rest) := Schedule(Send(f, q));
      (g, [q] + rest)
  }

  /** One turn of the loop of `schedule`. */
  lemma ScheduleTurn(f: Fetch)
    ensures MapSum(f.counters) >= MAX_CONCURRENT || Pick(f, 0).None? ==> Schedule(f) == (f, [])
    ensures MapSum(f.counters) < MAX_CONCURRENT && Pick(f, 0).Some? ==>
      var q := Pick(f, 0).value;
      && q.0 < |f.chunks| && MapSum(Send(f, q).counters) == MapSum(f.counters) + 1
      && Send(f, q).manifest == f.manifest
      && Schedule(f).0 == Schedule(Send(f, q)).0 && Schedule(f).1 == [q] + Schedule(Send(f, q)).1
  {
    hide Pick, MapSum;
    PickExact(f, 0);
    if Pick(f, 0).Some? {
      var q := Pick(f, 0).value;
      MapSumUpdate(f.counters, q.1, Counter(f.counters, q.1) + 1);
    }
  }

  function Requests(height: nat, qs: seq<Request>): seq<Action> {
    seq(|qs|, i requires 0 <= i < |qs| => SendChunkRequest(qs[i].1, height, qs[i].0))
  }

  // ---------------------------------------------------------------------------
  // Events

  /** `check_chunk_abort`. */
  function CheckAbort(slot: Slot, idx: nat, candidates: seq<NodeId>): Option<AbortReason> {
    if slot.attempts >= RETRY_BUDGET then Some(ChunkRetryBudgetExhausted(idx, slot.attempts))
    else if candidates == [] then Some(CandidatesExhausted)
    else if forall c :: c in candidates ==> c in slot.tried then Some(ChunkRetryBudgetExhausted(idx, slot.attempts))
    else None
  }

  function Failed(slot: Slot, peer: NodeId): Slot {
    Slot(Pending, slot.tried + {peer}, slot.attempts + 1)
  }

  /** `Vec::retain(|p| *p != peer)`. */
  function Without(cs: seq<NodeId>, peer: NodeId): (r: seq<NodeId>) {
    if cs == [] then []
    else if cs[|cs| - 1] == peer then Without(cs[..|cs| - 1], peer)
    else Without(cs[..|cs| - 1], peer) + [cs[|cs| - 1]]
  }

  predicate AnyInFlight(chunks: seq<Slot>) { exists i :: 0 <= i < |chunks| && chunks[i].status.InFlight? }
  predicate AnyPending(chunks: seq<Slot>) { exists i :: 0 <= i < |chunks| && chunks[i].status.Pending? }
  predicate AllReceived(chunks: seq<Slot>) { forall i :: 0 <= i < |chunks| ==> chunks[i].status.Received? }

  function Parts(chunks: seq<Slot>): seq<Bytes>
    requires AllReceived(chunks)
  {
    seq(|chunks|, i requires 0 <= i < |chunks| => chunks[i].status.bytes)
  }

  datatype Outcome = Outcome(state: State, actions: seq<Action>)

  /** `schedule` on a fetching state. */
  ghost function Scheduled(f: Fetch): Outcome {
    Outcome(Fetching(Schedule(f).0), Requests(f.manifest.height, Schedule(f).1))
  }

  /** `schedule_or_abort`. */
  ghost function ScheduleOrAbort(f: Fetch): Outcome {
    var (g, sent) := Schedule(f);
    if !AnyInFlight(g.chunks) && AnyPending(g.chunks) && sent == [] then Outcome(Aborted, [Abort(CandidatesExhausted)])
    else Scheduled(f)
  }

  /** `try_finish_or_schedule`. */
  ghost function TryFinish(f: Fetch): Outcome {
    if AllReceived(f.chunks) then Outcome(Done, [Restore(f.manifest, Concat(Parts(f.chunks)))])
    else ScheduleOrAbort(f)
  }

  /** `verify_chunk`. */
  predicate ChunkVerifies(hash: Bytes -> nat, m: Manifest, idx: nat, p: Bytes) {
    idx < |m.hashes| && hash(p) == m.hashes[idx]
  }

  function CountDown(f: Fetch, peer: NodeId): Fetch {
    if peer in f.counters then
      f.(counters := f.counters[peer := if f.counters[peer] == 0 then 0 else f.counters[peer] - 1])
    else f
  }

  /** A response the machine reacts to: for the right snapshot, from the peer the slot waits for. */
  predicate Accepted(f: Fetch, from: NodeId, height: nat, idx: nat) {
    height == f.manifest.height && idx < |f.chunks| && f.chunks[idx].status == InFlight(from)
  }

  function AfterFailure(f: Fetch, from: NodeId, idx: nat): Fetch
    requires idx < |f.chunks|
  {
    f.(chunks := f.chunks[idx := Failed(f.chunks[idx], from)])
  }

  function DropPeer(f: Fetch, peer: NodeId): Fetch {
    f.(candidates := Without(f.candidates, peer), counters := f.counters - {peer})
  }

  ghost function Retry(f: Fetch, idx: nat): Outcome
    requires idx < |f.chunks|
  {
    var reason := CheckAbort(f.chunks[idx], idx, f.candidates);
    if reason.Some? then Outcome(Aborted, [Abort(reason.value)]) else ScheduleOrAbort(f)
  }

  /** `on_chunk_response`. */
  ghost function OnChunk(hash: Bytes -> nat, f: Fetch, from: NodeId, height: nat, idx: nat, payload: Option<Bytes>): Outcome {
    if !Accepted(f, from, height, idx) then Outcome(Fetching(f), [])
    else
      var f1 := CountDown(f, from);
      match payload
      case None => Retry(AfterFailure(f1, from, idx), idx)
      case Some(p) =>
        if !ChunkVerifies(hash, f.manifest, idx, p) then Retry(DropPeer(AfterFailure(f1, from, idx), from), idx)
        else TryFinish(f1.(chunks := f1.chunks[idx := f1.chunks[idx].(status := Received(p))]))
  }

  /** The loop of `on_peer_disconnected` over the slots from `i`. */
  function Disconnected(chunks: seq<Slot>, candidates: seq<NodeId>, peer: NodeId, i: nat): Result<seq<Slot>, AbortReason>
    requires i <= |chunks|
    decreases |chunks| - i
  {
    if i == |chunks| then Ok(chunks)
    else if chunks[i].status != InFlight(peer) then Disconnected(chunks, candidates, peer, i + 1)
    else
      var slot := Failed(chunks[i], peer);
      var reason := CheckAbort(slot, i, candidates);
      if reason.Some? then Err(reason.value) else Disconnected(chunks[i := slot], candidates, peer, i + 1)
  }

  ghost function OnDisconnect(f: Fetch, peer: NodeId): Outcome {
    if peer !in f.candidates then Outcome(Fetching(f), [])
    else
      var f1 := DropPeer(f, peer);
      match Disconnected(f1.chunks, f1.candidates, peer, 0)
      case Err(reason) => Outcome(Aborted, [Abort(reason)])
      case Ok(chunks) => ScheduleOrAbort(f1.(chunks := chunks))
  }

  function WithCandidate(f: Fetch, peer: NodeId): Fetch {
    if peer in f.candidates then f
    else f.(candidates := f.candidates + [peer], counters := if peer in f.counters then f.counters else f.counters[peer := 0])
  }

  function Sorted(s: set<NodeId>): seq<NodeId> {
    if s == {} then [] else [Least(s)] + Sorted(s - {Least(s)})
  }

  function FreshFetch(m: Manifest, peers: set<NodeId>): Fetch {
    Fetch(m, Sorted(peers), map p | p in peers :: 0, seq(m.chunkCount, _ => Slot(Pending, {}, 0)))
  }

  datatype Event =
    | ObserveProposal(lastCommitted: nat, height: nat, proposer: NodeId, isValidator: bool)
    | AddCandidate(candidate: NodeId)
    | ManifestResponse(sender: NodeId, manifest: Option<Manifest>, otherChecksPass: bool)
    | ChunkResponse(from: NodeId, atHeight: nat, idx: nat, payload: Option<Bytes>)
    | PeerDisconnected(peer: NodeId)

  /** `SnapshotManifest::verify`: its checks of the chunk layout, and all others as one verdict. */
  predicate ManifestVerifies(m: Manifest, otherChecksPass: bool) {
    otherChecksPass && m.chunkCount == |m.hashes| && m.chunkSize > 0
  }

  ghost function OnProposal(interval: nat, s: State, e: Event): Outcome
    requires e.ObserveProposal?
  {
    if interval == 0 || !e.isValidator then Outcome(s, [])
    else
      match s
      case Idle(observed) =>
        if e.height < e.lastCommitted || e.height - e.lastCommitted < interval
        then Outcome(Idle(observed + {e.proposer}), [])
        else Outcome(ManifestPending(e.proposer, observed + {e.proposer}), [SendManifestRequest(e.proposer)])
      case ManifestPending(primary, waiting) => Outcome(ManifestPending(primary, waiting + {e.proposer}), [])
      case Fetching(f) => Scheduled(WithCandidate(f, e.proposer))
      case Done => Outcome(s, [])
      case Aborted => Outcome(s, [])
  }

  /** What every event does in every state. */
  ghost function Step(hash: Bytes -> nat, interval: nat, s: State, e: Event): Outcome {
    match e
    case ObserveProposal(_, _, _, _) => OnProposal(interval, s, e)
    case AddCandidate(p) => if s.Fetching? then Scheduled(WithCandidate(s.f, p)) else Outcome(s, [])
    case ManifestResponse(sender, manifest, others) =>
      if !s.ManifestPending? || sender != s.primary then Outcome(s, [])
      else if manifest.None? then Outcome(Aborted, [Abort(PeerHasNoSnapshot)])
      else if !ManifestVerifies(manifest.value, others) then Outcome(Aborted, [Abort(ManifestVerifyFailed)])
      else Scheduled(FreshFetch(manifest.value, s.waiting + {s.primary}))
    case ChunkResponse(from, height, idx, payload) =>
      if s.Fetching? then OnChunk(hash, s.f, from, height, idx, payload) else Outcome(s, [])
    case PeerDisconnected(p) =>
      match s
      case ManifestPending(primary, waiting) =>
        if primary == p then Outcome(Aborted, [Abort(CandidatesExhausted)])
        else Outcome(ManifestPending(primary, waiting - {p}), [])
      case Idle(observed) => Outcome(Idle(observed - {p}), [])
      case Fetching(f) => OnDisconnect(f, p)
      case Done => Outcome(s, [])
      case Aborted => Outcome(s, [])
  }

  /** A whole run: the final state and every action emitted, in order. */
  ghost function Run(hash: Bytes -> nat, interval: nat, es: seq<Event>): Outcome {
    if es == [] then Outcome(Idle({}), [])
    else
      var before := Run(hash, interval, es[..|es| - 1]);
      var now := Step(hash, interval, before.state, es[|es| - 1]);
      Outcome(now.state, before.actions + now.actions)
  }
}
