/** The snapshot download as the object that handles its events in place (`snapshot_sync.rs`). */
module SnapshotMachine {
  import opened Common
  import opened SnapshotChunks
  import opened SnapshotSync

  method SumCounters(m: map<NodeId, nat>) returns (n: nat)
    ensures n == MapSum(m)
  {
    hide MapSum;
    n := 0;
    var rest := m;
    while rest != map[]
      invariant n + MapSum(rest) == MapSum(m)
      decreases |rest|
    {
      var k :| k in rest;
      MapSumRemove(rest, k);
      n := n + rest[k];
      assert (rest - {k}).Keys == rest.Keys - {k};
      rest := rest - {k};
    }
    assert MapSum(rest) == 0 by { EmptySum(); }
  }

  lemma EmptySum()
    ensures MapSum(map[]) == 0
  {
  }

  /** The `find_map` over slots and candidates. */
  method FindNext(f: Fetch) returns (next: Option<Request>)
    ensures next == Pick(f, 0)
  {
    for i := 0 to |f.chunks|
      invariant Pick(f, 0) == Pick(f, i)
    {
      var slot := f.chunks[i];
      if slot.status.Pending? {
        for j := 0 to |f.candidates|
          invariant EligiblePeer(f, slot, 0) == EligiblePeer(f, slot, j)
        {
          var peer := f.candidates[j];
          if peer !in slot.tried && Counter(f.counters, peer) < PER_PEER {
            return Some((i, peer));
          }
        }
      }
    }
    return None;
  }

  /** `schedule`: send until the window is full or nothing can be sent. */
  method RunSchedule(f: Fetch) returns (g: Fetch, actions: seq<Action>)
    ensures g == Schedule(f).0 && actions == Requests(f.manifest.height, Schedule(f).1)
  {
    hide Pick, Schedule, Send, MapSum;
    g, actions := f, [];
    ghost var sent: seq<Request> := [];
    while true
      invariant g.manifest == f.manifest && actions == Requests(f.manifest.height, sent)
      invariant Schedule(f).0 == Schedule(g).0 && Schedule(f).1 == sent + Schedule(g).1
      decreases MAX_CONCURRENT - MapSum(g.counters)
    {
      ScheduleTurn(g);
      var total := SumCounters(g.counters);
      if total >= MAX_CONCURRENT { break; }
      var next := FindNext(g);
      if next.None? { break; }
      var q := next.value;
      g := Send(g, q);
      actions := actions + [SendChunkRequest(q.1, f.manifest.height, q.0)];
      sent := sent + [q];
    }
  }

  /** `candidates.retain(|p| *p != peer)`. */
  method Retain(candidates: seq<NodeId>, peer: NodeId) returns (out: seq<NodeId>)
    ensures out == Without(candidates, peer)
  {
    out := [];
    for i := 0 to |candidates|
      invariant out == Without(candidates[..i], peer)
    {
      assert candidates[..i + 1][..i] == candidates[..i];
      if candidates[i] != peer { out := out + [candidates[i]]; }
    }
    assert candidates[..|candidates|] == candidates;
  }

  /** `SnapshotSync`. */
  class SnapshotDownload {
    const hash: Bytes -> nat
    const interval: nat
    var state: State

    constructor (hash: Bytes -> nat, interval: nat)
      ensures this.hash == hash && this.interval == interval && state == Idle({})
    {
      this.hash := hash;
      this.interval := interval;
      state := Idle({});
    }

    /** `schedule` on the fetching state. */
    method ScheduleNow(f: Fetch) returns (actions: seq<Action>)
      modifies this
      ensures Outcome(state, actions) == Scheduled(f)
    {
      var g: Fetch;
      g, actions := RunSchedule(f);
      state := Fetching(g);
    }

    /** `schedule_or_abort`. */
    method ScheduleElseAbort(f: Fetch) returns (actions: seq<Action>)
      modifies this
      ensures Outcome(state, actions) == ScheduleOrAbort(f)
    {
      hide Schedule;
      var g: Fetch;
      g, actions := RunSchedule(f);
      state := Fetching(g);
      assert actions == [] <==> Schedule(f).1 == [];
      if !AnyInFlight(g.chunks) && AnyPending(g.chunks) && actions == [] {
        state := Aborted;
        actions := [Abort(CandidatesExhausted)];
      }
    }

    /** `try_finish_or_schedule`. */
    method TryFinishOrSchedule(f: Fetch) returns (actions: seq<Action>)
      modifies this
      ensures Outcome(state, actions) == TryFinish(f)
    {
      if !AllReceived(f.chunks) {
        actions := ScheduleElseAbort(f);
        return;
      }
      var parts := Parts(f.chunks);
      var payload := AssembleChunks(parts);
      state := Done;
      actions := [Restore(f.manifest, payload)];
    }

    /** `observe_proposal`. */
    method ObserveProposal(lastCommitted: nat, height: nat, proposer: NodeId, isValidator: bool) returns (actions: seq<Action>)
      modifies this
      ensures Outcome(state, actions) ==
        Step(hash, interval, old(state), Event.ObserveProposal(lastCommitted, height, proposer, isValidator))
    {
      hide Scheduled;
      actions := [];
      if interval == 0 || !isValidator { return; }
      match state
      case Idle(observed) =>
        state := Idle(observed + {proposer});
        if height < lastCommitted || height - lastCommitted < interval { return; }
        state := ManifestPending(proposer, observed + {proposer});
        actions := [SendManifestRequest(proposer)];
      case ManifestPending(primary, waiting) => state := ManifestPending(primary, waiting + {proposer});
      case Fetching(f) => actions := ScheduleNow(WithCandidate(f, proposer));
      case _ =>
    }

    /** `add_candidate`. */
    method AddCandidate(peer: NodeId) returns (actions: seq<Action>)
      modifies this
      ensures Outcome(state, actions) == Step(hash, interval, old(state), Event.AddCandidate(peer))
    {
      hide Scheduled;
      actions := [];
      if state.Fetching? { actions := ScheduleNow(WithCandidate(state.f, peer)); }
    }

    /** `on_manifest_response`. */
    method OnManifestResponse(from: NodeId, manifest: Option<Manifest>, otherChecksPass: bool) returns (actions: seq<Action>)
      modifies this
      ensures Outcome(state, actions) == Step(hash, interval, old(state), ManifestResponse(from, manifest, otherChecksPass))
    {
      hide Scheduled;
      actions := [];
      if !state.ManifestPending? || from != state.primary { return; }
      if manifest.None? {
        state := Aborted;
        return [Abort(PeerHasNoSnapshot)];
      }
      if !ManifestVerifies(manifest.value, otherChecksPass) {
        state := Aborted;
        return [Abort(ManifestVerifyFailed)];
      }
      actions := ScheduleNow(FreshFetch(manifest.value, state.waiting + {state.primary}));
    }

    /** A slot went back to pending: abort or schedule again. */
    method RetryOrAbort(f: Fetch, idx: nat) returns (actions: seq<Action>)
      requires idx < |f.chunks|
      modifies this
      ensures Outcome(state, actions) == Retry(f, idx)
    {
      hide ScheduleOrAbort;
      var reason := CheckAbort(f.chunks[idx], idx, f.candidates);
      if reason.Some? {
        state := Aborted;
        return [Abort(reason.value)];
      }
      actions := ScheduleElseAbort(f);
    }

    /** `on_chunk_response`. */
    method OnChunkResponse(from: NodeId, height: nat, idx: nat, payload: Option<Bytes>) returns (actions: seq<Action>)
      modifies this
      ensures Outcome(state, actions) == Step(hash, interval, old(state), ChunkResponse(from, height, idx, payload))
    {
      hide Retry, TryFinish, Without;
      actions := [];
      if !state.Fetching? { return; }
      var f := state.f;
      if height != f.manifest.height || idx >= |f.chunks| || f.chunks[idx].status != InFlight(from) { return; }
      f := CountDown(f, from);
      if payload.Some? && ChunkVerifies(hash, f.manifest, idx, payload.value) {
        f := f.(chunks := f.chunks[idx := f.chunks[idx].(status := Received(payload.value))]);
        actions := TryFinishOrSchedule(f);
        return;
      }
      f := f.(chunks := f.chunks[idx := Failed(f.chunks[idx], from)]);
      if payload.Some? {
        var rest := Retain(f.candidates, from);
        f := f.(candidates := rest, counters := f.counters - {from});
      }
      actions := RetryOrAbort(f, idx);
    }

    /** `on_peer_disconnected`. */
    method OnPeerDisconnected(peer: NodeId) returns (actions: seq<Action>)
      modifies this
      ensures Outcome(state, actions) == Step(hash, interval, old(state), PeerDisconnected(peer))
    {
      hide ScheduleOrAbort, Without;
      actions := [];
      match state
      case ManifestPending(primary, waiting) =>
        if primary == peer {
          state := Aborted;
          actions := [Abort(CandidatesExhausted)];
        } else {
          state := ManifestPending(primary, waiting - {peer});
        }
      case Idle(observed) => state := Idle(observed - {peer});
      case Fetching(f) =>
        if peer !in f.candidates { return; }
        var rest := Retain(f.candidates, peer);
        var chunks := f.chunks;
        for i := 0 to |f.chunks|
          invariant |chunks| == |f.chunks| && state == old(state)
          invariant Disconnected(f.chunks, rest, peer, 0) == Disconnected(chunks, rest, peer, i)
        {
          if chunks[i].status == InFlight(peer) {
            var slot := Failed(chunks[i], peer);
            var reason := CheckAbort(slot, i, rest);
            if reason.Some? {
              state := Aborted;
              return [Abort(reason.value)];
            }
            chunks := chunks[i := slot];
          }
        }
        actions := ScheduleElseAbort(f.(candidates := rest, counters := f.counters - {peer}, chunks := chunks));
      case _ =>
    }
  }
}
