/** Splitting a snapshot into chunks and putting it back together (`replication/snapshot.rs`). */
module SnapshotChunks {
  import opened Common

  /** `slice::chunks`: windows of `size` bytes, the last one possibly shorter. */
  function Windows(p: Bytes, size: nat): seq<Bytes>
    requires size > 0
    decreases |p|
  {
    if p == [] then [] else if |p| <= size then [p] else [p[..size]] + Windows(p[size..], size)
  }

  /** The chunks of `chunk_snapshot`; an empty payload is one empty chunk. */
  function Chunks(p: Bytes, size: nat): seq<Bytes>
    requires size > 0
  {
    if p == [] then [[]] else Windows(p, size)
  }

  function Concat(parts: seq<Bytes>): Bytes {
    if parts == [] then [] else parts[0] + Concat(parts[1..])
  }

  function Hashes(hash: Bytes -> nat, parts: seq<Bytes>): seq<nat> {
    seq(|parts|, i requires 0 <= i < |parts| => hash(parts[i]))
  }

  /** Every part hashes to its entry. */
  predicate Match(hash: Bytes -> nat, hashes: seq<nat>, parts: seq<Bytes>) {
    |parts| == |hashes| && forall i :: 0 <= i < |parts| ==> hash(parts[i]) == hashes[i]
  }

  /** Nothing is lost or reordered, and every chunk but the last is full. */
  lemma {:induction false} WindowsCover(p: Bytes, size: nat)
    requires size > 0
    ensures Concat(Windows(p, size)) == p
    ensures forall i :: 0 <= i < |Windows(p, size)| ==> 0 < |Windows(p, size)[i]| <= size
    ensures forall i :: 0 <= i < |Windows(p, size)| - 1 ==> |Windows(p, size)[i]| == size
    decreases |p|
  {
    if |p| > size {
      WindowsCover(p[size..], size);
      assert p == p[..size] + p[size..];
    } else if p != [] {
      assert Windows(p, size)[1..] == [];
    }
  }

  /** `assemble_chunks(chunk_snapshot(p, s))` is `p`, and there is always at least one chunk. */
  lemma ChunksRoundTrip(p: Bytes, size: nat)
    requires size > 0
    ensures Concat(Chunks(p, size)) == p && |Chunks(p, size)| > 0
  {
    if p == [] {
      assert Chunks(p, size)[1..] == [];
    } else {
      WindowsCover(p, size);
    }
  }

  /** With an injective hash, chunks that match the hashes of a payload assemble to that payload. */
  lemma MatchingChunksAssemble(hash: Bytes -> nat, p: Bytes, size: nat, parts: seq<Bytes>)
    requires size > 0 && Match(hash, Hashes(hash, Chunks(p, size)), parts)
    requires forall a, b :: hash(a) == hash(b) ==> a == b
    ensures Concat(parts) == p
  {
    ChunksRoundTrip(p, size);
    assert parts == Chunks(p, size);
  }

  lemma {:induction false} ConcatAppend(parts: seq<Bytes>, last: Bytes)
    ensures Concat(parts + [last]) == Concat(parts) + last
  {
    if parts != [] {
      assert (parts + [last])[1..] == parts[1..] + [last];
      ConcatAppend(parts[1..], last);
    } else {
      assert [last][1..] == [];
    }
  }

  /** `chunk_snapshot`. */
  method ChunkSnapshot(hash: Bytes -> nat, payload: Bytes, size: nat) returns (out: seq<(Bytes, nat)>)
    requires size > 0
    ensures |out| == |Chunks(payload, size)|
    ensures forall i :: 0 <= i < |out| ==> out[i] == (Chunks(payload, size)[i], hash(Chunks(payload, size)[i]))
  {
    if payload == [] {
      return [([], hash([]))];
    }
    out := [];
    var at := 0;
    ghost var all := Windows(payload, size);
    while at < |payload|
      invariant 0 <= at <= |payload| && |out| <= |all|
      invariant Windows(payload[at..], size) == all[|out|..]
      invariant forall i :: 0 <= i < |out| ==> out[i] == (all[i], hash(all[i]))
    {
      var rest := payload[at..];
      var window := if |rest| <= size then rest else rest[..size];
      assert Windows(rest, size)[0] == window;
      assert Windows(rest, size)[1..] == Windows(rest[|window|..], size);
      assert rest[|window|..] == payload[at + |window|..];
      out := out + [(window, hash(window))];
      at := at + |window|;
    }
    assert payload[at..] == [];
  }

  /** `assemble_chunks`. */
  method AssembleChunks(chunks: seq<Bytes>) returns (out: Bytes)
    ensures out == Concat(chunks)
  {
    if |chunks| == 1 && chunks[0] == [] {
      assert chunks[1..] == [];
      return [];
    }
    out := [];
    for i := 0 to |chunks|
      invariant out == Concat(chunks[..i])
    {
      ConcatAppend(chunks[..i], chunks[i]);
      assert chunks[..i + 1] == chunks[..i] + [chunks[i]];
      out := out + chunks[i];
    }
    assert chunks[..|chunks|] == chunks;
  }
}
