/** Weight proofs with their nested node lists as bytes (`weight_proof.rs`). */
module WeightProofCodec {
  import opened Common
  import opened Codec

  const MAGIC: Bytes := [87, 80, 82, 49]
  const VERSION: Byte := 1

  datatype WeightProof = WeightProof(nodeId: Bytes, weight: nat, anchor: Bytes, receiptIndex: nat,
                                     receipt: Bytes, nodes: seq<Bytes>)

  predicate NodesOk(ns: seq<Bytes>) { forall i :: 0 <= i < |ns| ==> |ns[i]| < Limit(4) }

  predicate ProofOk(p: WeightProof) {
    && |p.nodeId| == 32 && p.weight < Limit(8) && |p.anchor| == 32 && p.receiptIndex < Limit(4)
    && |p.receipt| < Limit(4) && |p.nodes| < Limit(4) && NodesOk(p.nodes)
  }

  predicate ProofsOk(ps: seq<WeightProof>) { forall i :: 0 <= i < |ps| ==> ProofOk(ps[i]) }

  // ---------------------------------------------------------------------------
  // Encoding

  function EncNodes(ns: seq<Bytes>): Bytes { if ns == [] then [] else Blob(ns[0]) + EncNodes(ns[1..]) }

  /** The variable-length tail of a proof. */
  function EncTail(p: WeightProof): Bytes { Blob(p.receipt) + (Be(4, |p.nodes|) + EncNodes(p.nodes)) }

  function EncProof(p: WeightProof): Bytes {
    p.nodeId + (Be(8, p.weight) + (p.anchor + (Be(4, p.receiptIndex) + EncTail(p))))
  }

  function EncProofs(ps: seq<WeightProof>): Bytes { if ps == [] then [] else EncProof(ps[0]) + EncProofs(ps[1..]) }

  /** `encode`. */
  function Encode(ps: seq<WeightProof>): Bytes { MAGIC + [VERSION] + (Be(4, |ps|) + EncProofs(ps)) }

  // ---------------------------------------------------------------------------
  // Decoding

  function DecNodes(n: nat, b: Bytes): Parse<seq<Bytes>> {
    if n == 0 then Parsed([], b)
    else
      match TakeBlob(b)
      case Fail => Fail
      case Parsed(x, b1) =>
        match DecNodes(n - 1, b1)
        case Fail => Fail
        case Parsed(xs, b2) => Parsed([x] + xs, b2)
  }

  function DecTail(b: Bytes): Parse<(Bytes, seq<Bytes>)> {
    match TakeBlob(b)
    case Fail => Fail
    case Parsed(receipt, b1) =>
      match TakeInt(b1, 4)
      case Fail => Fail
      case Parsed(n, b2) =>
        match DecNodes(n, b2)
        case Fail => Fail
        case Parsed(nodes, b3) => Parsed((receipt, nodes), b3)
  }

  function DecProof(b: Bytes): Parse<WeightProof> {
    match Take(b, 32)
    case Fail => Fail
    case Parsed(nodeId, b1) =>
      match TakeInt(b1, 8)
      case Fail => Fail
      case Parsed(weight, b2) =>
        match Take(b2, 32)
        case Fail => Fail
        case Parsed(anchor, b3) =>
          match TakeInt(b3, 4)
          case Fail => Fail
          case Parsed(index, b4) =>
            match DecTail(b4)
            case Fail => Fail
            case Parsed(tail, b5) => Parsed(WeightProof(nodeId, weight, anchor, index, tail.0, tail.1), b5)
  }

  function DecProofs(n: nat, b: Bytes): Parse<seq<WeightProof>> {
    if n == 0 then Parsed([], b)
    else
      match DecProof(b)
      case Fail => Fail
      case Parsed(p, b1) =>
        match DecProofs(n - 1, b1)
        case Fail => Fail
        case Parsed(ps, b2) => Parsed([p] + ps, b2)
  }

  /** `decode`. */
  function Decode(b: Bytes): Option<seq<WeightProof>> {
    if |b| < 5 || b[..4] != MAGIC || b[4] != VERSION then None
    else
      match TakeInt(b[5..], 4)
      case Fail => None
      case Parsed(n, b1) =>
        match DecProofs(n, b1)
        case Fail => None
        case Parsed(ps, b2) => if b2 != [] then None else Some(ps)
  }

  // ---------------------------------------------------------------------------
  // What is parsed is exactly what was written

  lemma {:induction false} DecNodesIff(n: nat, b: Bytes, ns: seq<Bytes>, rest: Bytes)
    ensures DecNodes(n, b) == Parsed(ns, rest) <==> |ns| == n && NodesOk(ns) && b == EncNodes(ns) + rest
    decreases n
  {
    hide Blob, TakeBlob, Limit;
    if n > 0 {
      if |ns| == n && NodesOk(ns) && b == EncNodes(ns) + rest {
        var tail := EncNodes(ns[1..]) + rest;
        assert b == Blob(ns[0]) + tail;
        TakeBlobIff(b, ns[0], tail);
        DecNodesIff(n - 1, tail, ns[1..], rest);
        assert ns == [ns[0]] + ns[1..];
      }
      if DecNodes(n, b) == Parsed(ns, rest) {
        var x, b1 := TakeBlob(b).value, TakeBlob(b).rest;
        TakeBlobIff(b, x, b1);
        var more := DecNodes(n - 1, b1).value;
        DecNodesIff(n - 1, b1, more, rest);
        assert ns == [x] + more && ns[1..] == more;
        assert b == Blob(x) + (EncNodes(more) + rest);
      }
    } else {
      assert ns == [] ==> EncNodes(ns) + rest == rest;
    }
  }

  predicate TailOk(p: WeightProof) { |p.receipt| < Limit(4) && |p.nodes| < Limit(4) && NodesOk(p.nodes) }

  lemma DecTailIff(b: Bytes, p: WeightProof, rest: Bytes)
    ensures DecTail(b) == Parsed((p.receipt, p.nodes), rest) <==> TailOk(p) && b == EncTail(p) + rest
  {
    hide Be, Limit, Blob, TakeBlob, TakeInt, DecNodes, EncNodes, NodesOk;
    var t1 := EncNodes(p.nodes) + rest;
    var t0 := Be(4, |p.nodes|) + t1;
    assert EncTail(p) + rest == Blob(p.receipt) + t0;
    if TailOk(p) && b == EncTail(p) + rest {
      TakeBlobIff(b, p.receipt, t0);
      TakeIntIff(t0, 4, |p.nodes|, t1);
      DecNodesIff(|p.nodes|, t1, p.nodes, rest);
    }
    if DecTail(b) == Parsed((p.receipt, p.nodes), rest) {
      var b1 := TakeBlob(b).rest;
      TakeBlobIff(b, p.receipt, b1);
      var n, b2 := TakeInt(b1, 4).value, TakeInt(b1, 4).rest;
      TakeIntIff(b1, 4, n, b2);
      DecNodesIff(n, b2, p.nodes, rest);
    }
  }

  lemma DecProofIff(b: Bytes, p: WeightProof, rest: Bytes)
    ensures DecProof(b) == Parsed(p, rest) <==> ProofOk(p) && b == EncProof(p) + rest
  {
    hide Be, Limit, Take, TakeInt, DecTail, EncTail, NodesOk;
    var t3 := EncTail(p) + rest;
    var t2 := Be(4, p.receiptIndex) + t3;
    var t1 := p.anchor + t2;
    var t0 := Be(8, p.weight) + t1;
    assert EncProof(p) + rest == p.nodeId + t0;
    if ProofOk(p) && b == EncProof(p) + rest {
      TakeIff(b, 32, p.nodeId, t0);
      TakeIntIff(t0, 8, p.weight, t1);
      TakeIff(t1, 32, p.anchor, t2);
      TakeIntIff(t2, 4, p.receiptIndex, t3);
      DecTailIff(t3, p, rest);
    }
    if DecProof(b) == Parsed(p, rest) {
      var b1 := Take(b, 32).rest;
      var b2 := TakeInt(b1, 8).rest;
      var b3 := Take(b2, 32).rest;
      var b4 := TakeInt(b3, 4).rest;
      TakeIff(b, 32, p.nodeId, b1);
      TakeIntIff(b1, 8, p.weight, b2);
      TakeIff(b2, 32, p.anchor, b3);
      TakeIntIff(b3, 4, p.receiptIndex, b4);
      assert DecTail(b4) == Parsed((p.receipt, p.nodes), rest);
      DecTailIff(b4, p, rest);
    }
  }

  lemma {:induction false} DecProofsIff(n: nat, b: Bytes, ps: seq<WeightProof>, rest: Bytes)
    ensures DecProofs(n, b) == Parsed(ps, rest) <==> |ps| == n && ProofsOk(ps) && b == EncProofs(ps) + rest
    decreases n
  {
    hide EncProof, DecProof, ProofOk;
    if n > 0 {
      if |ps| == n && ProofsOk(ps) && b == EncProofs(ps) + rest {
        var tail := EncProofs(ps[1..]) + rest;
        assert b == EncProof(ps[0]) + tail;
        DecProofIff(b, ps[0], tail);
        DecProofsIff(n - 1, tail, ps[1..], rest);
        assert ps == [ps[0]] + ps[1..];
      }
      if DecProofs(n, b) == Parsed(ps, rest) {
        var p, b1 := DecProof(b).value, DecProof(b).rest;
        DecProofIff(b, p, b1);
        var more := DecProofs(n - 1, b1).value;
        DecProofsIff(n - 1, b1, more, rest);
        assert ps == [p] + more && ps[1..] == more;
        assert b == EncProof(p) + (EncProofs(more) + rest);
      }
    } else {
      assert ps == [] ==> EncProofs(ps) + rest == rest;
    }
  }

  /** The decoder accepts exactly the encodings of proof sets in range: the format is canonical. */
  lemma DecodeIff(b: Bytes, ps: seq<WeightProof>)
    ensures Decode(b) == Some(ps) <==> |ps| < Limit(4) && ProofsOk(ps) && b == Encode(ps)
  {
    hide Be, Limit, TakeInt, DecProofs, EncProofs, ProofsOk;
    var t1 := EncProofs(ps);
    var t0 := Be(4, |ps|) + t1;
    assert t1 + [] == t1;
    if |ps| < Limit(4) && ProofsOk(ps) && b == Encode(ps) {
      assert b[..4] == MAGIC && b[4] == VERSION && b[5..] == t0;
      TakeIntIff(t0, 4, |ps|, t1);
      DecProofsIff(|ps|, t1, ps, []);
    }
    if Decode(b) == Some(ps) {
      var n, b1 := TakeInt(b[5..], 4).value, TakeInt(b[5..], 4).rest;
      TakeIntIff(b[5..], 4, n, b1);
      DecProofsIff(n, b1, ps, []);
      assert b == b[..4] + [b[4]] + b[5..];
    }
  }

  /** `decode(encode(s)) == s` holds exactly for the proof sets in range. */
  lemma RoundTripIff(ps: seq<WeightProof>)
    ensures Decode(Encode(ps)) == Some(ps) <==> |ps| < Limit(4) && ProofsOk(ps)
  {
    hide Decode, Encode, ProofsOk;
    DecodeIff(Encode(ps), ps);
  }

  // ---------------------------------------------------------------------------
  // The loops

  /** The inner loop of `encode`. */
  method EncodeNodes(start: Bytes, nodes: seq<Bytes>) returns (out: Bytes)
    ensures out == start + EncNodes(nodes)
  {
    hide Blob;
    out := start;
    for i := 0 to |nodes|
      invariant out + EncNodes(nodes[i..]) == start + EncNodes(nodes)
    {
      ghost var rest := EncNodes(nodes[i + 1..]);
      assert nodes[i..][1..] == nodes[i + 1..];
      assert out + (Blob(nodes[i]) + rest) == (out + Blob(nodes[i])) + rest;
      out := out + Blob(nodes[i]);
    }
  }

  /** `encode`, appending to one buffer in two nested loops. */
  method EncodeSet(ps: seq<WeightProof>) returns (out: Bytes)
    ensures out == Encode(ps)
  {
    hide Be, Blob, EncNodes;
    out := MAGIC + [VERSION] + Be(4, |ps|);
    ghost var start := out;
    for i := 0 to |ps|
      invariant out + EncProofs(ps[i..]) == start + EncProofs(ps)
    {
      var p := ps[i];
      ghost var before, rest := out, EncProofs(ps[i + 1..]);
      assert ps[i..][1..] == ps[i + 1..];
      out := out + p.nodeId + Be(8, p.weight) + p.anchor + Be(4, p.receiptIndex) + Blob(p.receipt) + Be(4, |p.nodes|);
      out := EncodeNodes(out, p.nodes);
      assert out == before + EncProof(p);
      assert before + (EncProof(p) + rest) == out + rest;
    }
    assert out == start + EncProofs(ps);
    assert Encode(ps) == start + EncProofs(ps);
  }

  method ReadNodes(c: Cursor, n: nat) returns (r: Option<seq<Bytes>>)
    requires c.Valid()
    modifies c
    ensures c.Valid()
    ensures r.None? ==> DecNodes(n, old(c.Rest())) == Fail
    ensures r.Some? ==> DecNodes(n, old(c.Rest())) == Parsed(r.value, c.Rest())
  {
    hide TakeBlob;
    var nodes: seq<Bytes> := [];
    ghost var all := DecNodes(n, c.Rest());
    for i := 0 to n
      invariant c.Valid()
      invariant DecNodes(n - i, c.Rest()).Fail? ==> all.Fail?
      invariant DecNodes(n - i, c.Rest()).Parsed? ==>
        && all.Parsed? && all.value == nodes + DecNodes(n - i, c.Rest()).value && all.rest == DecNodes(n - i, c.Rest()).rest
    {
      var x := c.TakeCounted();
      if x.None? { return None; }
      nodes := nodes + [x.value];
    }
    assert all.value == nodes;
    return Some(nodes);
  }

  method ReadTail(c: Cursor) returns (r: Option<(Bytes, seq<Bytes>)>)
    requires c.Valid()
    modifies c
    ensures c.Valid()
    ensures r.None? ==> DecTail(old(c.Rest())) == Fail
    ensures r.Some? ==> DecTail(old(c.Rest())) == Parsed(r.value, c.Rest())
  {
    hide TakeInt, TakeBlob, DecNodes;
    var receipt := c.TakeCounted();
    if receipt.None? { return None; }
    var n := c.TakeUint(4);
    if n.None? { return None; }
    var nodes := ReadNodes(c, n.value);
    if nodes.None? { return None; }
    return Some((receipt.value, nodes.value));
  }

  method ReadProof(c: Cursor) returns (r: Option<WeightProof>)
    requires c.Valid()
    modifies c
    ensures c.Valid()
    ensures r.None? ==> DecProof(old(c.Rest())) == Fail
    ensures r.Some? ==> DecProof(old(c.Rest())) == Parsed(r.value, c.Rest())
  {
    hide Take, TakeInt, DecTail;
    var nodeId := c.TakeBytes(32);
    if nodeId.None? { return None; }
    var weight := c.TakeUint(8);
    if weight.None? { return None; }
    var anchor := c.TakeBytes(32);
    if anchor.None? { return None; }
    var index := c.TakeUint(4);
    if index.None? { return None; }
    var tail := ReadTail(c);
    if tail.None? { return None; }
    return Some(WeightProof(nodeId.value, weight.value, anchor.value, index.value, tail.value.0, tail.value.1));
  }

  method ReadProofs(c: Cursor, n: nat) returns (r: Option<seq<WeightProof>>)
    requires c.Valid()
    modifies c
    ensures c.Valid()
    ensures r.None? ==> DecProofs(n, old(c.Rest())) == Fail
    ensures r.Some? ==> DecProofs(n, old(c.Rest())) == Parsed(r.value, c.Rest())
  {
    hide DecProof;
    var proofs: seq<WeightProof> := [];
    ghost var all := DecProofs(n, c.Rest());
    for i := 0 to n
      invariant c.Valid()
      invariant DecProofs(n - i, c.Rest()).Fail? ==> all.Fail?
      invariant DecProofs(n - i, c.Rest()).Parsed? ==>
        && all.Parsed? && all.value == proofs + DecProofs(n - i, c.Rest()).value && all.rest == DecProofs(n - i, c.Rest()).rest
    {
      var p := ReadProof(c);
      if p.None? { return None; }
      proofs := proofs + [p.value];
    }
    assert all.value == proofs;
    return Some(proofs);
  }

  /** The steps of `Decode` after the magic and the version. */
  lemma DecodeSteps(b: Bytes)
    requires |b| >= 5 && b[..4] == MAGIC && b[4] == VERSION
    ensures var n := TakeInt(b[5..], 4);
      && (n.Fail? ==> Decode(b).None?)
      && (n.Parsed? ==>
        var l := DecProofs(n.value, n.rest);
        && (l.Fail? || l.rest != [] ==> Decode(b).None?)
        && (l.Parsed? && l.rest == [] ==> Decode(b) == Some(l.value)))
  {
  }

  method ReadHeader(c: Cursor) returns (ok: bool)
    requires c.Valid()
    modifies c
    ensures c.Valid()
    ensures var b := old(c.Rest()); ok <==> |b| >= 5 && b[..4] == MAGIC && b[4] == VERSION
    ensures ok ==> c.Rest() == old(c.Rest())[5..]
  {
    ghost var b := c.Rest();
    var magic := c.TakeBytes(4);
    if magic.None? || magic.value != MAGIC { return false; }
    assert c.Rest() == b[4..];
    var version := c.TakeBytes(1);
    if version.None? || version.value[0] != VERSION { return false; }
    assert c.Rest() == b[5..];
    return true;
  }

  /** `decode`, moving one cursor through two nested loops. */
  method DecodeSet(b: Bytes) returns (r: Option<seq<WeightProof>>)
    ensures r == Decode(b)
  {
    hide *;
    var c := new Cursor(b);
    var ok := ReadHeader(c);
    if !ok {
      BadHeader(b);
      return None;
    }
    DecodeSteps(b);
    var n := c.TakeUint(4);
    if n.None? { return None; }
    var proofs := ReadProofs(c, n.value);
    if proofs.None? { return None; }
    var end := c.AtEnd();
    if !end { return None; }
    return Some(proofs.value);
  }

  lemma BadHeader(b: Bytes)
    requires !(|b| >= 5 && b[..4] == MAGIC && b[4] == VERSION)
    ensures Decode(b).None?
  {
  }
}
