/** Where each field of the two binary payloads lies, byte by byte. */
module CodecLayout {
  import opened Common
  import opened Codec
  import R = RegistryCodec
  import W = WeightProofCodec

  // ---------------------------------------------------------------------------
  // Big-endian numbers

  lemma DivideTwice(n: nat, p: nat)
    requires p > 0
    ensures n / 256 / p == n / (256 * p)
  {
    var q, r := n / 256, n % 256;
    var a, b := q / p, q % p;
    assert n == 256 * q + r == 256 * (a * p + b) + r;
    assert n == a * (256 * p) + (256 * b + r);
    assert 256 * b + r < 256 * p;
    Quotient(n, 256 * p, a, 256 * b + r);
  }

  lemma Quotient(n: nat, d: nat, q: nat, r: nat)
    requires d > 0 && n == q * d + r && r < d
    ensures n / d == q
  {
    var x := n / d;
    assert n == x * d + n % d;
    if x < q { Gap(x, q, d); }
    if q < x { Gap(q, x, d); }
  }

  lemma {:induction false} Gap(a: nat, b: nat, d: nat)
    requires a < b
    ensures a * d + d <= b * d
    decreases b
  {
    assert b * d == (b - 1) * d + d;
    if a < b - 1 { Gap(a, b - 1, d); }
  }

  /** The most significant byte comes first. */
  lemma {:induction false} BeDigit(w: nat, n: nat, i: nat)
    requires i < w
    ensures Be(w, n)[i] == n / Limit(w - 1 - i) % 256
  {
    if i < w - 1 {
      BeDigit(w - 1, n / 256, i);
      DivideTwice(n, Limit(w - 2 - i));
    }
  }

  /** The field lies at the offset. */
  predicate At(b: Bytes, off: nat, field: Bytes) { off + |field| <= |b| && b[off..off + |field|] == field }

  lemma AtPart(b: Bytes, off: nat, front: Bytes, part: Bytes)
    requires At(b, off, front + part)
    ensures At(b, off, front) && At(b, off + |front|, part)
  {
    var whole := b[off..off + |front + part|];
    assert whole == front + part;
    assert b[off..off + |front|] == whole[..|front|] == front;
    assert b[off + |front|..off + |front| + |part|] == whole[|front|..] == part;
  }

  lemma AtWhole(b: Bytes)
    ensures At(b, 0, b)
  {
    assert b[0..|b|] == b;
  }

  // ---------------------------------------------------------------------------
  // The registry payload

  lemma {:induction false} KeysLayout(b: Bytes, off: nat, ks: seq<R.KeyRecord>, i: nat)
    requires R.KeysOk(ks) && At(b, off, R.EncKeys(ks)) && i < |ks|
    ensures var o := off + 168 * i;
      && At(b, o, ks[i].validator) && At(b, o + 32, Be(8, ks[i].vEff)) && At(b, o + 40, ks[i].key)
    ensures |R.EncKeys(ks)| == 168 * |ks|
    decreases |ks|
  {
    hide Be, At;
    var k := ks[0];
    var rest := ks[1..];
    assert R.EncKeys(ks) == R.EncKey(k) + R.EncKeys(rest);
    KeysLength(ks);
    AtPart(b, off, R.EncKey(k), R.EncKeys(rest));
    if i == 0 {
      assert R.EncKey(k) == k.validator + (Be(8, k.vEff) + k.key);
      AtPart(b, off, k.validator, Be(8, k.vEff) + k.key);
      AtPart(b, off + 32, Be(8, k.vEff), k.key);
    } else {
      KeysLayout(b, off + 168, rest, i - 1);
    }
  }

  lemma {:induction false} KeysLength(ks: seq<R.KeyRecord>)
    requires R.KeysOk(ks)
    ensures |R.EncKeys(ks)| == 168 * |ks|
  {
    if ks == [] {
    } else {
      KeysLength(ks[1..]);
    }
  }

  lemma {:induction false} WeightsLength(ws: seq<R.WeightRecord>)
    requires R.WeightsOk(ws)
    ensures |R.EncWeights(ws)| == 40 * |ws|
  {
    if ws == [] {
    } else {
      WeightsLength(ws[1..]);
    }
  }

  lemma {:induction false} WeightsLayout(b: Bytes, off: nat, ws: seq<R.WeightRecord>, i: nat)
    requires R.WeightsOk(ws) && At(b, off, R.EncWeights(ws)) && i < |ws|
    ensures At(b, off + 40 * i, ws[i].validator) && At(b, off + 40 * i + 32, Be(8, ws[i].weight))
    decreases |ws|
  {
    hide Be, At;
    var w := ws[0];
    var rest := ws[1..];
    assert R.EncWeights(ws) == R.EncWeight(w) + R.EncWeights(rest);
    WeightsLength(ws);
    AtPart(b, off, R.EncWeight(w), R.EncWeights(rest));
    if i == 0 {
      AtPart(b, off, w.validator, Be(8, w.weight));
    } else {
      WeightsLayout(b, off + 40, rest, i - 1);
    }
  }

  /**
   * The registry payload: "BLR1", version 1, a flag that a settled view follows, the view, the counted
   * keys in records of 168 bytes and the counted weights in records of 40, all numbers big-endian.
   */
  lemma RegistryLayout(p: R.Payload)
    requires R.PayloadOk(p)
    ensures var b := R.Encode(p);
      var keys := if p.settledView.Some? then 14 else 6;
      var weights := keys + 4 + 168 * |p.keys|;
      && At(b, 0, [66, 76, 82, 49, 1, if p.settledView.Some? then 1 else 0])
      && (p.settledView.Some? ==> At(b, 6, Be(8, p.settledView.value)))
      && At(b, keys, Be(4, |p.keys|)) && At(b, weights, Be(4, |p.weights|))
      && |b| == weights + 4 + 40 * |p.weights|
      && (forall i :: 0 <= i < |p.keys| ==>
            var o := keys + 4 + 168 * i;
            && At(b, o, p.keys[i].validator) && At(b, o + 32, Be(8, p.keys[i].vEff)) && At(b, o + 40, p.keys[i].key))
      && (forall i :: 0 <= i < |p.weights| ==>
            var o := weights + 4 + 40 * i;
            && At(b, o, p.weights[i].validator) && At(b, o + 32, Be(8, p.weights[i].weight)))
  {
    hide Be, At, R.EncKeys, R.EncWeights, R.KeyOk, R.WeightOk;
    var b := R.Encode(p);
    var flags: Byte := if p.settledView.Some? then 1 else 0;
    var keys := if p.settledView.Some? then 14 else 6;
    var weights := keys + 4 + 168 * |p.keys|;
    var tail := Be(4, |p.weights|) + R.EncWeights(p.weights);
    var lists := Be(4, |p.keys|) + (R.EncKeys(p.keys) + tail);
    var head := [66, 76, 82, 49, 1, flags];
    AtWhole(b);
    assert b == head + (R.EncView(p.settledView) + lists);
    AtPart(b, 0, head, R.EncView(p.settledView) + lists);
    AtPart(b, 6, R.EncView(p.settledView), lists);
    AtPart(b, keys, Be(4, |p.keys|), R.EncKeys(p.keys) + tail);
    AtPart(b, keys + 4, R.EncKeys(p.keys), tail);
    KeysLength(p.keys);
    WeightsLength(p.weights);
    AtPart(b, weights, Be(4, |p.weights|), R.EncWeights(p.weights));
    forall i | 0 <= i < |p.keys|
      ensures At(b, keys + 4 + 168 * i, p.keys[i].validator) && At(b, keys + 4 + 168 * i + 32, Be(8, p.keys[i].vEff))
      ensures At(b, keys + 4 + 168 * i + 40, p.keys[i].key)
    {
      KeysLayout(b, keys + 4, p.keys, i);
    }
    forall i | 0 <= i < |p.weights|
      ensures At(b, weights + 4 + 40 * i, p.weights[i].validator) && At(b, weights + 4 + 40 * i + 32, Be(8, p.weights[i].weight))
    {
      WeightsLayout(b, weights + 4, p.weights, i);
    }
  }

  // ---------------------------------------------------------------------------
  // The weight proofs

  /** What a counted blob takes. */
  function BlobSize(x: Bytes): nat { 4 + |x| }

  function NodesSize(ns: seq<Bytes>): nat { if ns == [] then 0 else BlobSize(ns[0]) + NodesSize(ns[1..]) }

  /** 32 + 8 + 32 + 4 bytes, the receipt, and the counted nodes. */
  function ProofSize(p: W.WeightProof): nat { 76 + BlobSize(p.receipt) + 4 + NodesSize(p.nodes) }

  function ProofsSize(ps: seq<W.WeightProof>): nat { if ps == [] then 0 else ProofSize(ps[0]) + ProofsSize(ps[1..]) }

  lemma {:induction false} NodesLength(ns: seq<Bytes>)
    ensures |W.EncNodes(ns)| == NodesSize(ns)
  {
    if ns == [] {
    } else {
      NodesLength(ns[1..]);
    }
  }

  lemma {:induction false} NodesLayout(b: Bytes, off: nat, ns: seq<Bytes>, i: nat)
    requires At(b, off, W.EncNodes(ns)) && i < |ns|
    ensures At(b, off + NodesSize(ns[..i]), Be(4, |ns[i]|)) && At(b, off + NodesSize(ns[..i]) + 4, ns[i])
    decreases |ns|
  {
    hide Be, At;
    assert W.EncNodes(ns) == Blob(ns[0]) + W.EncNodes(ns[1..]);
    AtPart(b, off, Blob(ns[0]), W.EncNodes(ns[1..]));
    if i == 0 {
      assert ns[..0] == [];
      AtPart(b, off, Be(4, |ns[0]|), ns[0]);
    } else {
      NodesLayout(b, off + BlobSize(ns[0]), ns[1..], i - 1);
      assert ns[..i][1..] == ns[1..][..i - 1] && ns[..i][0] == ns[0];
      assert NodesSize(ns[..i]) == BlobSize(ns[0]) + NodesSize(ns[1..][..i - 1]);
    }
  }

  lemma ProofLength(p: W.WeightProof)
    requires W.ProofOk(p)
    ensures |W.EncProof(p)| == ProofSize(p)
  {
    NodesLength(p.nodes);
  }

  /** One proof: node, weight, anchor, receipt index, receipt and nodes, in this order. */
  ghost predicate ProofAt(b: Bytes, o: nat, p: W.WeightProof) {
    && At(b, o, p.nodeId) && At(b, o + 32, Be(8, p.weight)) && At(b, o + 40, p.anchor) && At(b, o + 72, Be(4, p.receiptIndex))
    && At(b, o + 76, Be(4, |p.receipt|)) && At(b, o + 80, p.receipt)
    && At(b, o + 80 + |p.receipt|, Be(4, |p.nodes|))
    && forall i :: 0 <= i < |p.nodes| ==>
         var at := o + 84 + |p.receipt| + NodesSize(p.nodes[..i]);
         At(b, at, Be(4, |p.nodes[i]|)) && At(b, at + 4, p.nodes[i])
  }

  lemma ProofLayout(b: Bytes, o: nat, p: W.WeightProof)
    requires W.ProofOk(p) && At(b, o, W.EncProof(p))
    ensures ProofAt(b, o, p)
  {
    hide Be, At, W.EncNodes, NodesSize;
    var tail := W.EncTail(p);
    var t2 := Be(4, p.receiptIndex) + tail;
    var t1 := p.anchor + t2;
    var nodes := W.EncNodes(p.nodes);
    AtPart(b, o, p.nodeId, Be(8, p.weight) + t1);
    AtPart(b, o + 32, Be(8, p.weight), t1);
    AtPart(b, o + 40, p.anchor, t2);
    AtPart(b, o + 72, Be(4, p.receiptIndex), tail);
    AtPart(b, o + 76, Blob(p.receipt), Be(4, |p.nodes|) + nodes);
    AtPart(b, o + 76, Be(4, |p.receipt|), p.receipt);
    AtPart(b, o + 80 + |p.receipt|, Be(4, |p.nodes|), nodes);
    forall i | 0 <= i < |p.nodes|
      ensures var at := o + 84 + |p.receipt| + NodesSize(p.nodes[..i]);
        At(b, at, Be(4, |p.nodes[i]|)) && At(b, at + 4, p.nodes[i])
    {
      NodesLayout(b, o + 84 + |p.receipt|, p.nodes, i);
    }
  }

  lemma {:induction false} ProofsLayout(b: Bytes, off: nat, ps: seq<W.WeightProof>, i: nat)
    requires W.ProofsOk(ps) && At(b, off, W.EncProofs(ps)) && i < |ps|
    ensures ProofAt(b, off + ProofsSize(ps[..i]), ps[i])
    decreases |ps|
  {
    hide At, W.EncProof, W.ProofOk, ProofAt, ProofSize;
    assert W.ProofOk(ps[0]);
    assert W.EncProofs(ps) == W.EncProof(ps[0]) + W.EncProofs(ps[1..]);
    AtPart(b, off, W.EncProof(ps[0]), W.EncProofs(ps[1..]));
    ProofLength(ps[0]);
    if i == 0 {
      assert ps[..0] == [];
      ProofLayout(b, off, ps[0]);
    } else {
      ProofsLayout(b, off + ProofSize(ps[0]), ps[1..], i - 1);
      assert ps[..i][1..] == ps[1..][..i - 1] && ps[..i][0] == ps[0];
      assert ProofsSize(ps[..i]) == ProofSize(ps[0]) + ProofsSize(ps[1..][..i - 1]);
    }
  }

  lemma {:induction false} ProofsLength(ps: seq<W.WeightProof>)
    requires W.ProofsOk(ps)
    ensures |W.EncProofs(ps)| == ProofsSize(ps)
  {
    hide W.EncProof, W.ProofOk, ProofSize;
    if ps == [] {
    } else {
      assert W.ProofOk(ps[0]);
      ProofLength(ps[0]);
      ProofsLength(ps[1..]);
    }
  }

  /** The weight proofs: "WPR1", version 1, the count, and the proofs one after the other. */
  lemma WeightProofLayout(ps: seq<W.WeightProof>)
    requires W.ProofsOk(ps)
    ensures var b := W.Encode(ps);
      && At(b, 0, [87, 80, 82, 49, 1]) && At(b, 5, Be(4, |ps|)) && |b| == 9 + ProofsSize(ps)
      && forall i :: 0 <= i < |ps| ==> ProofAt(b, 9 + ProofsSize(ps[..i]), ps[i])
  {
    hide Be, At, W.EncProofs, ProofAt, ProofsSize;
    var b := W.Encode(ps);
    var body := Be(4, |ps|) + W.EncProofs(ps);
    AtWhole(b);
    assert b == [87, 80, 82, 49, 1] + body;
    AtPart(b, 0, [87, 80, 82, 49, 1], body);
    AtPart(b, 5, Be(4, |ps|), W.EncProofs(ps));
    ProofsLength(ps);
    forall i | 0 <= i < |ps| ensures ProofAt(b, 9 + ProofsSize(ps[..i]), ps[i]) {
      ProofsLayout(b, 9, ps, i);
    }
  }
}
