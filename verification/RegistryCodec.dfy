/**
 * The registry payload that a block carries in its extra data (`registry_payload.rs`, and the copy
 * of the same format in the execution node's `registry.rs`).
 */
module RegistryCodec {
  import opened Common
  import opened Codec

  const MAGIC: Bytes := [66, 76, 82, 49]
  const VERSION: Byte := 1
  const BLS_KEY_LEN: nat := 128

  datatype KeyRecord = KeyRecord(validator: Bytes, vEff: nat, key: Bytes)
  datatype WeightRecord = WeightRecord(validator: Bytes, weight: nat)
  datatype Payload = Payload(keys: seq<KeyRecord>, weights: seq<WeightRecord>, settledView: Option<nat>)

  predicate KeyOk(k: KeyRecord) { |k.validator| == 32 && k.vEff < Limit(8) && |k.key| == BLS_KEY_LEN }
  predicate WeightOk(w: WeightRecord) { |w.validator| == 32 && w.weight < Limit(8) }

  /** 32-byte ids, 64-bit numbers, 128-byte keys, and fewer than 2^32 items per list. */
  predicate PayloadOk(p: Payload) {
    && |p.keys| < Limit(4) && (forall i :: 0 <= i < |p.keys| ==> KeyOk(p.keys[i]))
    && |p.weights| < Limit(4) && (forall i :: 0 <= i < |p.weights| ==> WeightOk(p.weights[i]))
    && (p.settledView.Some? ==> p.settledView.value < Limit(8))
  }

  // ---------------------------------------------------------------------------
  // Encoding

  function EncKey(k: KeyRecord): Bytes { k.validator + Be(8, k.vEff) + k.key }
  function EncWeight(w: WeightRecord): Bytes { w.validator + Be(8, w.weight) }

  function EncKeys(ks: seq<KeyRecord>): Bytes { if ks == [] then [] else EncKey(ks[0]) + EncKeys(ks[1..]) }
  function EncWeights(ws: seq<WeightRecord>): Bytes { if ws == [] then [] else EncWeight(ws[0]) + EncWeights(ws[1..]) }

  function EncView(v: Option<nat>): Bytes { if v.Some? then Be(8, v.value) else [] }

  /** Everything after the flags byte. */
  function EncBody(p: Payload): Bytes {
    EncView(p.settledView) + (Be(4, |p.keys|) + (EncKeys(p.keys) + (Be(4, |p.weights|) + EncWeights(p.weights))))
  }

  /** The payload with a given flags byte. */
  function WithFlags(p: Payload, flags: Byte): Bytes { MAGIC + [VERSION, flags] + EncBody(p) }

  /** `encode`. */
  function Encode(p: Payload): Bytes { WithFlags(p, if p.settledView.Some? then 1 else 0) }

  // ---------------------------------------------------------------------------
  // Decoding

  function DecKey(b: Bytes): Parse<KeyRecord> {
    match Take(b, 32)
    case Fail => Fail
    case Parsed(validator, b1) =>
      match TakeInt(b1, 8)
      case Fail => Fail
      case Parsed(vEff, b2) =>
        match Take(b2, BLS_KEY_LEN)
        case Fail => Fail
        case Parsed(key, b3) => Parsed(KeyRecord(validator, vEff, key), b3)
  }

  function DecWeight(b: Bytes): Parse<WeightRecord> {
    match Take(b, 32)
    case Fail => Fail
    case Parsed(validator, b1) =>
      match TakeInt(b1, 8)
      case Fail => Fail
      case Parsed(weight, b2) => Parsed(WeightRecord(validator, weight), b2)
  }

  function DecKeys(n: nat, b: Bytes): Parse<seq<KeyRecord>> {
    if n == 0 then Parsed([], b)
    else
      match DecKey(b)
      case Fail => Fail
      case Parsed(k, b1) =>
        match DecKeys(n - 1, b1)
        case Fail => Fail
        case Parsed(ks, b2) => Parsed([k] + ks, b2)
  }

  function DecWeights(n: nat, b: Bytes): Parse<seq<WeightRecord>> {
    if n == 0 then Parsed([], b)
    else
      match DecWeight(b)
      case Fail => Fail
      case Parsed(w, b1) =>
        match DecWeights(n - 1, b1)
        case Fail => Fail
        case Parsed(ws, b2) => Parsed([w] + ws, b2)
  }

  function DecView(flags: Byte, b: Bytes): Parse<Option<nat>> {
    if flags % 2 == 0 then Parsed(None, b)
    else
      match TakeInt(b, 8)
      case Fail => Fail
      case Parsed(v, rest) => Parsed(Some(v), rest)
  }

  /** Everything after the settled view. */
  function DecLists(b: Bytes): Parse<(seq<KeyRecord>, seq<WeightRecord>)> {
    match TakeInt(b, 4)
    case Fail => Fail
    case Parsed(n, b1) =>
      match DecKeys(n, b1)
      case Fail => Fail
      case Parsed(ks, b2) =>
        match TakeInt(b2, 4)
        case Fail => Fail
        case Parsed(m, b3) =>
          match DecWeights(m, b3)
          case Fail => Fail
          case Parsed(ws, b4) => Parsed((ks, ws), b4)
  }

  /** Magic, version and flags. */
  function Header(b: Bytes): Parse<Byte> {
    if |b| < 6 || b[..4] != MAGIC || b[4] != VERSION then Fail else Parsed(b[5], b[6..])
  }

  /** `decode`. */
  function Decode(b: Bytes): Option<Payload> {
    match Header(b)
    case Fail => None
    case Parsed(flags, b0) =>
      match DecView(flags, b0)
      case Fail => None
      case Parsed(view, b1) =>
        match DecLists(b1)
        case Fail => None
        case Parsed(lists, b2) => if b2 != [] then None else Some(Payload(lists.0, lists.1, view))
  }

  // ---------------------------------------------------------------------------
  // What is parsed is exactly what was written

  lemma DecKeyIff(b: Bytes, k: KeyRecord, rest: Bytes)
    ensures DecKey(b) == Parsed(k, rest) <==> KeyOk(k) && b == EncKey(k) + rest
  {
    hide Be, FromBe, Limit, Take, TakeInt;
    var t1, t0 := k.key + rest, Be(8, k.vEff) + (k.key + rest);
    assert EncKey(k) + rest == k.validator + t0;
    if KeyOk(k) && b == EncKey(k) + rest {
      TakeIff(b, 32, k.validator, t0);
      TakeIntIff(t0, 8, k.vEff, t1);
      TakeIff(t1, BLS_KEY_LEN, k.key, rest);
    }
    if DecKey(b) == Parsed(k, rest) {
      var b1 := Take(b, 32).rest;
      var b2 := TakeInt(b1, 8).rest;
      TakeIff(b, 32, k.validator, b1);
      TakeIntIff(b1, 8, k.vEff, b2);
      TakeIff(b2, BLS_KEY_LEN, k.key, rest);
    }
  }

  lemma DecWeightIff(b: Bytes, w: WeightRecord, rest: Bytes)
    ensures DecWeight(b) == Parsed(w, rest) <==> WeightOk(w) && b == EncWeight(w) + rest
  {
    hide Be, FromBe, Limit, Take, TakeInt;
    var t0 := Be(8, w.weight) + rest;
    assert EncWeight(w) + rest == w.validator + t0;
    if WeightOk(w) && b == EncWeight(w) + rest {
      TakeIff(b, 32, w.validator, t0);
      TakeIntIff(t0, 8, w.weight, rest);
    }
    if DecWeight(b) == Parsed(w, rest) {
      var b1 := Take(b, 32).rest;
      TakeIff(b, 32, w.validator, b1);
      TakeIntIff(b1, 8, w.weight, rest);
    }
  }

  predicate KeysOk(ks: seq<KeyRecord>) { forall i :: 0 <= i < |ks| ==> KeyOk(ks[i]) }
  predicate WeightsOk(ws: seq<WeightRecord>) { forall i :: 0 <= i < |ws| ==> WeightOk(ws[i]) }

  lemma {:induction false} DecKeysIff(n: nat, b: Bytes, ks: seq<KeyRecord>, rest: Bytes)
    ensures DecKeys(n, b) == Parsed(ks, rest) <==> |ks| == n && KeysOk(ks) && b == EncKeys(ks) + rest
    decreases n
  {
    hide EncKey, DecKey, KeyOk;
    if n > 0 {
      if |ks| == n && KeysOk(ks) && b == EncKeys(ks) + rest {
        var tail := EncKeys(ks[1..]) + rest;
        assert b == EncKey(ks[0]) + tail;
        DecKeyIff(b, ks[0], tail);
        DecKeysIff(n - 1, tail, ks[1..], rest);
        assert ks == [ks[0]] + ks[1..];
      }
      if DecKeys(n, b) == Parsed(ks, rest) {
        var k, b1 := DecKey(b).value, DecKey(b).rest;
        DecKeyIff(b, k, b1);
        var more := DecKeys(n - 1, b1).value;
        DecKeysIff(n - 1, b1, more, rest);
        assert ks == [k] + more && ks[1..] == more;
        assert b == EncKey(k) + (EncKeys(more) + rest);
      }
    } else {
      assert ks == [] ==> EncKeys(ks) + rest == rest;
    }
  }

  lemma {:induction false} DecWeightsIff(n: nat, b: Bytes, ws: seq<WeightRecord>, rest: Bytes)
    ensures DecWeights(n, b) == Parsed(ws, rest) <==> |ws| == n && WeightsOk(ws) && b == EncWeights(ws) + rest
    decreases n
  {
    hide EncWeight, DecWeight, WeightOk;
    if n > 0 {
      if |ws| == n && WeightsOk(ws) && b == EncWeights(ws) + rest {
        var tail := EncWeights(ws[1..]) + rest;
        assert b == EncWeight(ws[0]) + tail;
        DecWeightIff(b, ws[0], tail);
        DecWeightsIff(n - 1, tail, ws[1..], rest);
        assert ws == [ws[0]] + ws[1..];
      }
      if DecWeights(n, b) == Parsed(ws, rest) {
        var w, b1 := DecWeight(b).value, DecWeight(b).rest;
        DecWeightIff(b, w, b1);
        var more := DecWeights(n - 1, b1).value;
        DecWeightsIff(n - 1, b1, more, rest);
        assert ws == [w] + more && ws[1..] == more;
        assert b == EncWeight(w) + (EncWeights(more) + rest);
      }
    } else {
      assert ws == [] ==> EncWeights(ws) + rest == rest;
    }
  }

  function EncLists(ks: seq<KeyRecord>, ws: seq<WeightRecord>): Bytes {
    Be(4, |ks|) + (EncKeys(ks) + (Be(4, |ws|) + EncWeights(ws)))
  }

  lemma DecListsIff(b: Bytes, ks: seq<KeyRecord>, ws: seq<WeightRecord>)
    ensures DecLists(b) == Parsed((ks, ws), []) <==>
      |ks| < Limit(4) && KeysOk(ks) && |ws| < Limit(4) && WeightsOk(ws) && b == EncLists(ks, ws)
  {
    hide Be, Limit, TakeInt, DecKeys, DecWeights, EncKeys, EncWeights, KeysOk, WeightsOk;
    var t2 := EncWeights(ws);
    var t1 := Be(4, |ws|) + t2;
    var t0 := EncKeys(ks) + t1;
    assert t2 + [] == t2;
    if |ks| < Limit(4) && KeysOk(ks) && |ws| < Limit(4) && WeightsOk(ws) && b == EncLists(ks, ws) {
      TakeIntIff(b, 4, |ks|, t0);
      DecKeysIff(|ks|, t0, ks, t1);
      TakeIntIff(t1, 4, |ws|, t2);
      DecWeightsIff(|ws|, t2, ws, []);
    }
    if DecLists(b) == Parsed((ks, ws), []) {
      var n, b1 := TakeInt(b, 4).value, TakeInt(b, 4).rest;
      TakeIntIff(b, 4, n, b1);
      var b2 := DecKeys(n, b1).rest;
      DecKeysIff(n, b1, ks, b2);
      var m, b3 := TakeInt(b2, 4).value, TakeInt(b2, 4).rest;
      TakeIntIff(b2, 4, m, b3);
      DecWeightsIff(m, b3, ws, []);
    }
  }

  lemma DecViewIff(flags: Byte, b: Bytes, v: Option<nat>, rest: Bytes)
    ensures DecView(flags, b) == Parsed(v, rest) <==>
      (flags % 2 == 1 <==> v.Some?) && (v.Some? ==> v.value < Limit(8)) && b == EncView(v) + rest
  {
    hide Be, Limit, TakeInt;
    if v.Some? { TakeIntIff(b, 8, v.value, rest); } else { assert EncView(v) + rest == rest; }
  }

  /** The decoder accepts exactly the payloads in range, under any flags byte with the right low bit. */
  lemma DecodeIff(b: Bytes, p: Payload)
    ensures Decode(b) == Some(p) <==>
      && PayloadOk(p) && |b| >= 6 && (b[5] % 2 == 1 <==> p.settledView.Some?) && b == WithFlags(p, b[5])
  {
    hide Be, Limit, TakeInt, DecLists, DecView, EncKeys, EncWeights, KeyOk, WeightOk, EncView;
    if |b| >= 6 {
      SplitHeader(b, p);
      var lists := EncLists(p.keys, p.weights);
      DecViewIff(b[5], b[6..], p.settledView, lists);
      if PayloadOk(p) && (b[5] % 2 == 1 <==> p.settledView.Some?) && b == WithFlags(p, b[5]) {
        DecListsIff(lists, p.keys, p.weights);
      }
      if Decode(b) == Some(p) {
        var b1 := DecView(b[5], b[6..]).rest;
        DecViewIff(b[5], b[6..], p.settledView, b1);
        DecListsIff(b1, p.keys, p.weights);
      }
    }
  }

  lemma SplitHeader(b: Bytes, p: Payload)
    requires |b| >= 6
    ensures b == WithFlags(p, b[5]) <==>
      b[..4] == MAGIC && b[4] == VERSION && b[6..] == EncView(p.settledView) + EncLists(p.keys, p.weights)
  {
  }

  /** `decode(encode(p)) == p` holds exactly for the payloads in range. */
  lemma RoundTripIff(p: Payload)
    ensures Decode(Encode(p)) == Some(p) <==> PayloadOk(p)
  {
    hide Decode, EncBody, PayloadOk;
    DecodeIff(Encode(p), p);
  }

  /** Accepted bytes re-encode to themselves, with the seven unused flag bits cleared. */
  lemma ReencodeClearsFlags(b: Bytes)
    requires Decode(b).Some?
    ensures |b| >= 6 && Encode(Decode(b).value) == b[5 := b[5] % 2]
  {
    hide Decode, EncBody, PayloadOk;
    DecodeIff(b, Decode(b).value);
  }

  /** Two byte strings decode to the same payload only if they differ at most in those bits. */
  lemma DecodeInjectiveUpToFlags(a: Bytes, b: Bytes)
    requires Decode(a).Some? && Decode(a) == Decode(b)
    ensures |a| == |b| >= 6 && a[5 := b[5]] == b
  {
    ReencodeClearsFlags(a);
    ReencodeClearsFlags(b);
    var x, y := a[5 := a[5] % 2], b[5 := b[5] % 2];
    assert |x| == |a| && |y| == |b|;
    forall i | 0 <= i < |a| && i != 5 ensures a[i] == b[i] {
      assert x[i] == a[i] && y[i] == b[i];
    }
  }

  // ---------------------------------------------------------------------------
  // The loops

  /** `encode`, appending to one buffer. */
  method EncodePayload(p: Payload) returns (out: Bytes)
    ensures out == Encode(p)
  {
    hide EncKey, EncWeight, Be;
    var flags: Byte := if p.settledView.Some? then 1 else 0;
    out := MAGIC + [VERSION] + [flags];
    if p.settledView.Some? { out := out + Be(8, p.settledView.value); }
    out := out + Be(4, |p.keys|);
    ghost var start := out;
    for i := 0 to |p.keys|
      invariant out + EncKeys(p.keys[i..]) == start + EncKeys(p.keys)
    {
      ghost var rest := EncKeys(p.keys[i + 1..]);
      assert p.keys[i..][1..] == p.keys[i + 1..];
      assert out + (EncKey(p.keys[i]) + rest) == (out + EncKey(p.keys[i])) + rest;
      out := out + EncKey(p.keys[i]);
    }
    assert out == start + EncKeys(p.keys);
    out := out + Be(4, |p.weights|);
    ghost var middle := out;
    for i := 0 to |p.weights|
      invariant out + EncWeights(p.weights[i..]) == middle + EncWeights(p.weights)
    {
      ghost var rest := EncWeights(p.weights[i + 1..]);
      assert p.weights[i..][1..] == p.weights[i + 1..];
      assert out + (EncWeight(p.weights[i]) + rest) == (out + EncWeight(p.weights[i])) + rest;
      out := out + EncWeight(p.weights[i]);
    }
    assert out == middle + EncWeights(p.weights);
    Assembled(p, flags, start, middle);
  }

  lemma Assembled(p: Payload, flags: Byte, start: Bytes, middle: Bytes)
    requires start == MAGIC + [VERSION] + [flags] + EncView(p.settledView) + Be(4, |p.keys|)
          || (p.settledView.None? && start == MAGIC + [VERSION] + [flags] + Be(4, |p.keys|))
    requires middle == start + EncKeys(p.keys) + Be(4, |p.weights|)
    ensures middle + EncWeights(p.weights) == WithFlags(p, flags)
  {
  }

  method ReadKey(c: Cursor) returns (r: Option<KeyRecord>)
    requires c.Valid()
    modifies c
    ensures c.Valid()
    ensures r.None? ==> DecKey(old(c.Rest())) == Fail
    ensures r.Some? ==> DecKey(old(c.Rest())) == Parsed(r.value, c.Rest())
  {
    hide Take, TakeInt;
    var validator := c.TakeBytes(32);
    if validator.None? { return None; }
    var vEff := c.TakeUint(8);
    if vEff.None? { return None; }
    var key := c.TakeBytes(BLS_KEY_LEN);
    if key.None? { return None; }
    return Some(KeyRecord(validator.value, vEff.value, key.value));
  }

  method ReadWeight(c: Cursor) returns (r: Option<WeightRecord>)
    requires c.Valid()
    modifies c
    ensures c.Valid()
    ensures r.None? ==> DecWeight(old(c.Rest())) == Fail
    ensures r.Some? ==> DecWeight(old(c.Rest())) == Parsed(r.value, c.Rest())
  {
    hide Take, TakeInt;
    var validator := c.TakeBytes(32);
    if validator.None? { return None; }
    var weight := c.TakeUint(8);
    if weight.None? { return None; }
    return Some(WeightRecord(validator.value, weight.value));
  }

  method ReadKeys(c: Cursor, n: nat) returns (r: Option<seq<KeyRecord>>)
    requires c.Valid()
    modifies c
    ensures c.Valid()
    ensures r.None? ==> DecKeys(n, old(c.Rest())) == Fail
    ensures r.Some? ==> DecKeys(n, old(c.Rest())) == Parsed(r.value, c.Rest())
  {
    hide DecKey;
    var keys: seq<KeyRecord> := [];
    ghost var all := DecKeys(n, c.Rest());
    for i := 0 to n
      invariant c.Valid()
      invariant DecKeys(n - i, c.Rest()).Fail? ==> all.Fail?
      invariant DecKeys(n - i, c.Rest()).Parsed? ==>
        && all.Parsed? && all.value == keys + DecKeys(n - i, c.Rest()).value && all.rest == DecKeys(n - i, c.Rest()).rest
    {
      var k := ReadKey(c);
      if k.None? { return None; }
      keys := keys + [k.value];
    }
    assert all.value == keys;
    return Some(keys);
  }

  method ReadWeights(c: Cursor, n: nat) returns (r: Option<seq<WeightRecord>>)
    requires c.Valid()
    modifies c
    ensures c.Valid()
    ensures r.None? ==> DecWeights(n, old(c.Rest())) == Fail
    ensures r.Some? ==> DecWeights(n, old(c.Rest())) == Parsed(r.value, c.Rest())
  {
    hide DecWeight;
    var weights: seq<WeightRecord> := [];
    ghost var all := DecWeights(n, c.Rest());
    for i := 0 to n
      invariant c.Valid()
      invariant DecWeights(n - i, c.Rest()).Fail? ==> all.Fail?
      invariant DecWeights(n - i, c.Rest()).Parsed? ==>
        && all.Parsed? && all.value == weights + DecWeights(n - i, c.Rest()).value && all.rest == DecWeights(n - i, c.Rest()).rest
    {
      var w := ReadWeight(c);
      if w.None? { return None; }
      weights := weights + [w.value];
    }
    assert all.value == weights;
    return Some(weights);
  }

  /** The two counted lists. */
  method ReadLists(c: Cursor) returns (r: Option<(seq<KeyRecord>, seq<WeightRecord>)>)
    requires c.Valid()
    modifies c
    ensures c.Valid()
    ensures r.None? ==> DecLists(old(c.Rest())) == Fail
    ensures r.Some? ==> DecLists(old(c.Rest())) == Parsed(r.value, c.Rest())
  {
    hide TakeInt, DecKeys, DecWeights;
    var keyCount := c.TakeUint(4);
    if keyCount.None? { return None; }
    var keys := ReadKeys(c, keyCount.value);
    if keys.None? { return None; }
    var weightCount := c.TakeUint(4);
    if weightCount.None? { return None; }
    var weights := ReadWeights(c, weightCount.value);
    if weights.None? { return None; }
    return Some((keys.value, weights.value));
  }

  method ReadHeader(c: Cursor) returns (r: Option<Byte>)
    requires c.Valid()
    modifies c
    ensures c.Valid()
    ensures r.None? ==> Header(old(c.Rest())) == Fail
    ensures r.Some? ==> Header(old(c.Rest())) == Parsed(r.value, c.Rest())
  {
    ghost var b := c.Rest();
    var magic := c.TakeBytes(4);
    if magic.None? || magic.value != MAGIC { return None; }
    assert c.Rest() == b[4..];
    var version := c.TakeBytes(1);
    if version.None? || version.value[0] != VERSION { return None; }
    assert c.Rest() == b[5..];
    var flags := c.TakeBytes(1);
    if flags.None? { return None; }
    assert c.Rest() == b[6..];
    return Some(flags.value[0]);
  }

  method ReadView(c: Cursor, flags: Byte) returns (ok: bool, view: Option<nat>)
    requires c.Valid()
    modifies c
    ensures c.Valid()
    ensures !ok ==> DecView(flags, old(c.Rest())) == Fail
    ensures ok ==> DecView(flags, old(c.Rest())) == Parsed(view, c.Rest())
  {
    hide TakeInt;
    if flags % 2 == 0 { return true, None; }
    view := c.TakeUint(8);
    ok := view.Some?;
  }

  /** The steps of `Decode`, one after the other. */
  lemma DecodeSteps(b: Bytes)
    ensures Header(b).Fail? ==> Decode(b).None?
    ensures Header(b).Parsed? ==>
      var v := DecView(Header(b).value, Header(b).rest);
      && (v.Fail? ==> Decode(b).None?)
      && (v.Parsed? ==>
        var l := DecLists(v.rest);
        && (l.Fail? || l.rest != [] ==> Decode(b).None?)
        && (l.Parsed? && l.rest == [] ==> Decode(b) == Some(Payload(l.value.0, l.value.1, v.value))))
  {
  }

  /** `decode`, moving one cursor. */
  method DecodePayload(b: Bytes) returns (r: Option<Payload>)
    ensures r == Decode(b)
  {
    hide *;
    DecodeSteps(b);
    var c := new Cursor(b);
    var flags := ReadHeader(c);
    if flags.None? { return None; }
    var ok, view := ReadView(c, flags.value);
    if !ok { return None; }
    var lists := ReadLists(c);
    if lists.None? { return None; }
    var end := c.AtEnd();
    if !end { return None; }
    return Some(Payload(lists.value.0, lists.value.1, view));
  }
}
