/** Big-endian integers, the cursor, and the framing shared by the binary payloads. */
module Codec {
  import opened Common

  /** The number of values that fit in `w` bytes. */
  function Limit(w: nat): (r: nat)
    ensures r > 0
  {
    if w == 0 then 1 else 256 * Limit(w - 1)
  }

  /** `to_be_bytes` of the low `w` bytes. */
  function Be(w: nat, n: nat): (r: Bytes)
    ensures |r| == w
  {
    if w == 0 then [] else Be(w - 1, n / 256) + [n % 256]
  }

  /** `from_be_bytes`. */
  function FromBe(b: Bytes): nat {
    if b == [] then 0 else 256 * FromBe(b[..|b| - 1]) + b[|b| - 1]
  }

  lemma {:induction false} BeRoundTrip(w: nat, n: nat)
    requires n < Limit(w)
    ensures FromBe(Be(w, n)) == n
  {
    if w == 0 {
    } else {
      BeRoundTrip(w - 1, n / 256);
      assert Be(w, n)[..w - 1] == Be(w - 1, n / 256);
    }
  }

  lemma {:induction false} FromBeRoundTrip(b: Bytes)
    ensures FromBe(b) < Limit(|b|) && Be(|b|, FromBe(b)) == b
  {
    if b == [] {
    } else {
      var front := b[..|b| - 1];
      FromBeRoundTrip(front);
      assert FromBe(b) / 256 == FromBe(front) && FromBe(b) % 256 == b[|b| - 1];
      assert b == front + [b[|b| - 1]];
    }
  }

  /** What reading from a cursor gives: nothing, or a value and the bytes after it. */
  datatype Parse<+T> = Fail | Parsed(value: T, rest: Bytes)

  /** `Cursor::take`. */
  function Take(b: Bytes, n: nat): Parse<Bytes> {
    if |b| < n then Fail else Parsed(b[..n], b[n..])
  }

  lemma TakeIff(b: Bytes, n: nat, x: Bytes, rest: Bytes)
    ensures Take(b, n) == Parsed(x, rest) <==> |x| == n && b == x + rest
  {
  }

  /** An integer of `w` bytes. */
  function TakeInt(b: Bytes, w: nat): Parse<nat> {
    match Take(b, w)
    case Fail => Fail
    case Parsed(x, rest) => Parsed(FromBe(x), rest)
  }

  lemma TakeIntIff(b: Bytes, w: nat, n: nat, rest: Bytes)
    ensures TakeInt(b, w) == Parsed(n, rest) <==> n < Limit(w) && b == Be(w, n) + rest
  {
    if n < Limit(w) && b == Be(w, n) + rest {
      TakeIff(b, w, Be(w, n), rest);
      BeRoundTrip(w, n);
    }
    if Take(b, w).Parsed? {
      var x := Take(b, w).value;
      TakeIff(b, w, x, Take(b, w).rest);
      FromBeRoundTrip(x);
    }
  }

  /** A length in four bytes and that many bytes. */
  function TakeBlob(b: Bytes): Parse<Bytes> {
    match TakeInt(b, 4)
    case Fail => Fail
    case Parsed(n, rest) => Take(rest, n)
  }

  function Blob(x: Bytes): Bytes { Be(4, |x|) + x }

  lemma TakeBlobIff(b: Bytes, x: Bytes, rest: Bytes)
    ensures TakeBlob(b) == Parsed(x, rest) <==> |x| < Limit(4) && b == Blob(x) + rest
  {
    hide Be, FromBe, Limit;
    assert Blob(x) + rest == Be(4, |x|) + (x + rest);
    if |x| < Limit(4) && b == Blob(x) + rest {
      TakeIntIff(b, 4, |x|, x + rest);
      TakeIff(x + rest, |x|, x, rest);
    }
    if TakeInt(b, 4).Parsed? {
      var n, r := TakeInt(b, 4).value, TakeInt(b, 4).rest;
      TakeIntIff(b, 4, n, r);
      TakeIff(r, n, x, rest);
    }
  }

  /** `Cursor`. */
  class Cursor {
    const buf: Bytes
    var pos: nat

    ghost predicate Valid()
      reads this
    {
      pos <= |buf|
    }

    ghost function Rest(): Bytes
      requires Valid()
      reads this
    {
      buf[pos..]
    }

    constructor (buf: Bytes)
      ensures Valid() && Rest() == buf && this.buf == buf
    {
      this.buf := buf;
      pos := 0;
    }

    /** Advances only when enough bytes are left. */
    method TakeBytes(n: nat) returns (r: Option<Bytes>)
      requires Valid()
      modifies this
      ensures Valid()
      ensures r.None? ==> Take(old(Rest()), n) == Fail && Rest() == old(Rest())
      ensures r.Some? ==> Take(old(Rest()), n) == Parsed(r.value, Rest())
    {
      if pos + n > |buf| {
        return None;
      }
      r := Some(buf[pos..pos + n]);
      assert buf[pos..][..n] == buf[pos..pos + n];
      assert buf[pos..][n..] == buf[pos + n..];
      pos := pos + n;
    }

    /** `is_empty`. */
    method AtEnd() returns (end: bool)
      requires Valid()
      ensures end <==> Rest() == []
    {
      end := pos >= |buf|;
    }

    method TakeUint(w: nat) returns (r: Option<nat>)
      requires Valid()
      modifies this
      ensures Valid()
      ensures r.None? ==> TakeInt(old(Rest()), w) == Fail
      ensures r.Some? ==> TakeInt(old(Rest()), w) == Parsed(r.value, Rest())
    {
      var b := TakeBytes(w);
      if b.None? { return None; }
      return Some(FromBe(b.value));
    }

    method TakeCounted() returns (r: Option<Bytes>)
      requires Valid()
      modifies this
      ensures Valid()
      ensures r.None? ==> TakeBlob(old(Rest())) == Fail
      ensures r.Some? ==> TakeBlob(old(Rest())) == Parsed(r.value, Rest())
    {
      var n := TakeUint(4);
      if n.None? { return None; }
      r := TakeBytes(n.value);
    }
  }
}
