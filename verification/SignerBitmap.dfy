/**
 * The packed signer bitmap (`crypto/sig_scheme.rs`) and the certificate that
 * accumulates partial signatures into it (`hotstuff/qc.rs`).
 */
module SignerBitmaps {
  import opened Common
  import Quorum

  /** Bit `k` of a byte, as `get` and `iter_set` read it. */
  predicate Bit(b: bv8, k: nat)
    requires k < 8
  {
    (b >> k) & 1 == 1
  }

  /** `u8::count_ones`. */
  function Ones(b: bv8): nat {
    OnesBelow(b, 8)
  }

  function OnesBelow(b: bv8, k: nat): nat
    requires k <= 8
  {
    if k == 0 then 0 else OnesBelow(b, k - 1) + if Bit(b, k - 1) then 1 else 0
  }

  /** Raw bit `i` of the byte vector, with no regard to the logical length. */
  predicate BitAt(bits: seq<bv8>, i: nat)
    requires i < 8 * |bits|
  {
    Bit(bits[i / 8], i % 8)
  }

  function BytesFor(len: nat): nat { (len + 7) / 8 }

  /** `SignerBitmap::count`: every one bit of every byte. */
  function CountOnes(bits: seq<bv8>): nat {
    if bits == [] then 0 else CountOnes(bits[..|bits| - 1]) + Ones(bits[|bits| - 1])
  }

  /** `SignerBitmap::iter_set` restricted to the first `n` raw positions. */
  function SetBelow(bits: seq<bv8>, len: nat, n: nat): seq<nat>
    requires n <= 8 * |bits|
  {
    if n == 0 then []
    else SetBelow(bits, len, n - 1) + if n - 1 < len && BitAt(bits, n - 1) then [n - 1] else []
  }

  /** The indices `get` answers true for. */
  function Members(bits: seq<bv8>, len: nat): set<nat> {
    set i: nat | i < len && i < 8 * |bits| && BitAt(bits, i)
  }

  /** Bits at or above the logical length are clear. */
  predicate PaddingClear(bits: seq<bv8>, len: nat) {
    forall i: nat :: len <= i < 8 * |bits| ==> !BitAt(bits, i)
  }

  /** `SignerBitmap::is_well_formed`, on the last byte and a mask of the used bits. */
  predicate WellFormed(bits: seq<bv8>, len: nat) {
    && |bits| == BytesFor(len)
    && (len % 8 != 0 ==> |bits| > 0 && bits[|bits| - 1] & !LowMask(len % 8) == 0)
  }

  /** `(1u16 << k) - 1` truncated to a byte. */
  function LowMask(k: nat): bv8
    requires 0 < k < 8
  {
    (1 << k) - 1
  }

  /** The mask test of one byte says exactly that no bit at or above `k` is set. */
  lemma MaskClearsHighBits(b: bv8, k: nat)
    requires 0 < k < 8
    ensures b & !LowMask(k) == 0 <==> forall j: nat :: k <= j < 8 ==> !Bit(b, j)
  {
    assert LowMask(1) == 1 && LowMask(2) == 3 && LowMask(3) == 7 && LowMask(4) == 15;
    assert LowMask(5) == 31 && LowMask(6) == 63 && LowMask(7) == 127;
    assert !(forall j: nat :: k <= j < 8 ==> !Bit(b, j)) ==>
      exists j: nat :: k <= j < 8 && Bit(b, j);
    assert Bit(b, 1) == (b & 2 != 0) && Bit(b, 2) == (b & 4 != 0) && Bit(b, 3) == (b & 8 != 0);
    assert Bit(b, 4) == (b & 16 != 0) && Bit(b, 5) == (b & 32 != 0);
    assert Bit(b, 6) == (b & 64 != 0) && Bit(b, 7) == (b & 128 != 0);
  }

  /** `is_well_formed` accepts exactly the vectors of the right size whose padding is clear. */
  lemma WellFormedIffPaddingClear(bits: seq<bv8>, len: nat)
    ensures WellFormed(bits, len) <==> |bits| == BytesFor(len) && PaddingClear(bits, len)
  {
    if |bits| == BytesFor(len) && len % 8 != 0 {
      var last := |bits| - 1;
      MaskClearsHighBits(bits[last], len % 8);
      assert len == 8 * last + len % 8;
      if PaddingClear(bits, len) {
        forall j: nat | len % 8 <= j < 8 ensures !Bit(bits[last], j) {
          assert !BitAt(bits, 8 * last + j);
        }
      }
      if WellFormed(bits, len) {
        forall i: nat | len <= i < 8 * |bits| ensures !BitAt(bits, i) {
          assert i / 8 == last;
        }
      }
    }
  }

  /** Every index of `iter_set` is a member, listed once, in increasing order; none is missed. */
  lemma {:induction false} SetBelowIsExact(bits: seq<bv8>, len: nat, n: nat)
    requires n <= 8 * |bits|
    ensures forall i: nat :: i in SetBelow(bits, len, n) <==> i < n && i in Members(bits, len)
    ensures Increasing(SetBelow(bits, len, n))
  {
    if n == 0 {
    } else {
      SetBelowIsExact(bits, len, n - 1);
      var prev, s := SetBelow(bits, len, n - 1), SetBelow(bits, len, n);
      assert forall a :: 0 <= a < |prev| ==> s[a] == prev[a] && prev[a] in prev;
    }
  }

  lemma {:induction false} SetBelowPrefix(bits: seq<bv8>, more: seq<bv8>, len: nat, n: nat)
    requires n <= 8 * |bits| && bits <= more
    ensures SetBelow(bits, len, n) == SetBelow(more, len, n)
  {
    if n == 0 {
    } else {
      SetBelowPrefix(bits, more, len, n - 1);
    }
  }

  lemma ByteBit(bits: seq<bv8>, j: nat, k: nat)
    requires j < |bits| && k < 8
    ensures BitAt(bits, 8 * j + k) == Bit(bits[j], k)
  {
  }

  lemma SetBelowStep(bits: seq<bv8>, len: nat, n: nat)
    requires n < 8 * |bits| && PaddingClear(bits, len)
    ensures |SetBelow(bits, len, n + 1)| == |SetBelow(bits, len, n)| + if BitAt(bits, n) then 1 else 0
  {
  }

  lemma {:induction false} LastByteCount(bits: seq<bv8>, len: nat, k: nat)
    requires |bits| > 0 && k <= 8
    requires PaddingClear(bits, len)
    ensures |SetBelow(bits, len, 8 * (|bits| - 1) + k)|
         == |SetBelow(bits, len, 8 * (|bits| - 1))| + OnesBelow(bits[|bits| - 1], k)
  {
    hide Bit;
    if k == 0 {
    } else {
      LastByteCount(bits, len, k - 1);
      ByteBit(bits, |bits| - 1, k - 1);
      SetBelowStep(bits, len, 8 * (|bits| - 1) + k - 1);
    }
  }

  /** With clear padding the popcount of the bytes is the number of listed indices. */
  lemma {:induction false} CountIsLength(bits: seq<bv8>, len: nat)
    requires PaddingClear(bits, len)
    ensures CountOnes(bits) == |SetBelow(bits, len, 8 * |bits|)|
  {
    hide Bit, OnesBelow;
    if bits == [] {
    } else {
      var front := bits[..|bits| - 1];
      forall i: nat | len <= i < 8 * |front| ensures !BitAt(front, i) {
        assert BitAt(front, i) == BitAt(bits, i);
      }
      CountIsLength(front, len);
      SetBelowPrefix(front, bits, len, 8 * |front|);
      LastByteCount(bits, len, 8);
    }
  }

  predicate Increasing(s: seq<nat>) {
    forall a, b :: 0 <= a < b < |s| ==> s[a] < s[b]
  }

  lemma {:induction false} IncreasingCardinality(s: seq<nat>, m: set<nat>)
    requires Increasing(s) && forall i: nat :: i in m <==> i in s
    ensures |m| == |s|
  {
    if s == [] {
      assert m == {};
    } else {
      var front, last := s[..|s| - 1], s[|s| - 1];
      assert s == front + [last];
      assert last !in front;
      IncreasingCardinality(front, m - {last});
    }
  }

  /** On every well-formed bitmap, `count` is the number of signers and `iter_set` lists each once. */
  lemma CountIsCardinality(bits: seq<bv8>, len: nat)
    requires WellFormed(bits, len)
    ensures CountOnes(bits) == |Members(bits, len)|
  {
    WellFormedIffPaddingClear(bits, len);
    CountIsLength(bits, len);
    SetBelowIsExact(bits, len, 8 * |bits|);
    var s := SetBelow(bits, len, 8 * |bits|);
    IncreasingCardinality(s, Members(bits, len));
  }

  /** The byte vector after `SignerBitmap::set`. */
  function WithBit(bits: seq<bv8>, idx: nat): seq<bv8>
    requires idx < 8 * |bits|
  {
    bits[idx / 8 := bits[idx / 8] | (1 << (idx % 8))]
  }

  lemma WithBitAt(bits: seq<bv8>, idx: nat, i: nat)
    requires idx < 8 * |bits| && i < 8 * |bits|
    ensures BitAt(WithBit(bits, idx), i) <==> BitAt(bits, i) || i == idx
  {
  }

  /** Setting a bit below the length keeps the padding clear and adds that one member. */
  lemma {:induction false} SetBitAddsMember(bits: seq<bv8>, len: nat, idx: nat)
    requires WellFormed(bits, len) && idx < len
    ensures WellFormed(WithBit(bits, idx), len)
    ensures Members(WithBit(bits, idx), len) == Members(bits, len) + {idx}
  {
    forall i: nat | i < 8 * |bits|
      ensures BitAt(WithBit(bits, idx), i) <==> BitAt(bits, i) || i == idx
    {
      WithBitAt(bits, idx, i);
    }
    WellFormedIffPaddingClear(bits, len);
    WellFormedIffPaddingClear(WithBit(bits, idx), len);
  }

  /** `BlsAggregated`'s aggregate and partials, kept symbolic: an aggregate is the bag of its parts. */
  type Partial = nat

  /** `QuorumCertificate` with its `SignerBitmap` fields `bits` and `len`. */
  class QuorumCertificate {
    const view: nat
    const blockHash: nat
    const len: nat
    var bits: seq<bv8>
    var aggregate: multiset<Partial>

    /** One aggregated partial per set bit, and a well-formed bitmap. */
    ghost predicate Valid()
      reads this
    {
      WellFormed(bits, len) && |aggregate| == |Members(bits, len)|
    }

    constructor (view: nat, blockHash: nat, len: nat)
      ensures Valid() && Members(bits, this.len) == {} && aggregate == multiset{}
      ensures this.view == view && this.blockHash == blockHash && this.len == len
    {
      this.view, this.blockHash, this.len := view, blockHash, len;
      bits := seq(BytesFor(len), i => 0);
      aggregate := multiset{};
      new;
      forall i: nat | i < 8 * |bits| ensures !BitAt(bits, i) {
        ZeroByte(i % 8);
      }
      WellFormedIffPaddingClear(bits, len);
      assert Members(bits, len) == {};
    }

    /** `SignerBitmap::get`. */
    predicate Get(idx: nat)
      requires WellFormed(bits, len)
      reads this
      ensures Get(idx) <==> idx in Members(bits, len)
    {
      idx < len && BitAt(bits, idx)
    }

    /** `SignerBitmap::set`: one more member and nothing else. */
    method Set(idx: nat)
      requires WellFormed(bits, len) && idx < len
      modifies this`bits
      ensures WellFormed(bits, len)
      ensures Members(bits, len) == old(Members(bits, len)) + {idx}
    {
      SetBitAddsMember(bits, len, idx);
      bits := WithBit(bits, idx);
    }

    /** `add_bls_partial`: a repeated signer changes neither the bitmap nor the aggregate. */
    method AddBlsPartial(idx: nat, partial: Partial)
      requires Valid() && idx < len
      modifies this
      ensures Valid()
      ensures Members(bits, len) == old(Members(bits, len)) + {idx}
      ensures aggregate == if idx in old(Members(bits, len)) then old(aggregate)
                           else old(aggregate) + multiset{partial}
    {
      if Get(idx) {
        assert Members(bits, len) == Members(bits, len) + {idx};
        return;
      }
      aggregate := aggregate + multiset{partial};
      Set(idx);
    }

    /** `SignerBitmap::iter_set`, byte by byte and bit by bit. */
    method IterSet() returns (out: seq<nat>)
      ensures Increasing(out)
      ensures forall i: nat :: i in out <==> i in Members(bits, len)
    {
      hide Bit, BitAt, WellFormed;
      out := [];
      for byte := 0 to |bits|
        invariant out == SetBelow(bits, len, 8 * byte)
      {
        for bit := 0 to 8
          invariant out == SetBelow(bits, len, 8 * byte + bit)
        {
          var idx := byte * 8 + bit;
          ByteBit(bits, byte, bit);
          if idx < len && Bit(bits[byte], bit) {
            out := out + [idx];
          }
        }
      }
      SetBelowIsExact(bits, len, 8 * |bits|);
    }

    /** `SignerBitmap::count` sums the popcounts; on this bitmap that is the number of signers. */
    method Count() returns (n: nat)
      requires WellFormed(bits, len)
      ensures n == |Members(bits, len)|
    {
      n := 0;
      for i := 0 to |bits|
        invariant n == CountOnes(bits[..i])
      {
        assert bits[..i + 1][..i] == bits[..i];
        n := n + Ones(bits[i]);
      }
      assert bits[..|bits|] == bits;
      CountIsCardinality(bits, len);
    }

    /** `signer_weight`: the loop over `iter_set` adds up to the weight of the members. */
    method SignerWeight(w: seq<nat>) returns (acc: nat)
      requires Quorum.MachineWeights(w)
      ensures acc == Quorum.WeightOf(w, Members(bits, len))
    {
      var signers := IterSet();
      acc := 0;
      Quorum.MachineTotalFits(w);
      ghost var seen: set<nat> := {};
      ZeroWeight(w);
      for k := 0 to |signers|
        invariant seen == set i | 0 <= i < k :: signers[i]
        invariant acc == Quorum.WeightOf(w, seen)
      {
        var idx := signers[k];
        assert idx !in seen;
        AddOne(w, seen, idx);
        Quorum.WeightBounded(w, seen + {idx});
        if idx < |w| {
          acc := SatAdd128(acc, w[idx]);
        }
        seen := seen + {idx};
      }
      assert seen == Members(bits, len);
    }

    /** `QuorumCertificate::has_quorum`, down to the bits. */
    method HasQuorum(w: seq<nat>) returns (ok: bool)
      requires Quorum.MachineWeights(w)
      ensures ok <==> Quorum.IsQuorum(w, Members(bits, len))
      ensures ok <==> Quorum.WeightOf(w, Members(bits, len)) >= Quorum.QuorumWeightThreshold(Quorum.Total(w))
    {
      var signer := SignerWeight(w);
      ok := Quorum.HasQuorum(signer, Quorum.Total(w));
      Quorum.QuorumIffThreshold(w, Members(bits, len));
    }

    /** `QuorumCertificate::is_well_formed`: shape of the bitmap, and empty exactly together. */
    method IsWellFormed(setLen: nat) returns (ok: bool)
      ensures ok <==> (len == setLen && WellFormed(bits, len)
                       && (Members(bits, len) == {} <==> aggregate == multiset{}))
    {
      if len != setLen || !WellFormed(bits, len) {
        return false;
      }
      var n := Count();
      ok := (n == 0) == (aggregate == multiset{});
    }
  }

  lemma ZeroByte(k: nat)
    requires k < 8
    ensures !Bit(0, k)
  {
  }

  lemma {:induction false} ZeroWeight(w: seq<nat>)
    ensures Quorum.WeightOf(w, {}) == 0
  {
    if w == [] {
    } else {
      ZeroWeight(w[..|w| - 1]);
    }
  }

  lemma {:induction false} AddOne(w: seq<nat>, s: set<nat>, i: nat)
    requires i !in s
    ensures Quorum.WeightOf(w, s + {i}) == Quorum.WeightOf(w, s) + if i < |w| then w[i] else 0
  {
    if w == [] {
    } else {
      AddOne(w[..|w| - 1], s, i);
    }
  }
}
