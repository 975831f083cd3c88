/** Small shared vocabulary: optional values, results and the machine-integer bounds of the source. */
module Common {
  datatype Option<+T> = None | Some(value: T)

  datatype Result<+T, +E> = Ok(value: T) | Err(error: E)

  const U64_MAX: nat := 0xFFFF_FFFF_FFFF_FFFF
  const U128_MAX: nat := 0xFFFF_FFFF_FFFF_FFFF_FFFF_FFFF_FFFF_FFFF

  function Min(a: int, b: int): int { if a <= b then a else b }
  function Max(a: int, b: int): int { if a >= b then a else b }

  /** `u64::saturating_add`. */
  function SatAdd64(a: nat, b: nat): nat { Min(a + b, U64_MAX) }

  /** `u128::saturating_add` and `u128::saturating_mul`. */
  function SatAdd128(a: nat, b: nat): nat { Min(a + b, U128_MAX) }
  function SatMul128(a: nat, b: nat): nat { Min(a * b, U128_MAX) }

  type Byte = b: int | 0 <= b < 256
  type Bytes = seq<Byte>

  lemma {:induction false} LeastExists(s: set<nat>)
    requires s != {}
    ensures exists x :: x in s && forall y :: y in s ==> x <= y
    decreases s
  {
    var a :| a in s;
    var lower := set y | y in s && y < a;
    if lower == {} {
      assert forall y :: y in s ==> y in lower || a <= y;
    } else {
      assert a !in lower;
      LeastExists(lower);
      var m :| m in lower && forall y :: y in lower ==> m <= y;
      assert forall y :: y in s ==> y in lower || m <= y;
    }
  }

  function Least(s: set<nat>): (x: nat)
    requires s != {}
    ensures x in s && forall y :: y in s ==> x <= y
  {
    LeastExists(s);
    var x :| x in s && forall y :: y in s ==> x <= y;
    x
  }

  /** The sum of a map's values. */
  ghost function MapSum(m: map<nat, nat>): nat {
    if m == map[] then 0 else var k := Least(m.Keys); m[k] + MapSum(m - {k})
  }

  lemma {:induction false} MapSumRemove(m: map<nat, nat>, k: nat)
    requires k in m
    ensures MapSum(m) == m[k] + MapSum(m - {k})
    decreases |m|
  {
    var l := Least(m.Keys);
    if l != k {
      assert |m - {l}| < |m| by { assert (m - {l}).Keys == m.Keys - {l}; }
      MapSumRemove(m - {l}, k);
      var n := m - {k};
      assert m - {l} - {k} == n - {l};
      assert l in n.Keys && Least(n.Keys) in m.Keys;
    }
  }

  lemma MapSumUpdate(m: map<nat, nat>, k: nat, v: nat)
    ensures MapSum(m[k := v]) == MapSum(m) - (if k in m then m[k] else 0) + v
  {
    var n := m[k := v];
    MapSumRemove(n, k);
    assert n - {k} == m - {k};
    if k in m { MapSumRemove(m, k); } else { assert m - {k} == m; }
  }
}
