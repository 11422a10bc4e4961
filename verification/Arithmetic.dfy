/** The integer widths of the runtime and its saturating operations. Amounts and ids are
    modelled as naturals; every place where the source clamps or wraps says so with one of
    the functions below. */
module Arithmetic {

  const MAX_U32: nat := 0xFFFF_FFFF
  const MAX_U64: nat := 0xFFFF_FFFF_FFFF_FFFF
  const MAX_U128: nat := 0xFFFF_FFFF_FFFF_FFFF_FFFF_FFFF_FFFF_FFFF

  /** The three constants are the largest values of their widths. */
  lemma Widths()
    ensures MAX_U32 + 1 == Pow2(32) == 4_294_967_296
    ensures MAX_U64 + 1 == Pow2(64)
    ensures MAX_U128 + 1 == Pow2(128)
  {
    Pow2Values();
    Pow2Sum(32, 32);
    Pow2Sum(64, 64);
  }

  function Min(a: nat, b: nat): (m: nat)
    ensures m <= a && m <= b && (m == a || m == b)
  {
    if a <= b then a else b
  }

  /** `a.saturating_add(b)` for an unsigned type whose largest value is `limit`. */
  function SaturatingAdd(a: nat, b: nat, limit: nat): (sum: nat)
    ensures a + b <= limit ==> sum == a + b
    ensures a + b > limit ==> sum == limit
  {
    Min(a + b, limit)
  }

  /** `a.saturating_sub(b)` for any unsigned type. */
  function SaturatingSub(a: nat, b: nat): (difference: nat)
    ensures b <= a ==> difference + b == a
    ensures b > a ==> difference == 0
  {
    if b <= a then a - b else 0
  }

  /** The low 32 bits: an `as u32` cast, or u32 arithmetic in a release build. */
  function Wrap32(a: nat): nat {
    a % 0x1_0000_0000
  }

  lemma WrapIsIdentityIff(a: nat)
    ensures Wrap32(a) == a <==> a <= MAX_U32
  {
  }

  lemma WrapOfDouble(a: nat)
    requires Wrap32(a) == 0
    ensures Wrap32(2 * a) == 0
  {
    var q := a / 0x1_0000_0000;
    assert a == q * 0x1_0000_0000;
    assert 2 * a == (2 * q) * 0x1_0000_0000;
  }

  function Pow2(exponent: nat): (p: nat)
    ensures p >= 1
  {
    if exponent == 0 then 1 else 2 * Pow2(exponent - 1)
  }

  lemma {:induction false} Pow2Monotone(a: nat, b: nat)
    requires a <= b
    ensures Pow2(a) <= Pow2(b)
  {
    if a < b {
      Pow2Monotone(a, b - 1);
    }
  }

  lemma {:induction false} Pow2Sum(a: nat, b: nat)
    ensures Pow2(a + b) == Pow2(a) * Pow2(b)
  {
    if a == 0 {
    } else {
      Pow2Sum(a - 1, b);
      assert Pow2(a + b) == 2 * Pow2(a - 1 + b);
    }
  }

  lemma Pow2Values()
    ensures Pow2(8) == 0x100
    ensures Pow2(29) == 0x2000_0000
    ensures Pow2(32) == 0x1_0000_0000
    ensures Pow2(60) == 0x1000_0000_0000_0000
  {
    Pow2Sum(8, 8);
    Pow2Sum(16, 8);
    Pow2Sum(24, 5);
    Pow2Sum(29, 3);
    Pow2Sum(29, 2);
    Pow2Sum(31, 29);
  }

  lemma MulMonotone(m: nat, n: nat, unit: nat)
    requires m <= n
    ensures m * unit <= n * unit
  {
    var d := n - m;
    assert n * unit == (m + d) * unit;
    assert (m + d) * unit == m * unit + d * unit;
  }
}
