/** Machine-width integers and the few non-linear facts the pool and fee proofs rest on. */
module Arithmetic {

  const MAX_U256: int := 0xFFFF_FFFF_FFFF_FFFF_FFFF_FFFF_FFFF_FFFF_FFFF_FFFF_FFFF_FFFF_FFFF_FFFF_FFFF_FFFF
  const MAX_U64: int := 0xFFFF_FFFF_FFFF_FFFF
  const MAX_U32: int := 0xFFFF_FFFF
  const TWO_31: int := 0x8000_0000
  const TWO_32: int := 0x1_0000_0000
  const TWO_112: int := 0x1_0000_0000_0000_0000_0000_0000_0000
  const BPS: int := 10_000

  type U256 = x: int | 0 <= x <= MAX_U256
  type U64 = x: int | 0 <= x <= MAX_U64
  type U32 = x: int | 0 <= x <= MAX_U32

  function SatAdd(a: U256, b: U256): U256 { if a + b <= MAX_U256 then a + b else MAX_U256 }

  function SatAdd32(a: U32, b: U32): U32 { if a + b <= MAX_U32 then a + b else MAX_U32 }

  function SatSub(a: U256, b: U256): U256 { if b <= a then a - b else 0 }

  /** Multiplication by recursion on the second factor. Machine words multiply through it, so that a chain
      of their products stays symbolic until a proof asks for `TimesIsProduct`. */
  function Times(a: nat, b: nat): nat { if b == 0 then 0 else a + Times(a, b - 1) }

  lemma {:induction false} TimesIsProduct(a: nat, b: nat)
    ensures Times(a, b) == a * b
  {
    if b > 0 {
      TimesIsProduct(a, b - 1);
      assert a * b == a + a * (b - 1);
    }
  }

  function SatMul(a: U256, b: U256): U256 { if Times(a, b) <= MAX_U256 then Times(a, b) else MAX_U256 }

  lemma SatMulClips(a: U256, b: U256)
    ensures SatMul(a, b) == Min(a * b, MAX_U256)
  {
    TimesIsProduct(a, b);
  }

  function Min(a: int, b: int): int { if a <= b then a else b }

  function Max(a: int, b: int): int { if a <= b then b else a }

  lemma NonNegativeProduct(a: int, b: int)
    requires 0 <= a && 0 <= b
    ensures 0 <= a * b
  {}

  lemma ProductMonotone(a: int, b: int, c: int)
    requires a <= b && 0 <= c
    ensures a * c <= b * c
  {}

  /** Products of naturals grow with both factors. */
  lemma ProductsGrow(v: nat, w: nat, y: nat, z: nat)
    requires v <= w && y <= z
    ensures v * y <= w * z
    ensures v < w && 0 < z ==> v * y < w * z
  {
    ProductMonotone(y, z, v);
    ProductMonotone(v, w, z);
    if v < w && 0 < z { ProductStrict(v, w, z); }
  }

  lemma ProductStrict(a: int, b: int, c: int)
    requires a < b && 0 < c
    ensures a * c < b * c
  {}

  /** Floor division is the adjoint of multiplication by the divisor. */
  lemma FloorAdjoint(q: int, n: int, d: int)
    requires 0 < d && 0 <= n
    ensures q <= n / d <==> q * d <= n
  {
    var f := n / d;
    assert f * d <= n < f * d + d;
    if q <= f {
      ProductMonotone(q, f, d);
    } else {
      ProductMonotone(f + 1, q, d);
      assert (f + 1) * d == f * d + d;
    }
  }

  lemma FloorMonotone(n: int, m: int, d: int)
    requires 0 < d && 0 <= n <= m
    ensures n / d <= m / d
  {
    FloorAdjoint(n / d, n, d);
    FloorAdjoint(n / d, m, d);
  }

  lemma FloorAntitone(n: int, d: int, e: int)
    requires 0 <= n && 0 < d <= e
    ensures n / e <= n / d
  {
    FloorAdjoint(n / e, n, e);
    FloorAdjoint(0, n, e);
    ProductMonotone(d, e, n / e);
    FloorAdjoint(n / e, n, d);
  }

  lemma Distributes(a: int, b: int, c: int)
    ensures a * (b + c) == a * b + a * c && (b + c) * a == b * a + c * a
  {}

  /** If a product does not fall while one factor does not grow, the other factor does not fall. */
  lemma OtherFactor(a: nat, b: nat, c: nat, d: nat)
    requires a <= c && 0 < c && c * d <= a * b
    ensures d <= b
  {
    if b < d {
      ProductMonotone(a, c, b);
      ProductStrict(b, d, c);
    }
  }
}
