/** Exact real arithmetic: clamping and the order facts of products. */
module Reals {

  /** The machine epsilon of a double. */
  const EPSILON: real := 1.0 / 4503599627370496.0

  function Clamp(x: real, lo: real, hi: real): real { if x < lo then lo else if x > hi then hi else x }

  function MaxReal(a: real, b: real): real { if a <= b then b else a }

  function Pow(b: real, n: nat): real { if n == 0 then 1.0 else b * Pow(b, n - 1) }

  lemma ProductNonNegative(a: real, b: real)
    requires a >= 0.0 && b >= 0.0
    ensures a * b >= 0.0
  {}

  lemma ProductPositive(a: real, b: real)
    requires a > 0.0 && b > 0.0
    ensures a * b > 0.0
  {}

  lemma ProductMonotone(a: real, b: real, c: real)
    requires a <= b && c >= 0.0
    ensures a * c <= b * c
  {}

  lemma QuotientStrict(a: real, b: real, d: real)
    requires a < b && d > 0.0
    ensures a / d < b / d
  {
    var x, y := a / d, b / d;
    assert x * d == a && y * d == b;
    if y <= x { ProductMonotone(y, x, d); }
  }

  /** Products of non-negative factors grow with both factors. */
  lemma ProductsGrow(a: real, b: real, c: real, d: real)
    requires 0.0 <= a <= b && 0.0 <= c <= d
    ensures 0.0 <= a * c <= b * d
  {
    ProductNonNegative(a, c);
    ProductMonotone(a, b, c);
    ProductMonotone(c, d, b);
  }

  lemma UnitProduct(p: real, f: real)
    requires 0.0 <= p <= 1.0 && 0.0 <= f <= 1.0
    ensures 0.0 <= p * f <= 1.0
  {
    ProductsGrow(p, 1.0, f, 1.0);
  }

  lemma QuotientCancels(p: real, w: real, r: real)
    requires w > 0.0 && r > 0.0
    ensures w * r > 0.0 && (p * r) / (w * r) == p / w
  {
    ProductPositive(w, r);
    var q := p / w;
    assert q * w == p;
    assert q * (w * r) == p * r;
  }
}
