/** Rows of non-negative reals: sums, dot products and normalisation. */
module Vectors {
  import opened Reals

  function Sum(v: seq<real>): real {
    if v == [] then 0.0 else Sum(v[..|v| - 1]) + v[|v| - 1]
  }

  function Dot(a: seq<real>, b: seq<real>): real
    requires |a| == |b|
  {
    if a == [] then 0.0 else Dot(a[..|a| - 1], b[..|b| - 1]) + a[|a| - 1] * b[|b| - 1]
  }

  function Divided(v: seq<real>, d: real): (w: seq<real>)
    requires d != 0.0
    ensures |w| == |v| && forall i :: 0 <= i < |v| ==> w[i] == v[i] / d
  {
    seq(|v|, i requires 0 <= i < |v| => v[i] / d)
  }

  /** Scaled to sum 1; a row without mass is left alone. */
  function Normalized(v: seq<real>): (w: seq<real>)
    ensures |w| == |v|
  {
    if Sum(v) > 0.0 then Divided(v, Sum(v)) else v
  }

  method Normalize(v: seq<real>) returns (w: seq<real>)
    ensures w == Normalized(v)
  {
    w := v;
    var sum := Sum(v);
    if sum > 0.0 {
      for i := 0 to |v|
        invariant |w| == |v|
        invariant forall k :: 0 <= k < i ==> w[k] == v[k] / sum
        invariant forall k :: i <= k < |v| ==> w[k] == v[k]
      {
        w := w[i := w[i] / sum];
      }
    }
  }

  predicate Positive(v: seq<real>) { forall i :: 0 <= i < |v| ==> v[i] > 0.0 }

  predicate NonNegative(v: seq<real>) { forall i :: 0 <= i < |v| ==> v[i] >= 0.0 }

  predicate Zero(v: seq<real>) { forall i :: 0 <= i < |v| ==> v[i] == 0.0 }

  predicate Level(v: seq<real>, c: real) { forall i :: 0 <= i < |v| ==> v[i] == c }

  predicate Distribution(v: seq<real>) { NonNegative(v) && Sum(v) == 1.0 }

  lemma {:induction false} SumNonNegative(v: seq<real>)
    requires NonNegative(v)
    ensures Sum(v) >= 0.0
  {
    if v != [] {
      SumNonNegative(v[..|v| - 1]);
    }
  }

  lemma {:induction false} SumPositiveAt(v: seq<real>, k: nat)
    requires NonNegative(v) && k < |v| && v[k] > 0.0
    ensures Sum(v) > 0.0
  {
    var rest := v[..|v| - 1];
    SumNonNegative(rest);
    if k < |rest| {
      SumPositiveAt(rest, k);
    }
  }

  lemma {:induction false} SumLevel(v: seq<real>, c: real)
    requires Level(v, c)
    ensures Sum(v) == |v| as real * c
  {
    if v != [] {
      SumLevel(v[..|v| - 1], c);
    }
  }

  lemma {:induction false} SumDivided(v: seq<real>, d: real)
    requires d > 0.0
    ensures Sum(Divided(v, d)) == Sum(v) / d
  {
    if v != [] {
      SumDivided(v[..|v| - 1], d);
      assert Divided(v, d)[..|v| - 1] == Divided(v[..|v| - 1], d);
    }
  }

  lemma {:induction false} SumRaised(v: seq<real>, k: nat, x: real)
    requires k < |v|
    ensures Sum(v[k := v[k] + x]) == Sum(v) + x
  {
    var n := |v| - 1;
    if k < n {
      SumRaised(v[..n], k, x);
      assert v[k := v[k] + x][..n] == v[..n][k := v[..n][k] + x];
    } else {
      assert v[k := v[k] + x][..n] == v[..n];
    }
  }

  lemma QuotientPositive(a: real, d: real)
    requires d > 0.0
    ensures a > 0.0 <==> a / d > 0.0
    ensures a == 0.0 <==> a / d == 0.0
  {}

  lemma NormalizedAt(v: seq<real>, k: nat)
    requires k < |v| && Sum(v) > 0.0
    ensures Normalized(v)[k] == v[k] / Sum(v)
  {}

  /** A row with some mass becomes a distribution with the same support. */
  lemma NormalizedDistribution(v: seq<real>, k: nat)
    requires NonNegative(v) && k < |v| && v[k] > 0.0
    ensures Distribution(Normalized(v))
    ensures forall i :: 0 <= i < |v| ==> (Normalized(v)[i] > 0.0 <==> v[i] > 0.0)
  {
    SumPositiveAt(v, k);
    SumDivided(v, Sum(v));
    assert Sum(v) / Sum(v) == 1.0;
    forall i | 0 <= i < |v|
      ensures Normalized(v)[i] >= 0.0 && (Normalized(v)[i] > 0.0 <==> v[i] > 0.0)
    {
      QuotientPositive(v[i], Sum(v));
    }
  }

  lemma NormalizedPositive(v: seq<real>)
    requires Positive(v) && v != []
    ensures Positive(Normalized(v)) && Distribution(Normalized(v))
  {
    NormalizedDistribution(v, 0);
  }

  lemma NormalizedZero(v: seq<real>)
    requires Zero(v)
    ensures Normalized(v) == v && Sum(v) == 0.0
  {
    SumLevel(v, 0.0);
  }

  lemma NormalizedLevel(v: seq<real>, c: real)
    requires Level(v, c) && v != []
    ensures Level(Normalized(v), if c > 0.0 then 1.0 / |v| as real else c)
  {
    hide Sum;
    SumLevel(v, c);
    if c > 0.0 {
      CancelQuotient(c, |v| as real);
    } else {
      ProductMonotone(c, 0.0, |v| as real);
    }
  }

  lemma CancelQuotient(c: real, n: real)
    requires c > 0.0 && n > 0.0
    ensures n * c > 0.0 && c / (n * c) == 1.0 / n
  {
    ProductPositive(n, c);
    assert c / (n * c) * n == 1.0;
  }

  /** The common entry of a level distribution. */
  lemma LevelDistribution(v: seq<real>, c: real)
    requires Level(v, c) && v != [] && Sum(v) == 1.0
    ensures c == 1.0 / |v| as real
  {
    SumLevel(v, c);
  }

  lemma {:induction false} DotNonNegative(a: seq<real>, b: seq<real>)
    requires |a| == |b| && NonNegative(a) && NonNegative(b)
    ensures Dot(a, b) >= 0.0
  {
    var n := |a| - 1;
    if a != [] {
      DotNonNegative(a[..n], b[..n]);
      ProductNonNegative(a[n], b[n]);
    }
  }

  lemma {:induction false} DotPositiveAt(a: seq<real>, b: seq<real>, k: nat)
    requires |a| == |b| && NonNegative(a) && NonNegative(b) && k < |a| && a[k] > 0.0 && b[k] > 0.0
    ensures Dot(a, b) > 0.0
  {
    var n := |a| - 1;
    DotNonNegative(a[..n], b[..n]);
    ProductNonNegative(a[n], b[n]);
    if k < n {
      DotPositiveAt(a[..n], b[..n], k);
    } else {
      ProductPositive(a[n], b[n]);
    }
  }

  lemma {:induction false} DotZero(a: seq<real>, b: seq<real>)
    requires |a| == |b| && (Zero(a) || Zero(b))
    ensures Dot(a, b) == 0.0
  {
    if a != [] {
      DotZero(a[..|a| - 1], b[..|b| - 1]);
    }
  }

  lemma {:induction false} DotLevel(a: seq<real>, b: seq<real>, x: real, y: real)
    requires |a| == |b| && Level(a, x) && Level(b, y)
    ensures Dot(a, b) == |a| as real * (x * y)
  {
    if a != [] {
      DotLevel(a[..|a| - 1], b[..|b| - 1], x, y);
    }
  }
}
