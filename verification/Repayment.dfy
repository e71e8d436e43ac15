/** The repayment formulas of the executor against the pair's fee-adjusted check, and against the exact-in
    quote the off-chain pricing uses. */
module Repayment {
  import opened Arithmetic
  import opened Options
  import opened FlashSwap
  import opened Ledger
  import UniswapV2

  /** The pair accepts `paid` of the other token for `borrowed` out, its balances being its reserves. */
  predicate AcceptsCross(paid: nat, reserveIn: nat, reserveOut: nat, borrowed: nat)
    requires borrowed <= reserveOut
  {
    KHolds(reserveIn + paid, reserveOut - borrowed, paid, 0, reserveIn, reserveOut)
  }

  /** The pair accepts `paid` of the borrowed token itself. */
  predicate AcceptsSame(paid: nat, reserve: nat, other: nat, borrowed: nat)
    requires borrowed <= reserve
  {
    KHolds(reserve - borrowed + paid, other, paid, 0, reserve, other)
  }

  /** The pair's check is the linear condition the formulas solve. */
  lemma AcceptsCrossIff(paid: nat, x: nat, y: nat, b: nat)
    requires b < y
    ensures AcceptsCross(paid, x, y, b) <==> 997 * paid * (y - b) >= 1000 * x * b
  {
    var d := y - b;
    assert ((x + paid) * 1000 - paid * 3) * (d * 1000) == (1000 * x + 997 * paid) * d * 1000;
    assert (1000 * x + 997 * paid) * d == 1000 * x * d + 997 * paid * d;
    assert x * y * 1_000_000 == 1000 * x * y * 1000;
    assert 1000 * x * d == 1000 * x * y - 1000 * x * b;
  }

  lemma AcceptsSameIff(paid: nat, r: nat, o: nat, b: nat)
    requires b < r && o > 0
    ensures AcceptsSame(paid, r, o, b) <==> 997 * paid >= 1000 * b
  {
    var lhs := 1000 * (r - b) + 997 * paid;
    assert ((r - b + paid) * 1000 - paid * 3) == lhs;
    assert lhs * (o * 1000) == lhs * o * 1000;
    assert r * o * 1_000_000 == 1000 * r * o * 1000;
    if lhs >= 1000 * r {
      ProductMonotone(1000 * r, lhs, o);
    } else {
      ProductStrict(lhs, 1000 * r, o);
    }
  }

  /** The cross-token repayment is always accepted, and it overshoots the least acceptable amount by at most
      one unit: by exactly one when the division is exact, and not at all otherwise. */
  lemma CrossRepaymentIsTight(x: nat, y: nat, b: nat, s: nat)
    requires CrossTokenRepayment(x, y, b).Ok?
    ensures b < y
    ensures var r := CrossTokenRepayment(x, y, b).value;
            && r >= 1
            && (s >= r ==> AcceptsCross(s, x, y, b))
            && (AcceptsCross(s, x, y, b) ==> s >= r - 1)
            && (AcceptsCross(r - 1, x, y, b) <==> (x * b * 1000) % ((y - b) * 997) == 0)
  {
    hide AcceptsCross;
    var r := CrossTokenRepayment(x, y, b).value;
    var n, d := x * b * 1000, (y - b) * 997;
    CheckedMulIsProduct(x, b);
    CheckedMulIsProduct(x * b, 1000);
    CheckedMulIsProduct(y - b, 997);
    hide CheckedMul;
    AcceptsCrossByDivision(s, x, y, b);
    AcceptsCrossByDivision(r - 1, x, y, b);
    CeilingAdjoint(s, n, d);
    CeilingAdjoint(r - 1, n, d);
  }

  lemma AcceptsCrossByDivision(paid: nat, x: nat, y: nat, b: nat)
    requires b < y
    ensures AcceptsCross(paid, x, y, b) <==> paid * ((y - b) * 997) >= x * b * 1000
  {
    hide AcceptsCross;
    AcceptsCrossIff(paid, x, y, b);
    assert 997 * paid * (y - b) == paid * ((y - b) * 997);
    assert 1000 * x * b == x * b * 1000;
  }

  /** s * d >= n exactly from n/d up, or from n/d + 1 when the division leaves a remainder. */
  lemma CeilingAdjoint(s: nat, n: nat, d: nat)
    requires d > 0
    ensures s * d >= n <==> s > n / d || (s == n / d && n % d == 0)
  {
    assert n == n / d * d + n % d;
    if s > n / d { ProductMonotone(n / d + 1, s, d); assert (n / d + 1) * d == n / d * d + d; }
    if s < n / d { ProductMonotone(s, n / d - 1, d); assert (n / d - 1) * d == n / d * d - d; }
  }

  /** The same-token repayment is always accepted, and is tight in the same sense. */
  lemma SameRepaymentIsTight(r: nat, o: nat, b: nat, s: nat)
    requires b < r && o > 0 && SameTokenRepayment(b).Ok?
    ensures var q := SameTokenRepayment(b).value;
            && q >= 1
            && (s >= q ==> AcceptsSame(s, r, o, b))
            && (AcceptsSame(s, r, o, b) ==> s >= q - 1)
            && (AcceptsSame(q - 1, r, o, b) <==> (b * 1000) % 997 == 0)
  {
    var q := SameTokenRepayment(b).value;
    CheckedMulIsProduct(b, 1000);
    hide CheckedMul;
    AcceptsSameIff(s, r, o, b);
    AcceptsSameIff(q - 1, r, o, b);
  }

  /** Pricing and repayment are adjoint: at 30 basis points, the exact-in quote for an input reaches the
      borrowed amount exactly when the pair accepts that input as its repayment, for every input whose numerator is
      below the top of the word. */
  lemma PricingAdjointToRepayment(paid: U256, x: U256, y: U256, b: nat)
    requires paid > 0 && x > 0 && b < y && UniswapV2.Value(paid, y, 30) < MAX_U256
    ensures UniswapV2.AmountOutExactIn(paid, x, y, 30).Some?
    ensures UniswapV2.AmountOutExactIn(paid, x, y, 30).value >= b <==> AcceptsCross(paid, x, y, b)
  {
    hide UniswapV2.AmountOutExactIn, UniswapV2.Affordable, UniswapV2.Value, AcceptsCross;
    UniswapV2.QuoteIsLargestAffordable(b, paid, x, y, 30);
    AffordableIsAccepted(b, paid, x, y);
  }

  /** Every input is one, for the 112-bit amounts a pair can hold. */
  lemma PairAmountsFit(paid: U256, x: U256, y: U256)
    requires paid < TWO_112 && x < TWO_112 && y < TWO_112
    ensures UniswapV2.Value(paid, y, 30) < MAX_U256
  {
    UniswapV2.ValueAndDepth(paid, x, y, 30);
    hide UniswapV2.Value;
    ProductsGrow(paid * 9970, TWO_112 * 9970, y, TWO_112);
  }

  /** The pool affords `b` for `paid` at 30 basis points exactly when the pair takes `paid` for `b`. */
  lemma AffordableIsAccepted(b: nat, paid: nat, x: nat, y: nat)
    requires b < y
    ensures UniswapV2.Affordable(b, paid, x, y, 30) <==> AcceptsCross(paid, x, y, b)
  {
    hide AcceptsCross;
    AcceptsCrossIff(paid, x, y, b);
    assert b * UniswapV2.Depth(paid, x, 30) == 10 * (1000 * x * b) + 9970 * paid * b;
    assert UniswapV2.Value(paid, y, 30) == 10 * (997 * paid * (y - b)) + 9970 * paid * b;
  }

  /** Donations only help: balances at least what the stages require still pass the check. */
  lemma MoreIsStillAccepted(b0: nat, b1: nat, p0: nat, p1: nat, extra0: nat, extra1: nat, x: nat, y: nat)
    requires KHolds(b0, b1, p0, p1, x, y) && 3 * p0 <= 1000 * b0 && 3 * p1 <= 1000 * b1
    ensures KHolds(b0 + extra0, b1 + extra1, p0 + extra0, p1 + extra1, x, y)
  {
    var a0, a1 := Adjusted(b0, p0), Adjusted(b1, p1);
    assert Adjusted(b0 + extra0, p0 + extra0) == a0 + 997 * extra0;
    assert Adjusted(b1 + extra1, p1 + extra1) == a1 + 997 * extra1;
    ProductsGrow(a0, a0 + 997 * extra0, a1, a1 + 997 * extra1);
  }

  lemma ScaleProduct(a: int, b: int)
    ensures 1000 * a * (1000 * b) == a * b * 1_000_000
  {}

  lemma CancelScale(p: int, q: int)
    requires p * 1_000_000 <= q * 1_000_000
    ensures p <= q
  {}

  /** Passing the fee-adjusted check keeps the plain product. */
  lemma KKeepsProduct(b0: nat, b1: nat, p0: nat, p1: nat, x: nat, y: nat)
    requires KHolds(b0, b1, p0, p1, x, y) && p0 <= b0 && p1 <= b1
    ensures b0 * b1 >= x * y
  {
    var a0, a1 := Adjusted(b0, p0), Adjusted(b1, p1);
    ProductsGrow(a0, 1000 * b0, a1, 1000 * b1);
    ScaleProduct(b0, b1);
    CancelScale(x * y, b0 * b1);
  }

  lemma KSymmetric(b0: nat, b1: nat, p0: nat, p1: nat, x: nat, y: nat)
    ensures KHolds(b0, b1, p0, p1, x, y) <==> KHolds(b1, b0, p1, p0, y, x)
  {}

  /** Whatever the executor computes as repayment satisfies the pair, for either borrowed side, either
      repayment token, and any surplus already sitting in the pair. */
  lemma RepaymentSatisfiesPair(p: PairState, borrowToken: Address, repayToken: Address, b: nat, r: nat,
                               d0: nat, d1: nat)
    requires p.token0 != p.token1 && b > 0
    requires borrowToken == p.token0 || borrowToken == p.token1
    requires (borrowToken == p.token0 ==> b < p.reserve0) && (borrowToken == p.token1 ==> b < p.reserve1)
    requires p.reserve0 > 0 && p.reserve1 > 0
    requires RepaymentAmountIn(p, borrowToken, repayToken, b) == Ok(r)
    ensures repayToken == p.token0 || repayToken == p.token1
    ensures var out0, out1 := if borrowToken == p.token0 then b else 0, if borrowToken == p.token1 then b else 0;
            var in0, in1 := if repayToken == p.token0 then r else 0, if repayToken == p.token1 then r else 0;
            var b0, b1 := p.reserve0 + d0 - out0 + in0, p.reserve1 + d1 - out1 + in1;
            var p0, p1 := PaidIn(b0, p.reserve0, out0), PaidIn(b1, p.reserve1, out1);
            (p0 > 0 || p1 > 0) && KHolds(b0, b1, p0, p1, p.reserve0, p.reserve1)
  {
    hide KHolds, CrossTokenRepayment, SameTokenRepayment;
    var x, y := p.reserve0, p.reserve1;
    if repayToken == borrowToken {
      if borrowToken == p.token0 {
        SameRepaymentIsTight(x, y, b, r);
        MoreIsStillAccepted(x - b + r, y, r, 0, d0, d1, x, y);
      } else {
        SameRepaymentIsTight(y, x, b, r);
        KSymmetric(y - b + r, x, r, 0, y, x);
        MoreIsStillAccepted(x, y - b + r, 0, r, d0, d1, x, y);
      }
    } else if borrowToken == p.token1 {
      CrossRepaymentIsTight(x, y, b, r);
      MoreIsStillAccepted(x + r, y - b, r, 0, d0, d1, x, y);
    } else {
      CrossRepaymentIsTight(y, x, b, r);
      KSymmetric(y + r, x - b, r, 0, y, x);
      MoreIsStillAccepted(x - b, y + r, 0, r, d0, d1, x, y);
    }
  }
}
