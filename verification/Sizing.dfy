/** Choosing how much capital to commit: the sizing loop and the best-candidate fold. */
module Sizing {
  import opened Arithmetic
  import opened Options
  import opened UniswapV2
  import opened Reals

  datatype SizeCandidate = SizeCandidate(
    capitalFractionBps: U64,
    amountIn: U256,
    amountOut: U256,
    grossProfitWei: U256,
    netProfitWei: U256,
    roiBps: U64,
    selfSlippageBps: U64)

  /** The market one call of the sizing loop looks at. */
  datatype Market = Market(reserveIn: U256, reserveOut: U256, capitalCap: U256, gasWei: U256, feeBps: U64)

  function Stake(m: Market, bps: U64): U256 {
    QuotientFits(SatMul(m.capitalCap, bps), BPS);
    SatMul(m.capitalCap, bps) / BPS
  }

  /** A fraction is worth offering exactly when what comes out strictly exceeds stake plus gas, counted in
      unbounded integers. */
  predicate Pays(m: Market, bps: U64) {
    hide AmountOutExactIn;
    var quote := AmountOutExactIn(Stake(m, bps), m.reserveIn, m.reserveOut, m.feeBps);
    quote.Some? && quote.value > Stake(m, bps) + m.gasWei
  }

  /** The offer for a fraction that pays, in plain subtraction. */
  function Offer(m: Market, bps: U64): SizeCandidate
    requires Pays(m, bps)
  {
    hide AmountOutExactIn, PriceImpactBps;
    var amountIn := Stake(m, bps);
    var amountOut := AmountOutExactIn(amountIn, m.reserveIn, m.reserveOut, m.feeBps).value;
    QuoteNeeds(amountIn, m.reserveIn, m.reserveOut, m.feeBps);
    var net: U256 := amountOut - amountIn - m.gasWei;
    QuotientFits(SatMul(net, BPS), amountIn);
    SizeCandidate(bps, amountIn, amountOut, amountOut - amountIn, net,
                  Min(SatMul(net, BPS) / amountIn, MAX_U64),
                  PriceImpactBps(amountIn, amountOut, m.reserveIn, m.reserveOut))
  }

  /** The offers for the fractions that pay, in the order given. */
  function Offers(m: Market, fractions: seq<U64>): seq<SizeCandidate> {
    if fractions == [] then []
    else
      var rest := Offers(m, fractions[..|fractions| - 1]);
      var last := fractions[|fractions| - 1];
      if Pays(m, last) then rest + [Offer(m, last)] else rest
  }

  /** The loop, with its saturating subtractions and early exits, returns exactly those offers. */
  method SizeCandidates(m: Market, fractions: seq<U64>) returns (candidates: seq<SizeCandidate>)
    ensures candidates == Offers(m, fractions)
  {
    hide AmountOutExactIn, PriceImpactBps, SatMul;
    candidates := [];
    if m.capitalCap == 0 || m.reserveIn == 0 || m.reserveOut == 0 {
      NothingToOffer(m, fractions);
      return;
    }
    for i := 0 to |fractions|
      invariant candidates == Offers(m, fractions[..i])
    {
      assert fractions[..i + 1][..i] == fractions[..i];
      var bps := fractions[i];
      QuotientFits(SatMul(m.capitalCap, bps), BPS);
      var amountIn: U256 := SatMul(m.capitalCap, bps) / BPS;
      QuoteNeeds(amountIn, m.reserveIn, m.reserveOut, m.feeBps);
      if amountIn == 0 {
        continue;
      }
      var quote := AmountOutExactIn(amountIn, m.reserveIn, m.reserveOut, m.feeBps);
      if quote == None {
        continue;
      }
      var amountOut := quote.value;
      var gross := SatSub(amountOut, amountIn);
      var net := SatSub(gross, m.gasWei);
      if net == 0 {
        continue;
      }
      QuotientFits(SatMul(net, BPS), amountIn);
      var roiBps: U64 := Min(SatMul(net, BPS) / amountIn, MAX_U64);
      candidates := candidates + [SizeCandidate(bps, amountIn, amountOut, gross, net, roiBps,
                                                PriceImpactBps(amountIn, amountOut, m.reserveIn, m.reserveOut))];
    }
    assert fractions[..|fractions|] == fractions;
  }

  lemma {:induction false} NothingToOffer(m: Market, fractions: seq<U64>)
    requires m.capitalCap == 0 || m.reserveIn == 0 || m.reserveOut == 0
    ensures Offers(m, fractions) == []
  {
    hide AmountOutExactIn, SatMul;
    if fractions != [] {
      var last := fractions[|fractions| - 1];
      SatMulClips(m.capitalCap, last);
      QuoteNeeds(Stake(m, last), m.reserveIn, m.reserveOut, m.feeBps);
      NothingToOffer(m, fractions[..|fractions| - 1]);
    }
  }

  /** Every offer balances: stake, gas and net profit add up to what comes out, nothing lost to clipping,
      and the net is positive. */
  lemma {:induction false} OffersBalance(m: Market, fractions: seq<U64>)
    ensures forall c :: c in Offers(m, fractions) ==>
              && c.capitalFractionBps in fractions
              && c.amountIn == Stake(m, c.capitalFractionBps)
              && c.amountIn + m.gasWei + c.netProfitWei == c.amountOut
              && c.grossProfitWei == c.amountOut - c.amountIn
              && 0 < c.netProfitWei && 0 < c.amountIn
              && AmountOutExactIn(c.amountIn, m.reserveIn, m.reserveOut, m.feeBps) == Some(c.amountOut)
              && c.selfSlippageBps == PriceImpactBps(c.amountIn, c.amountOut, m.reserveIn, m.reserveOut)
  {
    hide AmountOutExactIn, PriceImpactBps, SatMul;
    if fractions != [] {
      var last := fractions[|fractions| - 1];
      QuoteNeeds(Stake(m, last), m.reserveIn, m.reserveOut, m.feeBps);
      OffersBalance(m, fractions[..|fractions| - 1]);
    }
  }

  /** The return of an offer is its net profit per stake, in basis points rounded down, unless it clips. */
  lemma OfferReturn(m: Market, f: U64, k: nat)
    requires Pays(m, f)
    ensures k <= Offer(m, f).roiBps
            <==> k * Offer(m, f).amountIn <= Min(Offer(m, f).netProfitWei * BPS, MAX_U256) && k <= MAX_U64
  {
    hide AmountOutExactIn, PriceImpactBps;
    var c := Offer(m, f);
    QuoteNeeds(c.amountIn, m.reserveIn, m.reserveOut, m.feeBps);
    SatMulClips(c.netProfitWei, BPS);
    hide SatMul, Stake;
    FloorAdjoint(k, Min(c.netProfitWei * BPS, MAX_U256), c.amountIn);
  }

  /** An offer can exist only if the pool is priced well enough to beat its own fee. */
  lemma OfferNeedsCheapPool(m: Market, fractions: seq<U64>)
    ensures Offers(m, fractions) != [] ==>
              m.feeBps < BPS && (BPS - m.feeBps) * m.reserveOut > BPS * m.reserveIn
  {
    hide AmountOutExactIn, PriceImpactBps, SatMul, Offers, Stake, Affordable, Value, Depth;
    if Offers(m, fractions) == [] { return; }
    OffersBalance(m, fractions);
    var c := Offers(m, fractions)[0];
    assert c in Offers(m, fractions);
    QuoteNeeds(c.amountIn, m.reserveIn, m.reserveOut, m.feeBps);
    if Depth(c.amountIn, m.reserveIn, m.feeBps) > MAX_U256 {
      ClippedQuote(c.amountIn, m.reserveIn, m.reserveOut, m.feeBps);
    } else {
      QuoteFloor(c.amountIn, m.reserveIn, m.reserveOut, m.feeBps);
      BeatsFee(c.amountIn, m.reserveIn, m.reserveOut, m.feeBps, c.amountOut);
    }
  }

  lemma BeatsFee(a: nat, x: nat, y: nat, fee: nat, o: nat)
    requires fee < BPS && 0 < a < o && 0 < x
    requires Affordable(o, a, x, y, fee)
    ensures (BPS - fee) * y > BPS * x
  {
    var k := BPS - fee;
    var d := x * BPS + a * k;
    NonNegativeProduct(a, k);
    assert o * d <= a * k * y;
    ProductStrict(a, o, d);
    assert a * d < a * (k * y) by { assert a * k * y == a * (k * y); }
    if k * y <= d { Arithmetic.ProductMonotone(k * y, d, a); }
    assert k * y > d;
  }

  /** Self-slippage is a share of 10000 for any amounts at all. */
  lemma SlippageIsShare(a: U256, o: U256, x: U256, y: U256)
    ensures PriceImpactBps(a, o, x, y) <= BPS
    ensures a == 0 || o == 0 || x == 0 || y == 0 ==> PriceImpactBps(a, o, x, y) == BPS
  {
    hide SatMul;
  }

  /** What the amount would bring at the pool's price, without fee or movement. */
  function IdealOut(a: nat, x: nat, y: nat): nat
    requires x > 0
  {
    NonNegativeProduct(a, y);
    FloorAdjoint(0, Min(a * y, MAX_U256), x);
    Min(a * y, MAX_U256) / x
  }

  /** Self-slippage is the part of the ideal output that was not paid, in basis points rounded down: for any amounts,
      with only the two products clipped. */
  lemma SlippageIsLostShare(a: U256, o: U256, x: U256, y: U256, k: nat)
    requires a > 0 && o > 0 && x > 0 && y > 0
    ensures var ideal := IdealOut(a, x, y);
            && (ideal <= o ==> PriceImpactBps(a, o, x, y) == 0)
            && (ideal > o ==> (k <= PriceImpactBps(a, o, x, y) <==> k * ideal <= Min((ideal - o) * BPS, MAX_U256)))
  {
    SatMulClips(a, y);
    hide SatMul;
    var ideal := IdealOut(a, x, y);
    if ideal > o {
      QuotientFits(Min(a * y, MAX_U256), x);
      SatMulClips(ideal - o, BPS);
      FloorAdjoint(k, Min((ideal - o) * BPS, MAX_U256), ideal);
      FloorAdjoint(BPS + 1, Min((ideal - o) * BPS, MAX_U256), ideal);
    }
  }

  /** Once the ideal output is at least 10000 units it is no less than the fee, up to one basis point of rounding,
      as long as the ideal output, scaled by 10000, and the price's denominator fit the word. */
  lemma SlippageCoversFee(a: U256, x: U256, y: U256, fee: U64)
    requires a > 0 && x > 0 && y > 0 && fee < BPS
    requires a * y * BPS <= MAX_U256 && Depth(a, x, fee) <= MAX_U256
    ensures AmountOutExactIn(a, x, y, fee).Some?
    ensures a * y / x >= BPS ==> PriceImpactBps(a, AmountOutExactIn(a, x, y, fee).value, x, y) >= fee - 1
  {
    hide AmountOutExactIn, SatMul, Affordable, Depth;
    QuoteNeeds(a, x, y, fee);
    var o := AmountOutExactIn(a, x, y, fee).value;
    QuoteFloor(a, x, y, fee);
    NonNegativeProduct(a, y);
    assert a * y <= MAX_U256;
    var ideal := a * y / x;
    QuotientFits(a * y, x);
    if ideal >= BPS {
      FeeShare(a, x, y, fee, o, ideal);
      SatMulClips(a, y);
      SatMulClips(SatSub(ideal, o), BPS);
      ImpactFloor(ideal, o, fee);
      assert (ideal - o) * BPS <= a * y * BPS;
    }
  }

  /** Below 112 bits it all fits. */
  lemma SlippageFitsBelow112Bits(a: nat, x: nat, y: nat, fee: nat)
    requires a < TWO_112 && x < TWO_112 && y < TWO_112 && fee < BPS
    ensures a * y * BPS <= MAX_U256 && Depth(a, x, fee) <= MAX_U256
  {
    FitsBelow112Bits(a, x, y, fee);
    Arithmetic.ProductsGrow(a, TWO_112, y, TWO_112);
  }

  lemma FeeShare(a: nat, x: nat, y: nat, fee: nat, o: nat, ideal: nat)
    requires 0 < x && fee < BPS && Affordable(o, a, x, y, fee) && ideal == a * y / x
    ensures o * BPS <= (BPS - fee) * (ideal + 1)
  {
    var k := BPS - fee;
    NonNegativeProduct(a, k);
    Arithmetic.ProductMonotone(0, o, a * k);
    assert o * (x * BPS + a * k) == o * (x * BPS) + o * (a * k);
    assert o * (x * BPS) <= a * k * y;
    FloorAdjoint(ideal + 1, a * y, x);
    assert a * y < (ideal + 1) * x;
    Arithmetic.ProductMonotone(a * y, (ideal + 1) * x, k);
    assert a * k * y == a * y * k;
    assert o * (x * BPS) == o * BPS * x;
    assert (ideal + 1) * x * k == k * (ideal + 1) * x;
    if o * BPS > k * (ideal + 1) { ProductStrict(k * (ideal + 1), o * BPS, x); }
  }

  lemma ImpactFloor(ideal: nat, o: nat, fee: nat)
    requires fee < BPS && ideal >= BPS
    requires o * BPS <= (BPS - fee) * (ideal + 1)
    ensures o <= ideal ==> (ideal - o) * BPS / ideal >= fee - 1
    ensures o > ideal ==> fee == 0
    ensures o == ideal ==> fee <= 1
  {
    assert (BPS - fee) * (ideal + 1) == BPS * ideal + BPS - fee * ideal - fee;
    if o <= ideal {
      assert (ideal - o) * BPS >= fee * ideal - (BPS - fee);
      assert (fee - 1) * ideal == fee * ideal - ideal;
      if fee >= 1 { FloorAdjoint(fee - 1, (ideal - o) * BPS, ideal); }
      else { NonNegativeProduct(ideal - o, BPS); FloorAdjoint(0, (ideal - o) * BPS, ideal); }
      if o == ideal && fee > 1 { Arithmetic.ProductMonotone(2, fee, ideal); }
    } else if fee >= 1 {
      Arithmetic.ProductMonotone(1, fee, ideal);
    }
  }

  // ---------------------------------------------------------------- the best candidate

  function SizingScore(c: SizeCandidate, priority: real, toxicity: real): real {
    var roi := c.roiBps as real / 10000.0;
    var size := c.capitalFractionBps as real / 10000.0;
    var slippage := c.selfSlippageBps as real / 10000.0;
    c.netProfitWei as real
    * (1.0 + priority * 0.20)
    * (1.0 + roi * 0.45)
    * (1.0 + size * 0.10)
    * (1.0 - toxicity * 0.42)
    * (1.0 - slippage * 0.55)
  }

  /** Slippage a share, as the sizing loop always reports it. */
  predicate Measured(c: SizeCandidate) { c.selfSlippageBps <= BPS }

  /** At least as good in net profit, return, size and slippage. */
  predicate NoWorse(c: SizeCandidate, d: SizeCandidate) {
    && d.netProfitWei <= c.netProfitWei && d.roiBps <= c.roiBps && d.capitalFractionBps <= c.capitalFractionBps
    && c.selfSlippageBps <= d.selfSlippageBps
  }

  /** And better in one of them, at a profit. */
  predicate Beats(c: SizeCandidate, d: SizeCandidate) {
    && NoWorse(c, d) && c.netProfitWei > 0
    && (c.netProfitWei, c.roiBps, c.capitalFractionBps, c.selfSlippageBps)
       != (d.netProfitWei, d.roiBps, d.capitalFractionBps, d.selfSlippageBps)
  }

  /** The factor the context contributes, and what the score comes to without it. */
  function ContextFactor(priority: real, toxicity: real): real {
    (1.0 + priority * 0.20) * (1.0 - toxicity * 0.42)
  }

  function Merit(net: real, roi: real, size: real, slippage: real): real {
    net * (1.0 + roi * 0.45) * (1.0 + size * 0.10) * (1.0 - slippage * 0.55)
  }

  function MeritOf(c: SizeCandidate): real {
    Merit(c.netProfitWei as real, c.roiBps as real / 10000.0, c.capitalFractionBps as real / 10000.0,
          c.selfSlippageBps as real / 10000.0)
  }

  lemma ScoreFactors(c: SizeCandidate, priority: real, toxicity: real)
    ensures SizingScore(c, priority, toxicity) == MeritOf(c) * ContextFactor(priority, toxicity)
  {
    Regroup(c.netProfitWei as real, 1.0 + priority * 0.20, 1.0 + c.roiBps as real / 10000.0 * 0.45,
            1.0 + c.capitalFractionBps as real / 10000.0 * 0.10, 1.0 - toxicity * 0.42,
            1.0 - c.selfSlippageBps as real / 10000.0 * 0.55);
  }

  lemma Regroup(n: real, p: real, r: real, z: real, t: real, s: real)
    ensures n * p * r * z * t * s == n * r * z * s * (p * t)
  {
    assert n * p * r * z == n * r * z * p;
    assert n * r * z * p * t * s == n * r * z * s * p * t;
    assert n * r * z * s * p * t == n * r * z * s * (p * t);
  }

  lemma ContextFactorPositive(priority: real, toxicity: real)
    requires 0.0 <= priority && toxicity <= 1.0
    ensures ContextFactor(priority, toxicity) > 0.0
  {
    ProductPositive(1.0 + priority * 0.20, 1.0 - toxicity * 0.42);
  }

  lemma MeritGrows(n: real, n': real, r: real, r': real, z: real, z': real, s: real, s': real)
    requires 0.0 <= n <= n' && 0.0 <= r <= r' && 0.0 <= z <= z' && 0.0 <= s' <= s <= 1.0
    ensures Merit(n, r, z, s) <= Merit(n', r', z', s')
    ensures 0.0 < n' && (n < n' || r < r' || z < z' || s' < s) ==> Merit(n, r, z, s) < Merit(n', r', z', s')
  {
    FactorsGrow(n, n', 1.0 + r * 0.45, 1.0 + r' * 0.45);
    FactorsGrow(n * (1.0 + r * 0.45), n' * (1.0 + r' * 0.45), 1.0 + z * 0.10, 1.0 + z' * 0.10);
    FactorsGrow(n * (1.0 + r * 0.45) * (1.0 + z * 0.10), n' * (1.0 + r' * 0.45) * (1.0 + z' * 0.10),
                1.0 - s * 0.55, 1.0 - s' * 0.55);
  }

  lemma FactorsGrow(a: real, b: real, c: real, d: real)
    requires 0.0 <= a <= b && 0.0 < c <= d
    ensures 0.0 <= a * c <= b * d
    ensures 0.0 < b ==> 0.0 < b * d
    ensures 0.0 < b && (a < b || c < d) ==> a * c < b * d
  {
    Reals.ProductsGrow(a, b, c, d);
    if 0.0 < b {
      ProductPositive(b, d);
      if a < b { ProductPositive(b - a, c); Reals.ProductMonotone(c, d, b); }
      if c < d { ProductPositive(d - c, b); Reals.ProductMonotone(a, b, c); }
    }
  }

  /** The score rises with net profit, return and size and falls with slippage, strictly while there is a profit. */
  lemma ScoreRises(c: SizeCandidate, d: SizeCandidate, priority: real, toxicity: real)
    requires 0.0 <= priority && toxicity <= 1.0 && Measured(c) && Measured(d) && NoWorse(c, d)
    ensures SizingScore(d, priority, toxicity) <= SizingScore(c, priority, toxicity)
    ensures Beats(c, d) ==> SizingScore(d, priority, toxicity) < SizingScore(c, priority, toxicity)
  {
    hide SizingScore, Merit, ContextFactor;
    ScoreFactors(c, priority, toxicity);
    ScoreFactors(d, priority, toxicity);
    ContextFactorPositive(priority, toxicity);
    MeritGrows(d.netProfitWei as real, c.netProfitWei as real,
               d.roiBps as real / 10000.0, c.roiBps as real / 10000.0,
               d.capitalFractionBps as real / 10000.0, c.capitalFractionBps as real / 10000.0,
               d.selfSlippageBps as real / 10000.0, c.selfSlippageBps as real / 10000.0);
    Reals.ProductMonotone(MeritOf(d), MeritOf(c), ContextFactor(priority, toxicity));
    if Beats(c, d) { ProductPositive(MeritOf(c) - MeritOf(d), ContextFactor(priority, toxicity)); }
  }

  /** Priority and toxicity scale every score alike, so they never change which candidate is chosen. */
  lemma ContextNeverDecides(c: SizeCandidate, d: SizeCandidate, priority: real, toxicity: real)
    requires 0.0 <= priority && toxicity <= 1.0
    ensures SizingScore(c, priority, toxicity) <= SizingScore(d, priority, toxicity)
            <==> SizingScore(c, 1.0, 0.0) <= SizingScore(d, 1.0, 0.0)
  {
    hide SizingScore, MeritOf;
    ScoreFactors(c, priority, toxicity);
    ScoreFactors(d, priority, toxicity);
    ScoreFactors(c, 1.0, 0.0);
    ScoreFactors(d, 1.0, 0.0);
    ContextFactorPositive(priority, toxicity);
    ContextFactorPositive(1.0, 0.0);
    OrderKept(MeritOf(c), MeritOf(d), ContextFactor(priority, toxicity));
    OrderKept(MeritOf(c), MeritOf(d), ContextFactor(1.0, 0.0));
    hide ContextFactor;
  }

  lemma OrderKept(a: real, b: real, factor: real)
    requires factor > 0.0
    ensures a * factor <= b * factor <==> a <= b
  {
    if a <= b { Reals.ProductMonotone(a, b, factor); } else { ProductPositive(a - b, factor); }
  }

  /** What the weights make of one offer: a tenth of profit on a stake of half the capital, at four percent of
      slippage. */
  lemma WorkedScore()
    ensures SizingScore(SizeCandidate(5000, 10_000, 11_000, 1_000, 1_000, 1_000, 400), 0.5, 0.25)
            == 1000.0 * 1.1 * 1.045 * 1.05 * 0.895 * 0.978
  {}

  /** The fold picks a candidate no other beats; among equals it takes the last one. */
  method SelectBestSizeCandidate(candidates: seq<SizeCandidate>, contextPriority: real, contextToxicity: real)
    returns (best: Option<SizeCandidate>)
    ensures best.None? <==> candidates == []
    ensures var p, t := Clamp(contextPriority, 0.0, 1.5), Clamp(contextToxicity, 0.0, 1.0);
            best.Some? ==>
              exists k :: 0 <= k < |candidates| && candidates[k] == best.value
                && (forall j :: 0 <= j < k ==> SizingScore(candidates[j], p, t) <= SizingScore(best.value, p, t))
                && (forall j :: k < j < |candidates| ==>
                      SizingScore(candidates[j], p, t) < SizingScore(best.value, p, t))
    ensures best.Some? && (forall c :: c in candidates ==> Measured(c)) ==>
              forall c :: c in candidates ==> !Beats(c, best.value)
  {
    hide SizingScore, Beats, NoWorse, Measured;
    var priority := Clamp(contextPriority, 0.0, 1.5);
    var toxicity := Clamp(contextToxicity, 0.0, 1.0);
    best := None;
    ghost var k := 0;
    for i := 0 to |candidates|
      invariant best.None? <==> i == 0
      invariant best.Some? ==> 0 <= k < i && candidates[k] == best.value
      invariant best.Some? ==>
        && (forall j :: 0 <= j < k ==>
              SizingScore(candidates[j], priority, toxicity) <= SizingScore(best.value, priority, toxicity))
        && (forall j :: k < j < i ==>
              SizingScore(candidates[j], priority, toxicity) < SizingScore(best.value, priority, toxicity))
    {
      if best.None? || SizingScore(best.value, priority, toxicity) <= SizingScore(candidates[i], priority, toxicity) {
        best := Some(candidates[i]);
        k := i;
      }
    }
    if best.Some? && (forall c :: c in candidates ==> Measured(c)) {
      forall c | c in candidates ensures !Beats(c, best.value) {
        if Beats(c, best.value) {
          BeatsIsNoWorse(c, best.value);
          ScoreRises(c, best.value, priority, toxicity);
        }
      }
    }
  }

  lemma BeatsIsNoWorse(c: SizeCandidate, d: SizeCandidate)
    requires Beats(c, d)
    ensures NoWorse(c, d)
  {}

  const ROI_FRACTIONS: seq<U64> := [50, 100, 200, 350, 500, 750, 1_000, 1_500, 2_000, 2_500, 3_000]

  /** A listed fraction that pays, no other listed one scoring higher at full priority and no toxicity. */
  predicate BestFraction(m: Market, fractions: seq<U64>, f: U64) {
    && f in fractions && Pays(m, f)
    && forall g :: g in fractions && Pays(m, g) ==>
         SizingScore(Offer(m, g), 1.0, 0.0) <= SizingScore(Offer(m, f), 1.0, 0.0)
  }

  lemma BestOffer(m: Market, fractions: seq<U64>, best: SizeCandidate) returns (f: U64)
    requires best in Offers(m, fractions)
    requires forall c :: c in Offers(m, fractions) ==> SizingScore(c, 1.0, 0.0) <= SizingScore(best, 1.0, 0.0)
    ensures BestFraction(m, fractions, f) && best == Offer(m, f)
  {
    hide Pays, Offer, SizingScore, Offers;
    OffersAre(m, fractions);
    f :| f in fractions && Pays(m, f) && best == Offer(m, f);
    forall g | g in fractions && Pays(m, g)
      ensures SizingScore(Offer(m, g), 1.0, 0.0) <= SizingScore(Offer(m, f), 1.0, 0.0)
    {
      assert Offer(m, g) in Offers(m, fractions);
    }
  }

  /** No listed fraction that pays has an offer at least as good in everything and better in something. */
  predicate Unbeaten(m: Market, fractions: seq<U64>, f: U64) {
    Pays(m, f) && forall g :: g in fractions && Pays(m, g) ==> !Beats(Offer(m, g), Offer(m, f))
  }

  lemma BestIsUnbeaten(m: Market, fractions: seq<U64>, f: U64)
    requires BestFraction(m, fractions, f)
    ensures Unbeaten(m, fractions, f)
  {
    hide Offer, SizingScore, NoWorse, Pays;
    OfferMeasured(m, f);
    forall g | g in fractions && Pays(m, g) ensures !Beats(Offer(m, g), Offer(m, f)) {
      OfferMeasured(m, g);
      if Beats(Offer(m, g), Offer(m, f)) { ScoreRises(Offer(m, g), Offer(m, f), 1.0, 0.0); }
    }
  }

  lemma OfferMeasured(m: Market, f: U64)
    requires Pays(m, f)
    ensures Measured(Offer(m, f))
  {
    hide PriceImpactBps, AmountOutExactIn;
    var amountIn := Stake(m, f);
    SlippageIsShare(amountIn, AmountOutExactIn(amountIn, m.reserveIn, m.reserveOut, m.feeBps).value, m.reserveIn,
                    m.reserveOut);
  }

  /** The convenience entry point: the stake and net profit of the best-scored listed fraction, balancing against
      the pool's own quote, and nothing exactly when no listed fraction pays. */
  method FindRoiOptimalInput(m: Market) returns (r: Option<(U256, U256)>)
    ensures r.None? <==> forall f :: f in ROI_FRACTIONS ==> !Pays(m, f)
    ensures r.Some? ==>
              && AmountOutExactIn(r.value.0, m.reserveIn, m.reserveOut, m.feeBps)
                 == Some(r.value.0 + m.gasWei + r.value.1)
              && r.value.1 > 0
    ensures r.Some? ==> exists f :: BestFraction(m, ROI_FRACTIONS, f)
                                    && r.value == (Offer(m, f).amountIn, Offer(m, f).netProfitWei)
                                    && Unbeaten(m, ROI_FRACTIONS, f)
  {
    hide AmountOutExactIn, PriceImpactBps, SatMul, Pays, Offer, SizingScore, BestFraction, Unbeaten;
    var candidates := SizeCandidates(m, ROI_FRACTIONS);
    OffersBalance(m, ROI_FRACTIONS);
    OffersEmptyIff(m, ROI_FRACTIONS);
    var best := SelectBestSizeCandidate(candidates, 1.0, 0.0);
    if best.None? {
      return None;
    }
    assert best.value in candidates;
    assert forall c :: c in candidates ==> SizingScore(c, 1.0, 0.0) <= SizingScore(best.value, 1.0, 0.0);
    ghost var f := BestOffer(m, ROI_FRACTIONS, best.value);
    BestIsUnbeaten(m, ROI_FRACTIONS, f);
    return Some((best.value.amountIn, best.value.netProfitWei));
  }

  /** The offers are those of the fractions that pay, and no others. */
  lemma {:induction false} OffersAre(m: Market, fractions: seq<U64>)
    ensures forall c :: c in Offers(m, fractions) <==> exists f :: f in fractions && Pays(m, f) && c == Offer(m, f)
  {
    hide Pays, Offer;
    if fractions != [] {
      OffersAre(m, fractions[..|fractions| - 1]);
      var last := fractions[|fractions| - 1];
      assert fractions == fractions[..|fractions| - 1] + [last];
    }
  }

  lemma {:induction false} OffersEmptyIff(m: Market, fractions: seq<U64>)
    ensures Offers(m, fractions) == [] <==> forall f :: f in fractions ==> !Pays(m, f)
  {
    hide Pays;
    if fractions != [] {
      OffersEmptyIff(m, fractions[..|fractions| - 1]);
      var last := fractions[|fractions| - 1];
      assert fractions == fractions[..|fractions| - 1] + [last];
    }
  }
}
