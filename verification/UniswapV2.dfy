/** The constant-product pool: exact-in quotes over saturating 256-bit words, reserve updates, whole runs of
    swaps, and splits of one swap. */
module UniswapV2 {
  import opened Arithmetic
  import opened Options

  type Address = nat

  datatype V2PoolState = V2PoolState(
    pair: Address, token0: Address, token1: Address, reserve0: U256, reserve1: U256, feeBps: U64)

  datatype V2SwapResult = V2SwapResult(
    amountIn: U256, amountOut: U256, newReserveIn: U256, newReserveOut: U256, priceImpactBps: U64)

  // ---------------------------------------------------------------- the code's functions

  function ReservesFor(p: V2PoolState, tokenIn: Address, tokenOut: Address): Option<(U256, U256)> {
    if tokenIn == p.token0 && tokenOut == p.token1 then Some((p.reserve0, p.reserve1))
    else if tokenIn == p.token1 && tokenOut == p.token0 then Some((p.reserve1, p.reserve0))
    else None
  }

  function AmountOutExactIn(amountIn: U256, reserveIn: U256, reserveOut: U256, feeBps: U64): Option<U256> {
    if amountIn == 0 || reserveIn == 0 || reserveOut == 0 || feeBps >= BPS then None
    else
      var amountInWithFee := SatMul(amountIn, BPS - feeBps);
      var numerator := SatMul(amountInWithFee, reserveOut);
      var denominator := SatAdd(SatMul(reserveIn, BPS), amountInWithFee);
      if denominator == 0 then None
      else
        QuotientFits(numerator, denominator);
        Some(numerator / denominator)
  }

  function PriceImpactBps(amountIn: U256, amountOut: U256, reserveIn: U256, reserveOut: U256): U64 {
    if amountIn == 0 || amountOut == 0 || reserveIn == 0 || reserveOut == 0 then BPS
    else
      QuotientFits(SatMul(amountIn, reserveOut), reserveIn);
      var idealOut: U256 := SatMul(amountIn, reserveOut) / reserveIn;
      if idealOut == 0 || idealOut <= amountOut then 0
      else
        QuotientFits(SatMul(SatSub(idealOut, amountOut), BPS), idealOut);
        Min(SatMul(SatSub(idealOut, amountOut), BPS) / idealOut, BPS)
  }

  function ApplySwapExactIn(p: V2PoolState, tokenIn: Address, tokenOut: Address, amountIn: U256)
    : Option<(V2PoolState, V2SwapResult)>
  {
    match ReservesFor(p, tokenIn, tokenOut)
    case None => None
    case Some((reserveIn, reserveOut)) =>
      if amountIn == 0 || reserveIn == 0 || reserveOut == 0 then None
      else
        match AmountOutExactIn(amountIn, reserveIn, reserveOut, p.feeBps)
        case None => None
        case Some(amountOut) =>
          if amountOut == 0 || amountOut >= reserveOut then None
          else
            var newIn := SatAdd(reserveIn, amountIn);
            var newOut := SatSub(reserveOut, amountOut);
            var next := if tokenIn == p.token0 then p.(reserve0 := newIn, reserve1 := newOut)
                        else p.(reserve1 := newIn, reserve0 := newOut);
            Some((next, V2SwapResult(amountIn, amountOut, newIn, newOut,
                                     PriceImpactBps(amountIn, amountOut, reserveIn, reserveOut))))
  }

  lemma QuotientFits(n: U256, d: U256)
    requires d > 0
    ensures 0 <= n / d <= n
  {
    FloorAdjoint(n / d, n, d);
    if n / d > n { ProductMonotone(n + 1, n / d, d); ProductMonotone(1, d, n + 1); }
  }

  // ---------------------------------------------------------------- when nothing clips

  /** The fee-weighted input the pair charges for, before any clipping. */
  function Weighted(amountIn: nat, feeBps: nat): nat
    requires feeBps < BPS
  {
    NonNegativeProduct(amountIn, BPS - feeBps);
    amountIn * (BPS - feeBps)
  }

  /** The unclipped denominator. */
  function Depth(amountIn: nat, reserveIn: nat, feeBps: nat): nat
    requires feeBps < BPS
  {
    hide Weighted;
    reserveIn * BPS + Weighted(amountIn, feeBps)
  }

  /** The unclipped numerator. */
  function Value(amountIn: nat, reserveOut: nat, feeBps: nat): nat
    requires feeBps < BPS
  {
    hide Weighted;
    NonNegativeProduct(Weighted(amountIn, feeBps), reserveOut);
    Weighted(amountIn, feeBps) * reserveOut
  }

  /** Output `o` is at most what the unclipped formula pays: the rounding-free constant-product bound. */
  predicate Affordable(o: nat, amountIn: nat, reserveIn: nat, reserveOut: nat, feeBps: nat)
    requires feeBps < BPS
  {
    hide Depth, Value;
    o * Depth(amountIn, reserveIn, feeBps) <= Value(amountIn, reserveOut, feeBps)
  }

  lemma QuoteNeeds(a: U256, x: U256, y: U256, fee: U64)
    ensures AmountOutExactIn(a, x, y, fee).Some? <==> a > 0 && x > 0 && y > 0 && fee < BPS
  {
    if a > 0 && x > 0 && y > 0 && fee < BPS {
      ProductMonotone(1, BPS, x);
    }
  }

  /** What the saturating quote computes, in terms of the unclipped numerator and denominator. */
  lemma QuoteClips(a: U256, x: U256, y: U256, fee: U64)
    requires a > 0 && x > 0 && y > 0 && fee < BPS
    ensures Depth(a, x, fee) > 0
    ensures AmountOutExactIn(a, x, y, fee)
            == Some(Min(Value(a, y, fee), MAX_U256) / Min(Depth(a, x, fee), MAX_U256))
  {
    hide SatMul;
    var w := Weighted(a, fee);
    ProductMonotone(1, BPS - fee, a);
    ProductMonotone(1, y, w);
    ProductMonotone(1, y, MAX_U256);
    SatMulClips(a, BPS - fee);
    SatMulClips(Min(w, MAX_U256), y);
    SatMulClips(x, BPS);
  }

  /** With an unclipped denominator the quote stays affordable; it is the exact floor when the numerator
      does not clip either. */
  lemma QuoteFloor(a: U256, x: U256, y: U256, fee: U64)
    requires a > 0 && x > 0 && y > 0 && fee < BPS
    requires Depth(a, x, fee) <= MAX_U256
    ensures Depth(a, x, fee) > 0 && AmountOutExactIn(a, x, y, fee).Some?
    ensures Affordable(AmountOutExactIn(a, x, y, fee).value, a, x, y, fee)
    ensures Value(a, y, fee) <= MAX_U256 ==>
              AmountOutExactIn(a, x, y, fee).value == Value(a, y, fee) / Depth(a, x, fee)
  {
    hide AmountOutExactIn, Depth, Value;
    QuoteClips(a, x, y, fee);
    FloorAdjoint(AmountOutExactIn(a, x, y, fee).value, Min(Value(a, y, fee), MAX_U256), Depth(a, x, fee));
  }

  /** The converse: anything affordable is quoted, when the numerator does not clip. */
  lemma AffordableIsQuoted(o: nat, a: nat, x: U256, y: U256, fee: U64)
    requires a > 0 && x > 0 && y > 0 && fee < BPS && o > 0
    requires Affordable(o, a, x, y, fee) && Value(a, y, fee) <= MAX_U256
    ensures a <= MAX_U256 && Depth(a, x, fee) <= MAX_U256
    ensures AmountOutExactIn(a, x, y, fee).Some? && o <= AmountOutExactIn(a, x, y, fee).value
  {
    hide AmountOutExactIn, Depth, Value;
    ValueCoversInput(a, y, fee);
    var d := Depth(a, x, fee);
    ProductMonotone(1, o, d);
    QuoteClips(a, x, y, fee);
    FloorAdjoint(o, Value(a, y, fee), d);
  }

  lemma ValueCoversInput(a: nat, y: nat, fee: nat)
    requires fee < BPS && y > 0
    ensures a <= Weighted(a, fee) <= Value(a, y, fee)
  {
    ProductMonotone(1, BPS - fee, a);
    ProductMonotone(1, y, Weighted(a, fee));
  }

  lemma ValueMonotone(a: nat, b: nat, y: nat, z: nat, fee: nat)
    requires fee < BPS && a <= b && y <= z
    ensures Weighted(a, fee) <= Weighted(b, fee)
    ensures Value(a, y, fee) <= Value(b, z, fee)
    ensures a < b && 0 < z ==> Value(a, y, fee) < Value(b, z, fee)
  {
    ProductMonotone(a, b, BPS - fee);
    WeightedStrict(a, b, fee);
    ProductsGrow(Weighted(a, fee), Weighted(b, fee), y, z);
  }

  lemma WeightedStrict(a: nat, b: nat, fee: nat)
    requires fee < BPS
    ensures a < b ==> Weighted(a, fee) < Weighted(b, fee)
  {
    if a < b { ProductStrict(a, b, BPS - fee); }
  }

  /** For every 256-bit input, clipped or not, a quote never exceeds the output reserve, and it takes the
      whole reserve only in the one corner where the reserve is a single unit and the fee-weighted
      input has itself reached the top of the word. */
  lemma QuoteNeverExceedsReserve(a: U256, x: U256, y: U256, fee: U64)
    ensures var q := AmountOutExactIn(a, x, y, fee);
            q.Some? ==>
              && q.value <= y
              && (q.value == y <==> y == 1 && a * (BPS - fee) >= MAX_U256)
  {
    hide AmountOutExactIn;
    QuoteNeeds(a, x, y, fee);
    if a > 0 && x > 0 && y > 0 && fee < BPS {
      QuoteClips(a, x, y, fee);
      var v, d := Value(a, y, fee), Depth(a, x, fee);
      var o := Min(v, MAX_U256) / Min(d, MAX_U256);
      assert Weighted(a, fee) == a * (BPS - fee);
      if d <= MAX_U256 {
        FloorAdjoint(o, Min(v, MAX_U256), d);
        ProductStrict(Weighted(a, fee), d, y);
        if o >= y { ProductMonotone(y, o, d); }
      } else if y > 1 {
        assert o <= 1;
      } else if v >= MAX_U256 {
        assert o == 1;
      } else {
        assert o == 0;
      }
    }
  }

  /** Nothing clips below 112 bits, the width of Uniswap's own reserves. */
  lemma FitsBelow112Bits(a: nat, x: nat, y: nat, fee: nat)
    requires a < TWO_112 && x < TWO_112 && y < TWO_112 && fee < BPS
    ensures Value(a, y, fee) <= MAX_U256 && Depth(a, x, fee) <= MAX_U256
  {
    ProductMonotone(BPS - fee, BPS, a);
    assert Weighted(a, fee) <= TWO_112 * BPS;
    ProductMonotone(Weighted(a, fee), TWO_112 * BPS, y);
    assert TWO_112 * BPS * TWO_112 <= MAX_U256;
    ProductMonotone(y, TWO_112, TWO_112 * BPS);
  }

  /** There the quote is the exact floor of the rational formula. */
  lemma QuoteIsExactBelow112Bits(a: U256, x: U256, y: U256, fee: U64)
    requires 0 < a < TWO_112 && 0 < x < TWO_112 && 0 < y < TWO_112 && fee < BPS
    ensures Value(a, y, fee) <= MAX_U256 && Depth(a, x, fee) <= MAX_U256
    ensures AmountOutExactIn(a, x, y, fee)
            == Some((a * (BPS - fee) * y) / (x * BPS + a * (BPS - fee)))
  {
    hide AmountOutExactIn, Value, Depth;
    FitsBelow112Bits(a, x, y, fee);
    QuoteClips(a, x, y, fee);
    ValueAndDepth(a, x, y, fee);
  }

  lemma ValueAndDepth(a: nat, x: nat, y: nat, fee: nat)
    requires fee < BPS
    ensures Value(a, y, fee) == a * (BPS - fee) * y && Depth(a, x, fee) == x * BPS + a * (BPS - fee)
  {}

  /** What affords some output affords any smaller one. */
  lemma AffordsLess(o: nat, p: nat, a: nat, x: nat, y: nat, fee: nat)
    requires fee < BPS && p <= o && Affordable(o, a, x, y, fee)
    ensures Affordable(p, a, x, y, fee)
  {
    hide Depth, Value;
    ProductMonotone(p, o, Depth(a, x, fee));
  }

  /** More input affords at least the same output. */
  lemma AffordableMonotone(o: nat, a: nat, b: nat, x: nat, y: nat, fee: nat)
    requires fee < BPS && a <= b && o <= y && Affordable(o, a, x, y, fee)
    ensures Affordable(o, b, x, y, fee)
  {
    var wa, wb := Weighted(a, fee), Weighted(b, fee);
    ProductMonotone(a, b, BPS - fee);
    ProductMonotone(o, y, wb - wa);
    assert o * Depth(b, x, fee) == o * Depth(a, x, fee) + o * (wb - wa);
    assert wb * y == wa * y + y * (wb - wa);
  }

  /** Short of the top of the word, the quote is the largest output the constant-product bound affords. */
  lemma QuoteIsLargestAffordable(o: nat, a: U256, x: U256, y: U256, fee: U64)
    requires a > 0 && x > 0 && y > 0 && fee < BPS && Value(a, y, fee) < MAX_U256
    ensures AmountOutExactIn(a, x, y, fee).Some?
    ensures o <= AmountOutExactIn(a, x, y, fee).value <==> Affordable(o, a, x, y, fee)
  {
    hide AmountOutExactIn, Value, Depth;
    if o > 0 && Affordable(o, a, x, y, fee) {
      AffordableIsQuoted(o, a, x, y, fee);
    }
    hide Affordable;
    if Depth(a, x, fee) <= MAX_U256 {
      QuoteFloor(a, x, y, fee);
      if o <= AmountOutExactIn(a, x, y, fee).value {
        AffordsLess(AmountOutExactIn(a, x, y, fee).value, o, a, x, y, fee);
      }
    } else {
      ClippedQuote(a, x, y, fee);
      AffordsNothing(a, x, y, fee);
    }
  }

  lemma AffordsNothing(a: nat, x: nat, y: nat, fee: nat)
    requires fee < BPS
    ensures Affordable(0, a, x, y, fee)
  {
    hide Depth, Value;
  }

  /** Putting in more never gets less out, as long as the larger input's numerator fits the word. */
  lemma QuoteMonotone(a: U256, b: U256, x: U256, y: U256, fee: U64)
    requires 0 < a <= b && x > 0 && y > 0 && fee < BPS && Value(b, y, fee) <= MAX_U256
    ensures AmountOutExactIn(a, x, y, fee).Some? && AmountOutExactIn(b, x, y, fee).Some?
    ensures AmountOutExactIn(a, x, y, fee).value <= AmountOutExactIn(b, x, y, fee).value
  {
    hide AmountOutExactIn, Value, Weighted, Affordable, Depth;
    QuoteNeeds(a, x, y, fee);
    QuoteNeeds(b, x, y, fee);
    ValueMonotone(a, b, y, y, fee);
    QuoteNeverExceedsReserve(a, x, y, fee);
    var oa := AmountOutExactIn(a, x, y, fee).value;
    if Depth(a, x, fee) <= MAX_U256 {
      QuoteFloor(a, x, y, fee);
      AffordableMonotone(oa, a, b, x, y, fee);
      if oa > 0 { AffordableIsQuoted(oa, b, x, y, fee); }
    } else {
      DepthMonotone(a, b, x, fee);
      ClippedQuote(a, x, y, fee);
      ClippedQuote(b, x, y, fee);
    }
  }

  lemma DepthMonotone(a: nat, b: nat, x: nat, fee: nat)
    requires fee < BPS && a <= b
    ensures Depth(a, x, fee) <= Depth(b, x, fee)
  {
    ProductMonotone(a, b, BPS - fee);
  }

  /** There monotonicity turns over: once the smaller input's numerator has reached the top of the word, putting
      in more never gets more out. */
  lemma QuoteTurnsOver(a: U256, b: U256, x: U256, y: U256, fee: U64)
    requires 0 < a <= b && x > 0 && y > 0 && fee < BPS && Value(a, y, fee) >= MAX_U256
    ensures AmountOutExactIn(a, x, y, fee).Some? && AmountOutExactIn(b, x, y, fee).Some?
    ensures AmountOutExactIn(b, x, y, fee).value <= AmountOutExactIn(a, x, y, fee).value
  {
    hide AmountOutExactIn, Value, Depth;
    QuoteClips(a, x, y, fee);
    QuoteClips(b, x, y, fee);
    ValueMonotone(a, b, y, y, fee);
    DepthMonotone(a, b, x, fee);
    FloorAntitone(MAX_U256, Min(Depth(a, x, fee), MAX_U256), Min(Depth(b, x, fee), MAX_U256));
  }

  /** Past the top of the word, the quote is the largest output whose product with the denominator fits the word. */
  lemma QuoteIsLargestOnceClipped(o: nat, a: U256, x: U256, y: U256, fee: U64)
    requires a > 0 && x > 0 && y > 0 && fee < BPS && Value(a, y, fee) >= MAX_U256
    ensures AmountOutExactIn(a, x, y, fee).Some?
    ensures o <= AmountOutExactIn(a, x, y, fee).value <==> o * Min(Depth(a, x, fee), MAX_U256) <= MAX_U256
  {
    hide AmountOutExactIn, Value, Depth;
    QuoteClips(a, x, y, fee);
    FloorAdjoint(o, MAX_U256, Min(Depth(a, x, fee), MAX_U256));
  }

  /** So across the top of the word a larger input is quoted at least as much exactly when the smaller one's quote,
      times the larger one's denominator, fits the word. */
  lemma QuoteAcrossTheTop(a: U256, b: U256, x: U256, y: U256, fee: U64)
    requires 0 < a <= b && x > 0 && y > 0 && fee < BPS && Value(b, y, fee) >= MAX_U256
    ensures AmountOutExactIn(a, x, y, fee).Some? && AmountOutExactIn(b, x, y, fee).Some?
    ensures AmountOutExactIn(a, x, y, fee).value <= AmountOutExactIn(b, x, y, fee).value
            <==> AmountOutExactIn(a, x, y, fee).value * Min(Depth(b, x, fee), MAX_U256) <= MAX_U256
  {
    hide AmountOutExactIn, Value, Depth;
    QuoteNeeds(a, x, y, fee);
    QuoteIsLargestOnceClipped(AmountOutExactIn(a, x, y, fee).value, b, x, y, fee);
  }

  // ---------------------------------------------------------------- one swap

  /** A successful swap leaves at least one unit of the output token, whatever clips, moves the two
      reserves and nothing else, and reports exactly the reserves it wrote. */
  lemma SwapEffect(p: V2PoolState, tin: Address, tout: Address, a: U256)
    requires ApplySwapExactIn(p, tin, tout, a).Some?
    ensures ReservesFor(p, tin, tout).Some?
    ensures var (x, y) := ReservesFor(p, tin, tout).value;
            var (next, r) := ApplySwapExactIn(p, tin, tout, a).value;
            && ReservesFor(next, tin, tout) == Some((r.newReserveIn, r.newReserveOut))
            && AmountOutExactIn(a, x, y, p.feeBps) == Some(r.amountOut)
            && r.amountIn == a > 0 && x > 0 && p.feeBps < BPS
            && 1 <= r.amountOut && 1 <= r.newReserveOut
            && r.newReserveOut + r.amountOut == y
            && r.newReserveIn == Min(x + a, MAX_U256)
            && (next.pair, next.token0, next.token1, next.feeBps) == (p.pair, p.token0, p.token1, p.feeBps)
  {
    hide AmountOutExactIn, PriceImpactBps;
    var (x, y) := ReservesFor(p, tin, tout).value;
    QuoteNeeds(a, x, y, p.feeBps);
  }

  lemma ReservesProduct(p: V2PoolState, tin: Address, tout: Address)
    requires ReservesFor(p, tin, tout).Some?
    ensures var (x, y) := ReservesFor(p, tin, tout).value; x * y == p.reserve0 * p.reserve1
  {}

  /** The step inequality behind the growing product: an affordable output. */
  lemma ProductStep(a: nat, x: nat, y: nat, fee: nat, o: nat)
    requires fee < BPS && o <= y && Affordable(o, a, x, y, fee)
    ensures (x + a) * (y - o) >= x * y
  {
    hide Weighted;
    WeightedIs(a, fee);
    NonNegativeProduct(a, fee);
    Distributes(a, BPS - fee, fee);
    StepCore(x * BPS, Weighted(a, fee), a * fee, y, o);
    Distributes(BPS, x, a);
    assert o * (x + a) * BPS == o * (x * BPS + a * BPS);
    assert y * (a * BPS) == a * y * BPS;
    Distributes(y - o, x, a);
    Distributes(x + a, y - o, o);
  }

  /** The fee, charged on the whole output reserve, covers the fee on the output paid. */
  lemma StepCore(xb: nat, w: nat, f: nat, y: nat, o: nat)
    requires o <= y && o * (xb + w) <= w * y
    ensures o * (xb + w + f) <= y * (w + f)
  {
    ProductMonotone(o, y, f);
    Distributes(o, xb + w, f);
    Distributes(y, w, f);
  }

  /** When the denominator clips, the quote is at most one unit. */
  lemma ClippedQuote(a: U256, x: U256, y: U256, fee: U64)
    requires a > 0 && x > 0 && y > 0 && fee < BPS && Depth(a, x, fee) > MAX_U256
    ensures AmountOutExactIn(a, x, y, fee) == Some(if Value(a, y, fee) >= MAX_U256 then 1 else 0)
  {
    hide AmountOutExactIn, Value, Depth;
    QuoteClips(a, x, y, fee);
  }

  lemma DepthCoversReserve(a: nat, x: nat, fee: nat)
    requires fee < BPS
    ensures x + a <= Depth(a, x, fee)
  {
    ProductMonotone(1, BPS - fee, a);
  }

  lemma OneUnitOut(x: int, c: int, y: int)
    ensures (x + c) * (y - 1) < x * y <==> c * (y - 1) < x
  {
    assert (x + c) * (y - 1) == x * y + c * (y - 1) - x;
  }

  /** A successful swap lowers the product of the reserves if and only if the denominator clipped and
      the input actually credited is too small to pay for the one unit that then comes out. */
  lemma ProductFallsExactlyWhen(p: V2PoolState, tin: Address, tout: Address, a: U256)
    requires ApplySwapExactIn(p, tin, tout, a).Some?
    ensures var (x, y) := ReservesFor(p, tin, tout).value;
            var next := ApplySwapExactIn(p, tin, tout, a).value.0;
            next.reserve0 * next.reserve1 < p.reserve0 * p.reserve1
            <==> Depth(a, x, p.feeBps) > MAX_U256 && Min(a, MAX_U256 - x) * (y - 1) < x
  {
    hide ApplySwapExactIn, AmountOutExactIn, Value, Depth, Affordable;
    SwapEffect(p, tin, tout, a);
    var (x, y) := ReservesFor(p, tin, tout).value;
    var (next, r) := ApplySwapExactIn(p, tin, tout, a).value;
    ReservesProduct(p, tin, tout);
    ReservesProduct(next, tin, tout);
    hide ReservesFor;
    var fee, o := p.feeBps, r.amountOut;
    if Depth(a, x, fee) <= MAX_U256 {
      QuoteFloor(a, x, y, fee);
      DepthCoversReserve(a, x, fee);
      ProductStep(a, x, y, fee, o);
    } else {
      ClippedQuote(a, x, y, fee);
      assert o == 1;
      OneUnitOut(x, r.newReserveIn - x, y);
    }
  }

  /** The clipped corner is real: this swap, with no reserve overflow, loses value to the trader. */
  lemma ProductCanFallWhenClipped()
    ensures var p := V2PoolState(0, 1, 2, MAX_U256 / 2, 2, 0);
            var s := ApplySwapExactIn(p, 1, 2, MAX_U256 / 4);
            && s.Some?
            && s.value.0.reserve0 == MAX_U256 / 2 + MAX_U256 / 4
            && s.value.0.reserve0 * s.value.0.reserve1 < p.reserve0 * p.reserve1
  {
    hide AmountOutExactIn, PriceImpactBps;
    ClippedQuote(MAX_U256 / 4, MAX_U256 / 2, 2, 0);
  }

  // ---------------------------------------------------------------- runs of swaps, either direction

  datatype Trade = Trade(tokenIn: Address, tokenOut: Address, amountIn: U256)

  function RunTrades(p: V2PoolState, ts: seq<Trade>): Option<V2PoolState>
    decreases |ts|
  {
    hide ApplySwapExactIn;
    if ts == [] then Some(p)
    else
      match ApplySwapExactIn(p, ts[0].tokenIn, ts[0].tokenOut, ts[0].amountIn)
      case None => None
      case Some((next, _)) => RunTrades(next, ts[1..])
  }

  /** No step is one that lowers the product: its denominator fits the word, or the input credited pays for the
      one unit that comes out. */
  predicate KeepsProduct(p: V2PoolState, ts: seq<Trade>)
    decreases |ts|
  {
    hide ApplySwapExactIn, AmountOutExactIn, Depth;
    ts == [] ||
    match ApplySwapExactIn(p, ts[0].tokenIn, ts[0].tokenOut, ts[0].amountIn)
    case None => true
    case Some((next, _)) =>
      SwapEffect(p, ts[0].tokenIn, ts[0].tokenOut, ts[0].amountIn);
      var (x, y) := ReservesFor(p, ts[0].tokenIn, ts[0].tokenOut).value;
      (Depth(ts[0].amountIn, x, p.feeBps) <= MAX_U256 || Min(ts[0].amountIn, MAX_U256 - x) * (y - 1) >= x)
      && KeepsProduct(next, ts[1..])
  }

  predicate Live(p: V2PoolState) { p.reserve0 > 0 && p.reserve1 > 0 }

  /** Over any run of successful swaps in either direction, both reserves stay positive and their product
      never falls. */
  lemma {:induction false} ProductNeverFalls(p: V2PoolState, ts: seq<Trade>)
    requires Live(p) && KeepsProduct(p, ts) && RunTrades(p, ts).Some?
    ensures var q := RunTrades(p, ts).value;
            && Live(q)
            && q.reserve0 * q.reserve1 >= p.reserve0 * p.reserve1
            && (q.pair, q.token0, q.token1, q.feeBps) == (p.pair, p.token0, p.token1, p.feeBps)
    decreases |ts|
  {
    hide ApplySwapExactIn, AmountOutExactIn, Depth;
    if ts != [] {
      var t := ts[0];
      SwapEffect(p, t.tokenIn, t.tokenOut, t.amountIn);
      ProductFallsExactlyWhen(p, t.tokenIn, t.tokenOut, t.amountIn);
      ProductNeverFalls(ApplySwapExactIn(p, t.tokenIn, t.tokenOut, t.amountIn).value.0, ts[1..]);
    }
  }

  /** So nobody drains a pool: a run that brings one reserve back to at most where it started leaves the
      other reserve no smaller. */
  lemma RunCannotDrain(p: V2PoolState, ts: seq<Trade>)
    requires Live(p) && KeepsProduct(p, ts) && RunTrades(p, ts).Some?
    ensures var q := RunTrades(p, ts).value;
            && (q.reserve0 <= p.reserve0 ==> q.reserve1 >= p.reserve1)
            && (q.reserve1 <= p.reserve1 ==> q.reserve0 >= p.reserve0)
  {
    ProductNeverFalls(p, ts);
    hide RunTrades, KeepsProduct;
    var q := RunTrades(p, ts).value;
    EitherFactor(q.reserve0, q.reserve1, p.reserve0, p.reserve1);
  }

  lemma EitherFactor(a: nat, b: nat, c: nat, d: nat)
    requires c > 0 && d > 0 && c * d <= a * b
    ensures (a <= c ==> d <= b) && (b <= d ==> c <= a)
  {
    if a <= c { OtherFactor(a, b, c, d); }
    if b <= d {
      assert d * c <= b * a;
      OtherFactor(b, a, d, c);
    }
  }

  /** With an unclipped denominator, output times denominator fits the word. */
  lemma QuoteTimesDepth(a: U256, x: U256, y: U256, fee: U64)
    requires a > 0 && x > 0 && y > 0 && fee < BPS && Depth(a, x, fee) <= MAX_U256
    ensures AmountOutExactIn(a, x, y, fee).Some?
    ensures AmountOutExactIn(a, x, y, fee).value * Depth(a, x, fee) <= MAX_U256
  {
    hide AmountOutExactIn, Value, Depth;
    QuoteClips(a, x, y, fee);
    FloorAdjoint(AmountOutExactIn(a, x, y, fee).value, Min(Value(a, y, fee), MAX_U256), Depth(a, x, fee));
  }

  /** A first leg that clips pays one unit for an input worth the whole word, so the way back pays at most that. */
  lemma BackFromClipped(a: nat, y: nat, fee: nat, z: nat)
    requires fee < BPS && y > 0
    requires Value(a, y, fee) >= MAX_U256 && z * Depth(1, y - 1, fee) <= MAX_U256
    ensures z <= a
  {
    var k := BPS - fee;
    ValueAndDepth(a, y, y, fee);
    ValueAndDepth(1, y - 1, y, fee);
    hide Value, Depth;
    assert a * k * y == a * (k * y);
    ProductMonotone(k, BPS, y - 1);
    Distributes(k, y - 1, 1);
    assert k * y <= (y - 1) * BPS + k;
    NonNegativeProduct(k, y);
    ProductMonotone(k * y, (y - 1) * BPS + k, z);
    if z > a {
      ProductMonotone(1, y, k);
      ProductStrict(a, z, k * y);
    }
  }

  /** Going there and back with the whole proceeds never returns more than was put in, whatever clips. */
  lemma ThereAndBack(p: V2PoolState, tin: Address, tout: Address, a: U256)
    requires tin != tout && ApplySwapExactIn(p, tin, tout, a).Some?
    requires var (mid, r) := ApplySwapExactIn(p, tin, tout, a).value;
             ApplySwapExactIn(mid, tout, tin, r.amountOut).Some?
    ensures var (mid, r) := ApplySwapExactIn(p, tin, tout, a).value;
            ApplySwapExactIn(mid, tout, tin, r.amountOut).value.1.amountOut <= a
  {
    hide ApplySwapExactIn, AmountOutExactIn, Value, Depth;
    var (mid, r) := ApplySwapExactIn(p, tin, tout, a).value;
    SwapEffect(p, tin, tout, a);
    SwapEffect(mid, tout, tin, r.amountOut);
    var (x, y) := ReservesFor(p, tin, tout).value;
    var z := ApplySwapExactIn(mid, tout, tin, r.amountOut).value.1.amountOut;
    if Depth(r.amountOut, y - r.amountOut, p.feeBps) > MAX_U256 {
      ClippedQuote(r.amountOut, y - r.amountOut, r.newReserveIn, p.feeBps);
    } else if Depth(a, x, p.feeBps) > MAX_U256 {
      ClippedQuote(a, x, y, p.feeBps);
      QuoteTimesDepth(1, y - 1, r.newReserveIn, p.feeBps);
      BackFromClipped(a, y, p.feeBps, z);
    } else {
      ThereAndBackUnclipped(p, tin, tout, a, x, y);
    }
  }

  /** When the pool affords both legs, the second pays at most what the first took. */
  lemma BackAtMost(a: nat, x: nat, y: nat, fee: nat, o: nat, z: nat)
    requires fee < BPS && o <= y && z <= x + a && y > 0
    requires Affordable(o, a, x, y, fee) && Affordable(z, o, y - o, x + a, fee)
    ensures z <= a
  {
    hide Affordable;
    ProductStep(a, x, y, fee, o);
    ProductStep(o, y - o, x + a, fee, z);
    assert y * (x + a - z) >= (y - o) * (x + a) >= x * y;
    OtherFactor(y, x + a - z, y, x);
  }

  lemma ThereAndBackUnclipped(p: V2PoolState, tin: Address, tout: Address, a: U256, x: U256, y: U256)
    requires tin != tout && ApplySwapExactIn(p, tin, tout, a).Some? && ReservesFor(p, tin, tout) == Some((x, y))
    requires p.feeBps < BPS && Depth(a, x, p.feeBps) <= MAX_U256
    requires var (mid, r) := ApplySwapExactIn(p, tin, tout, a).value;
             && r.amountOut <= y && Depth(r.amountOut, y - r.amountOut, p.feeBps) <= MAX_U256
             && ApplySwapExactIn(mid, tout, tin, r.amountOut).Some?
    ensures var (mid, r) := ApplySwapExactIn(p, tin, tout, a).value;
            ApplySwapExactIn(mid, tout, tin, r.amountOut).value.1.amountOut <= a
  {
    hide ApplySwapExactIn, AmountOutExactIn, Depth, Value, Affordable;
    var (mid, r) := ApplySwapExactIn(p, tin, tout, a).value;
    var back := ApplySwapExactIn(mid, tout, tin, r.amountOut).value.1;
    SwapEffect(p, tin, tout, a);
    SwapEffect(mid, tout, tin, r.amountOut);
    var o, z := r.amountOut, back.amountOut;
    DepthCoversReserve(a, x, p.feeBps);
    QuoteFloor(a, x, y, p.feeBps);
    QuoteFloor(o, y - o, x + a, p.feeBps);
    BackAtMost(a, x, y, p.feeBps, o, z);
  }

  // ---------------------------------------------------------------- splitting an input

  /** Consecutive same-direction swaps, and the total they paid out. */
  function RunSplit(p: V2PoolState, tin: Address, tout: Address, parts: seq<U256>): Option<(V2PoolState, nat)>
    decreases |parts|
  {
    hide ApplySwapExactIn;
    if parts == [] then Some((p, 0))
    else
      match ApplySwapExactIn(p, tin, tout, parts[0])
      case None => None
      case Some((next, r)) =>
        match RunSplit(next, tin, tout, parts[1..])
        case None => None
        case Some((end, paid)) => Some((end, r.amountOut + paid))
  }

  function Total(parts: seq<U256>): nat {
    if parts == [] then 0 else parts[0] + Total(parts[1..])
  }

  /** The two-way cut: affording o1 with a1, and the rest with a2 from the pool that leaves, affords the
      sum with a1 + a2 at once. */
  lemma TwoWayCut(a1: nat, a2: nat, x: nat, y: nat, fee: nat, o1: nat, rest: nat)
    requires fee < BPS && o1 <= y
    requires Affordable(o1, a1, x, y, fee) && Affordable(rest, a2, x + a1, y - o1, fee)
    ensures Affordable(o1 + rest, a1 + a2, x, y, fee)
  {
    hide Weighted;
    WeightedAdds(a1, a2, fee);
    ProductMonotone(BPS - fee, BPS, a1);
    WeightedIs(a1, fee);
    Distributes(BPS, x, a1);
    CutCore(x * BPS, Weighted(a1, fee), Weighted(a2, fee), y, o1, rest, (x + a1) * BPS + Weighted(a2, fee));
  }

  lemma WeightedIs(a: nat, fee: nat)
    requires fee < BPS
    ensures Weighted(a, fee) == a * (BPS - fee)
  {}

  lemma WeightedAdds(a: nat, b: nat, fee: nat)
    requires fee < BPS
    ensures Weighted(a + b, fee) == Weighted(a, fee) + Weighted(b, fee)
  {
    Distributes(BPS - fee, a, b);
  }

  lemma CutCore(xb: nat, w1: nat, w2: nat, y: nat, o1: nat, rest: nat, d2: nat)
    requires o1 <= y && xb + w1 + w2 <= d2
    requires o1 * (xb + w1) <= w1 * y && rest * d2 <= w2 * (y - o1)
    ensures (o1 + rest) * (xb + w1 + w2) <= (w1 + w2) * y
  {
    var d := xb + w1 + w2;
    ProductMonotone(d, d2, rest);
    Distributes(o1, xb + w1, w2);
    Distributes(w2, y - o1, o1);
    Distributes(d, o1, rest);
    Distributes(y, w1, w2);
  }

  /** While a swap's numerator fits in the word and it pays at least one unit, it is priced exactly: a
      clipped denominator would have quoted zero. */
  lemma PaidSwapIsExact(a: U256, x: U256, y: U256, fee: U64, o: U256)
    requires a > 0 && x > 0 && y > 0 && fee < BPS && o >= 1
    requires Value(a, y, fee) < MAX_U256
    requires AmountOutExactIn(a, x, y, fee) == Some(o)
    ensures x + a <= Depth(a, x, fee) <= MAX_U256
    ensures Affordable(o, a, x, y, fee)
  {
    hide AmountOutExactIn, Value, Depth, Affordable;
    DepthCoversReserve(a, x, fee);
    if Depth(a, x, fee) > MAX_U256 {
      ClippedQuote(a, x, y, fee);
    } else {
      QuoteFloor(a, x, y, fee);
    }
  }

  /** The induction over the list: the whole input affords everything the parts were paid. */
  lemma {:induction false} SplitIsAffordable(p: V2PoolState, tin: Address, tout: Address, parts: seq<U256>,
                                             x: U256, y: U256)
    requires parts != [] && p.feeBps < BPS && ReservesFor(p, tin, tout) == Some((x, y))
    requires Value(Total(parts), y, p.feeBps) < MAX_U256
    ensures var run := RunSplit(p, tin, tout, parts);
            run.Some? ==> && run.value.1 > 0 && Total(parts) > 0 && x > 0 && y > 0
                          && Affordable(run.value.1, Total(parts), x, y, p.feeBps)
    decreases |parts|
  {
    hide ApplySwapExactIn, AmountOutExactIn, Affordable, Value, Depth, Weighted, ReservesFor;
    if RunSplit(p, tin, tout, parts).None? { return; }
    var fee := p.feeBps;
    SwapEffect(p, tin, tout, parts[0]);
    var (next, r) := ApplySwapExactIn(p, tin, tout, parts[0]).value;
    var a1, o1, rest := parts[0], r.amountOut, parts[1..];
    var a2 := Total(rest);
    ValueMonotone(a1, a1 + a2, y, y, fee);
    PaidSwapIsExact(a1, x, y, fee, o1);
    if rest != [] {
      ValueMonotone(a2, a1 + a2, y - o1, y, fee);
      SplitIsAffordable(next, tin, tout, rest, x + a1, y - o1);
      TwoWayCut(a1, a2, x, y, fee, o1, RunSplit(next, tin, tout, rest).value.1);
    }
  }

  /** Splitting never pays. However an input is cut into consecutive same-direction swaps that all
      succeed, they pay out no more in total than one swap of the whole input, rounding included,
      provided that one swap's numerator does not reach the top of the word. */
  lemma SplittingNeverPays(p: V2PoolState, tin: Address, tout: Address, parts: seq<U256>, x: U256, y: U256)
    requires parts != [] && p.feeBps < BPS && ReservesFor(p, tin, tout) == Some((x, y))
    requires Value(Total(parts), y, p.feeBps) < MAX_U256
    ensures RunSplit(p, tin, tout, parts).Some? ==>
              && 0 < Total(parts) <= MAX_U256
              && var whole := AmountOutExactIn(Total(parts), x, y, p.feeBps);
                 whole.Some? && RunSplit(p, tin, tout, parts).value.1 <= whole.value
  {
    hide AmountOutExactIn, Affordable, Value, ReservesFor, RunSplit;
    SplitIsAffordable(p, tin, tout, parts, x, y);
    if RunSplit(p, tin, tout, parts).Some? {
      AffordableIsQuoted(RunSplit(p, tin, tout, parts).value.1, Total(parts), x, y, p.feeBps);
    }
  }

  /** The other side: once the first part's own numerator reaches the top of the word, any further part pays. */
  lemma SplittingPaysOnceClipped(p: V2PoolState, tin: Address, tout: Address, parts: seq<U256>, x: U256, y: U256)
    requires |parts| >= 2 && p.feeBps < BPS && ReservesFor(p, tin, tout) == Some((x, y))
    requires Value(parts[0], y, p.feeBps) >= MAX_U256 && Total(parts) <= MAX_U256
    ensures RunSplit(p, tin, tout, parts).Some? ==>
              var whole := AmountOutExactIn(Total(parts), x, y, p.feeBps);
              whole.Some? && RunSplit(p, tin, tout, parts).value.1 > whole.value
  {
    hide AmountOutExactIn, Affordable, Value, Depth, ReservesFor, ApplySwapExactIn;
    if RunSplit(p, tin, tout, parts).None? { return; }
    var first, rest := parts[0], parts[1..];
    SwapEffect(p, tin, tout, first);
    var next := ApplySwapExactIn(p, tin, tout, first).value.0;
    assert RunSplit(next, tin, tout, rest).Some?;
    SwapEffect(next, tin, tout, rest[0]);
    QuoteTurnsOver(first, Total(parts), x, y, p.feeBps);
  }

  /** In general a cut pays more than the whole exactly when the whole's numerator reaches the top of the word and
      what the parts were paid, times the whole's denominator, exceeds the word. */
  lemma SplittingPaysExactlyWhen(p: V2PoolState, tin: Address, tout: Address, parts: seq<U256>, x: U256, y: U256)
    requires parts != [] && p.feeBps < BPS && ReservesFor(p, tin, tout) == Some((x, y)) && Total(parts) <= MAX_U256
    ensures RunSplit(p, tin, tout, parts).Some? ==>
              var whole := AmountOutExactIn(Total(parts), x, y, p.feeBps);
              var paid := RunSplit(p, tin, tout, parts).value.1;
              && whole.Some?
              && (paid > whole.value
                  <==> Value(Total(parts), y, p.feeBps) >= MAX_U256
                       && paid * Min(Depth(Total(parts), x, p.feeBps), MAX_U256) > MAX_U256)
  {
    hide AmountOutExactIn, Affordable, Value, Depth, ReservesFor, ApplySwapExactIn;
    if RunSplit(p, tin, tout, parts).None? { return; }
    SwapEffect(p, tin, tout, parts[0]);
    var paid := RunSplit(p, tin, tout, parts).value.1;
    hide RunSplit;
    if Value(Total(parts), y, p.feeBps) < MAX_U256 {
      SplittingNeverPays(p, tin, tout, parts, x, y);
    } else {
      QuoteIsLargestOnceClipped(paid, Total(parts), x, y, p.feeBps);
    }
  }

  const BIG: U256 := 0x1_0000_0000_0000_0000_0000_0000_0000
  const DEEP: U256 := 0x1_0000_0000_0000_0000_0000_0000_0000_0000_0000_0000_0000_0000_0000_0000

  /** The guard is needed: once the whole input's numerator clips, two parts can pay more. */
  lemma SplittingCanPayWhenClipped()
    ensures var p := V2PoolState(0, 1, 2, 1, DEEP, 30);
            && Value(Total([1, BIG]), DEEP, 30) >= MAX_U256
            && RunSplit(p, 1, 2, [1, BIG]).Some?
            && AmountOutExactIn(1 + BIG, 1, DEEP, 30).Some?
            && RunSplit(p, 1, 2, [1, BIG]).value.1 > AmountOutExactIn(1 + BIG, 1, DEEP, 30).value
  {
    hide AmountOutExactIn, PriceImpactBps;
    var p := V2PoolState(0, 1, 2, 1, DEEP, 30);
    var parts: seq<U256> := [1, BIG];
    assert parts[1..] == [BIG] && parts[1..][1..] == [];
    QuoteClips(1, 1, DEEP, 30);
    var o1: U256 := (9970 * DEEP) / (10_000 + 9970);
    assert ApplySwapExactIn(p, 1, 2, 1).Some?;
    var next := ApplySwapExactIn(p, 1, 2, 1).value.0;
    assert next.reserve0 == 2 && next.reserve1 == DEEP - o1;
    QuoteClips(BIG, 2, DEEP - o1, 30);
    var o2: U256 := MAX_U256 / (20_000 + 9970 * BIG);
    assert AmountOutExactIn(BIG, 2, DEEP - o1, 30) == Some(o2);
    assert ApplySwapExactIn(next, 1, 2, BIG).Some?;
    assert RunSplit(next, 1, 2, parts[1..]).Some?;
    QuoteClips(1 + BIG, 1, DEEP, 30);
  }

  // The top of the word divided by 40000.
  const SMALL: U256 := 0x1_a36e_2eb1_c432_ca57_a786_c226_809d_4951_82a9_930b_e0de_d288_ce70_3afb_7e90

  /** Between the two guards, with the whole input's numerator at the top of the word and the first part's below
      it, both happen: here the same cut pays nothing extra. */
  lemma SplittingNeedNotPay()
    ensures var p := V2PoolState(0, 1, 2, 1, 4, 0);
            && Value(Total([1, SMALL]), 4, 0) >= MAX_U256 > Value(1, 4, 0)
            && RunSplit(p, 1, 2, [1, SMALL]).Some?
            && AmountOutExactIn(1 + SMALL, 1, 4, 0).Some?
            && RunSplit(p, 1, 2, [1, SMALL]).value.1 == AmountOutExactIn(1 + SMALL, 1, 4, 0).value == 3
  {
    hide AmountOutExactIn, PriceImpactBps, Value;
    SmallQuotes();
    var p := V2PoolState(0, 1, 2, 1, 4, 0);
    var parts: seq<U256> := [1, SMALL];
    assert parts[1..] == [SMALL] && parts[1..][1..] == [];
    assert Total(parts) == 1 + Total([SMALL]) == 1 + SMALL + Total([]);
    var next := ApplySwapExactIn(p, 1, 2, 1).value.0;
    assert next.reserve0 == 2 && next.reserve1 == 2;
    assert ApplySwapExactIn(next, 1, 2, SMALL).Some?;
    assert RunSplit(next, 1, 2, parts[1..]).Some?;
  }

  lemma SmallQuotes()
    ensures Value(1 + SMALL, 4, 0) >= MAX_U256 > Value(1, 4, 0)
    ensures AmountOutExactIn(1, 1, 4, 0) == Some(2)
    ensures AmountOutExactIn(SMALL, 2, 2, 0) == Some(1)
    ensures AmountOutExactIn(1 + SMALL, 1, 4, 0) == Some(3)
  {
    hide AmountOutExactIn, Value, Depth;
    QuoteClips(1, 1, 4, 0);
    QuoteClips(SMALL, 2, 2, 0);
    QuoteClips(1 + SMALL, 1, 4, 0);
    ValueAndDepth(1, 1, 4, 0);
    ValueAndDepth(SMALL, 2, 2, 0);
    ValueAndDepth(1 + SMALL, 1, 4, 0);
  }
}
