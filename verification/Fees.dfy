/** Gas overpayment and the EIP-1559 fee fields of the signed transaction. */
module Fees {
  import opened Arithmetic
  import opened Options

  datatype Overpay = Overpay(baseExtra: U64, missExtra: U64, revertExtra: U64, submitFailureExtra: U64, maxExtra: U64,
                             toxicityThreshold: real, priorityThreshold: real, cap: Option<U256>)

  datatype Relay = Relay(acceptedNotIncludedRate: real, revertRate: real, acceptRate: real)

  function SatAdd64(a: U64, b: U64): U64 { if a + b <= MAX_U64 then a + b else MAX_U64 }

  /** The surcharges that apply, added without any width limit. */
  function Surcharge(o: Overpay, relay: Option<Relay>, priority: real, toxicity: real): nat {
    o.baseExtra
    + (if relay.Some? && relay.value.acceptedNotIncludedRate >= 0.10 then o.missExtra else 0)
    + (if relay.Some? && relay.value.revertRate >= 0.05 then o.revertExtra else 0)
    + (if relay.Some? && relay.value.acceptRate <= 0.60 then o.submitFailureExtra else 0)
    + (if toxicity >= o.toxicityThreshold then o.missExtra / 2
       else if priority >= o.priorityThreshold then o.baseExtra / 2 else 0)
  }

  function Capped(price: U256, cap: Option<U256>): U256 {
    if cap.Some? && cap.value < price then cap.value else price
  }

  /** Scaling by 10000 + extra basis points: the multiplier is a 64-bit sum, the product saturates. */
  function Scaled(base: U256, extra: U64): U256 {
    var product := SatMul(base, (BPS + extra) % (MAX_U64 + 1));
    FloorAdjoint(product / BPS, product, BPS);
    product / BPS
  }

  /** One conditional addition of the accumulator, and the unbounded sum it stands for. */
  lemma AddsUp(extra: U64, sum: nat, more: U64)
    requires extra == Min(sum, MAX_U64)
    ensures SatAdd64(extra, more) == Min(sum + more, MAX_U64)
  {}

  /** The accumulation saturates at every addition, which the final minimum makes invisible. */
  method ExtraBps(o: Overpay, relay: Option<Relay>, priority: real, toxicity: real) returns (extra: U64)
    ensures extra == Min(Surcharge(o, relay, priority, toxicity), o.maxExtra)
  {
    hide SatAdd64;
    extra := o.baseExtra;
    ghost var sum: nat := o.baseExtra;
    if relay.Some? {
      if relay.value.acceptedNotIncludedRate >= 0.10 {
        AddsUp(extra, sum, o.missExtra);
        extra, sum := SatAdd64(extra, o.missExtra), sum + o.missExtra;
      }
      assert extra == Min(sum, MAX_U64);
      if relay.value.revertRate >= 0.05 {
        AddsUp(extra, sum, o.revertExtra);
        extra, sum := SatAdd64(extra, o.revertExtra), sum + o.revertExtra;
      }
      assert extra == Min(sum, MAX_U64);
      if relay.value.acceptRate <= 0.60 {
        AddsUp(extra, sum, o.submitFailureExtra);
        extra, sum := SatAdd64(extra, o.submitFailureExtra), sum + o.submitFailureExtra;
      }
    }
    assert extra == Min(sum, MAX_U64);
    if toxicity >= o.toxicityThreshold {
      AddsUp(extra, sum, o.missExtra / 2);
      extra, sum := SatAdd64(extra, o.missExtra / 2), sum + o.missExtra / 2;
    } else if priority >= o.priorityThreshold {
      AddsUp(extra, sum, o.baseExtra / 2);
      extra, sum := SatAdd64(extra, o.baseExtra / 2), sum + o.baseExtra / 2;
    }
    assert extra == Min(sum, MAX_U64);
    assert sum == Surcharge(o, relay, priority, toxicity);
    extra := Min(extra, o.maxExtra);
  }

  method DynamicGasPrice(base: U256, o: Overpay, relay: Option<Relay>, priority: real, toxicity: real)
    returns (price: U256)
    ensures price == Capped(Scaled(base, Min(Surcharge(o, relay, priority, toxicity), o.maxExtra)), o.cap)
  {
    hide Scaled, Surcharge;
    var extra := ExtraBps(o, relay, priority, toxicity);
    var adjusted := Scaled(base, extra);
    price := if o.cap.Some? then Min(adjusted, o.cap.value) else adjusted;
  }

  /** Once the cap check has passed, the adjusted price is within the cap and within the largest configured
      surcharge, and it is at least a positive base price exactly when neither the base price times 10000 nor the
      multiplier overflows its word. */
  lemma AdjustedPriceBounds(base: U256, o: Overpay, relay: Option<Relay>, priority: real, toxicity: real)
    requires o.cap.Some? ==> base <= o.cap.value
    ensures var extra := Min(Surcharge(o, relay, priority, toxicity), o.maxExtra);
            var price := Capped(Scaled(base, extra), o.cap);
            && price <= base * (BPS + o.maxExtra) / BPS
            && (o.cap.Some? ==> price <= o.cap.value)
            && (base <= price <==> base == 0 || (base * BPS <= MAX_U256 && BPS + extra <= MAX_U64))
  {
    hide Surcharge, Scaled;
    ScaledBounds(base, Min(Surcharge(o, relay, priority, toxicity), o.maxExtra), o.maxExtra);
  }

  lemma ScaledBounds(base: U256, extra: U64, top: U64)
    requires extra <= top
    ensures Scaled(base, extra) <= base * (BPS + top) / BPS
    ensures base <= Scaled(base, extra) <==> base == 0 || (base * BPS <= MAX_U256 && BPS + extra <= MAX_U64)
  {
    var m := (BPS + extra) % (MAX_U64 + 1);
    var product := SatMul(base, m);
    SatMulClips(base, m);
    hide SatMul;
    assert Scaled(base, extra) == product / BPS;
    Arithmetic.ProductMonotone(m, BPS + top, base);
    NonNegativeProduct(base, m);
    NonNegativeProduct(base, BPS + top);
    FloorMonotone(product, base * (BPS + top), BPS);
    FloorAdjoint(base, product, BPS);
    if m >= BPS {
      Arithmetic.ProductMonotone(BPS, m, base);
    } else if base > 0 {
      Arithmetic.ProductStrict(m, BPS, base);
    }
  }

  lemma ScaledIs(base: U256, extra: U64)
    requires BPS + extra <= MAX_U64
    ensures Scaled(base, extra) == Min(base * (BPS + extra), MAX_U256) / BPS
  {
    assert (BPS + extra) % (MAX_U64 + 1) == BPS + extra;
    SatMulClips(base, BPS + extra);
    hide SatMul;
  }

  /** The surcharge reaches the price: unless a product or the multiplier overflows, the scaled price is the base
      price and its surcharge together, rounded down. */
  lemma ScaledCarriesSurcharge(base: U256, extra: U64, p: nat)
    requires base * (BPS + extra) <= MAX_U256 && BPS + extra <= MAX_U64
    ensures p <= Scaled(base, extra) <==> p * BPS <= base * BPS + base * extra
  {
    hide Scaled;
    ScaledIs(base, extra);
    Distributes(base, BPS, extra);
    NonNegativeProduct(base, BPS + extra);
    FloorAdjoint(p, base * (BPS + extra), BPS);
  }

  /** The second relay is no better a path than the first. */
  predicate WorseRelay(a: Option<Relay>, b: Option<Relay>) {
    a.Some? ==>
      && b.Some? && a.value.acceptedNotIncludedRate <= b.value.acceptedNotIncludedRate
      && a.value.revertRate <= b.value.revertRate && b.value.acceptRate <= a.value.acceptRate
  }

  /** A worse relay is never surcharged less; each of its faults, once past its limit, adds its own surcharge; and
      toxicity takes the place of priority. */
  lemma SurchargeRises(o: Overpay, a: Option<Relay>, b: Option<Relay>, priority: real, toxicity: real)
    requires WorseRelay(a, b)
    ensures Surcharge(o, a, priority, toxicity) <= Surcharge(o, b, priority, toxicity)
    ensures a.None? && b == Some(Relay(0.10, 0.05, 0.60)) ==>
              Surcharge(o, b, priority, toxicity)
              == Surcharge(o, a, priority, toxicity) + o.missExtra + o.revertExtra + o.submitFailureExtra
    ensures b == Some(Relay(0.09, 0.04, 0.61)) ==>
              Surcharge(o, b, priority, toxicity) == Surcharge(o, None, priority, toxicity)
    ensures toxicity >= o.toxicityThreshold ==>
              Surcharge(o, None, priority, toxicity) == o.baseExtra + o.missExtra / 2
    ensures toxicity < o.toxicityThreshold && priority >= o.priorityThreshold ==>
              Surcharge(o, None, priority, toxicity) == o.baseExtra + o.baseExtra / 2
    ensures toxicity < o.toxicityThreshold && priority < o.priorityThreshold ==>
              Surcharge(o, None, priority, toxicity) == o.baseExtra
  {}

  lemma ScaledRises(base: U256, low: U64, high: U64)
    requires low <= high && BPS + high <= MAX_U64
    ensures Scaled(base, low) <= Scaled(base, high)
  {
    hide Scaled;
    ScaledIs(base, low);
    ScaledIs(base, high);
    Arithmetic.ProductMonotone(BPS + low, BPS + high, base);
    NonNegativeProduct(base, BPS + low);
    FloorMonotone(Min(base * (BPS + low), MAX_U256), Min(base * (BPS + high), MAX_U256), BPS);
  }

  /** So over a worse path, in the same context, the price is never lower. */
  lemma PriceRises(base: U256, o: Overpay, a: Option<Relay>, b: Option<Relay>, priority: real, toxicity: real)
    requires WorseRelay(a, b) && BPS + Min(Surcharge(o, b, priority, toxicity), o.maxExtra) <= MAX_U64
    ensures Capped(Scaled(base, Min(Surcharge(o, a, priority, toxicity), o.maxExtra)), o.cap)
            <= Capped(Scaled(base, Min(Surcharge(o, b, priority, toxicity), o.maxExtra)), o.cap)
  {
    SurchargeRises(o, a, b, priority, toxicity);
    hide Surcharge, WorseRelay, Scaled;
    ScaledRises(base, Min(Surcharge(o, a, priority, toxicity), o.maxExtra),
                Min(Surcharge(o, b, priority, toxicity), o.maxExtra));
  }

  // ---------------------------------------------------------------- the signed transaction

  datatype FeeFields = FeeFields(maxFee: U256, priorityFee: U256)

  function Sign(gasPrice: U256, baseFee: U256): FeeFields {
    var minPriority: U256 := gasPrice / 4;
    var priority: U256 := Max(SatSub(gasPrice, baseFee), minPriority);
    FeeFields(Max(SatAdd(baseFee, priority), gasPrice), priority)
  }

  /** The signed fields are always valid under EIP-1559: the maximum covers the priority fee and the base
      fee, and never undercuts the adjusted price. When the base fee is within the price the maximum is at
      most five quarters of it, and it equals the price exactly when the base fee leaves it a quarter, or the
      price is already at the top of the word. */
  lemma SignedFeesValid(gasPrice: U256, baseFee: U256)
    ensures var f := Sign(gasPrice, baseFee);
            && f.maxFee >= f.priorityFee && f.maxFee >= baseFee && f.maxFee >= gasPrice
            && (baseFee <= gasPrice ==> 4 * f.maxFee <= 5 * gasPrice)
            && (f.maxFee == gasPrice <==> baseFee <= gasPrice - gasPrice / 4 || gasPrice == MAX_U256)
  {}

  /** The tip is what the adjusted price leaves over the base fee, but never less than a quarter of that price, and
      the maximum is what pays base fee and tip, or the price if that is more. */
  lemma SignedTip(gasPrice: U256, baseFee: U256)
    ensures var f := Sign(gasPrice, baseFee);
            && f.priorityFee >= gasPrice / 4 && f.priorityFee >= gasPrice - baseFee
            && (f.priorityFee == gasPrice / 4 || f.priorityFee == gasPrice - baseFee)
            && (f.maxFee == gasPrice || f.maxFee == Min(baseFee + f.priorityFee, MAX_U256))
            && f.maxFee >= Min(baseFee + f.priorityFee, MAX_U256)
  {}

  /** End to end, once the cap check has passed. While the base fee is within the adjusted price, what is signed
      never commits more than five quarters of the cap or of the largest surcharged price; past it, it commits the
      base fee and a quarter of the adjusted price. */
  lemma SignedWithinCap(base: U256, o: Overpay, relay: Option<Relay>, priority: real, toxicity: real, baseFee: U256)
    requires o.cap.Some? ==> base <= o.cap.value
    ensures var price := Capped(Scaled(base, Min(Surcharge(o, relay, priority, toxicity), o.maxExtra)), o.cap);
            var f := Sign(price, baseFee);
            && f.maxFee >= Max(price, Min(baseFee + f.priorityFee, MAX_U256))
            && (baseFee <= price ==>
                  && (o.cap.Some? ==> 4 * f.maxFee <= 5 * o.cap.value)
                  && 4 * f.maxFee <= 5 * (base * (BPS + o.maxExtra) / BPS))
            && (baseFee > price ==> f.maxFee == Min(baseFee + price / 4, MAX_U256))
  {
    hide Scaled, Surcharge;
    AdjustedPriceBounds(base, o, relay, priority, toxicity);
    var price := Capped(Scaled(base, Min(Surcharge(o, relay, priority, toxicity), o.maxExtra)), o.cap);
    SignedFeesValid(price, baseFee);
  }
}
