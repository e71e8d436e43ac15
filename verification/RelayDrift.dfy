/** What the passing of time does to one choice among relays: flows expire between its quotes, each expiry may give
    away one tie, and the comparison can then run in a ring. */
module RelayDrift {
  import Arithmetic
  import opened Options
  import opened Clock
  import opened Reals
  import opened AdaptiveGate
  import opened RecentFlows
  import opened RelayChoice

  // ---------------------------------------------------------------- how often a reading can change in one call

  predicate Ordered(times: seq<Instant>) { forall j, k :: 0 <= j < k < |times| ==> times[j] <= times[k] }

  /** What the quotes of one call read: the same queue, at the instant each of them looks at the clock. */
  function ReadAll(p: Policy, q: seq<Flow>, key: nat, times: seq<Instant>, fading: real -> real, c: Curves)
    : (readings: seq<Policy>)
    ensures |readings| == |times|
    ensures forall k :: 0 <= k < |times| ==> readings[k] == Read(p, q, key, times[k], fading, c)
  {
    seq(|times|, k requires 0 <= k < |times| => Read(p, q, key, times[k], fading, c))
  }

  /** A reading changes no more often than flows expire. */
  lemma {:induction false} ChangesAreExpiries(p: Policy, q: seq<Flow>, key: nat, times: seq<Instant>,
                                              fading: real -> real, c: Curves)
    requires Fading(fading) && times != [] && Sane(q, times[0]) && Ordered(times)
    ensures Changes(ReadAll(p, q, key, times, fading, c)) + |Prune(q, times[|times| - 1])| <= |Prune(q, times[0])|
  {
    hide Read, Prune, Fading;
    var readings, n := ReadAll(p, q, key, times, fading, c), |times| - 1;
    if n > 0 {
      ChangesAreExpiries(p, q, key, times[..n], fading, c);
      assert readings[..n] == ReadAll(p, q, key, times[..n], fading, c);
      SaneLater(q, times[0], times[n - 1]);
      ReadingsDiffer(p, q, key, times[n - 1], times[n], fading, c);
    }
  }

  lemma SaneLater(q: seq<Flow>, now: Instant, later: Instant)
    requires Sane(q, now) && now <= later
    ensures Sane(q, later)
  {}

  /** However long a call takes and however many relays it asks, the chosen margin is within EPSILON per flow that
      expired meanwhile of the best in its class: at most 2048 of them. */
  lemma ChosenWithinExpiries(p: Policy, q: seq<Flow>, key: nat, times: seq<Instant>, fading: real -> real,
                             i: Input, pressures: seq<real>, c: Curves, k: nat)
    requires SanePolicy(p) && c.Valid() && Fading(fading) && |times| == Arithmetic.Max(|pressures|, 1)
    requires Sane(q, times[0]) && Ordered(times) && k < |times|
    ensures var quotes := Quotes(ReadAll(p, q, key, times, fading, c), i, pressures, c);
            var best := quotes[Chosen(quotes)];
            var expired := |Prune(q, times[0])| - |Prune(q, times[|times| - 1])|;
            && 0 <= expired <= FLOW_CAPACITY
            && (quotes[k].shouldExecute == best.shouldExecute ==>
                  Margin(best) >= Margin(quotes[k]) - expired as real * EPSILON)
  {
    hide Quotes, Chosen, Margin, Fading, Curves.Valid, Prune, Changes;
    var readings := ReadAll(p, q, key, times, fading, c);
    ChangesAreExpiries(p, q, key, times, fading, c);
    var quotes := Quotes(readings, i, pressures, c);
    if quotes[k].shouldExecute == quotes[Chosen(quotes)].shouldExecute {
      ChosenWithinChanges(readings, i, pressures, c, k);
      ProductMonotone(Changes(readings) as real,
                      (|Prune(q, times[0])| - |Prune(q, times[|times| - 1])|) as real, EPSILON);
    }
  }

  // ---------------------------------------------------------------- a market in which ties are given away

  /** A candidate without profit under averages near their worst, on an unweighted chain and without a profile. */
  predicate Stressed(p: Policy, i: Input, c: Curves) {
    && SanePolicy(p) && p.baseThresholdUsd >= 1.0 && p.history.None?
    && p.competitionMult == p.riskMult == p.thresholdMult == 1.0
    && i.expectedProfitWei == 0
    && var m := Measure(p, i, c);
       m.gas >= 0.95 && m.latency >= 0.95 && m.failure >= 0.95 && m.poor >= 0.95 && m.impact >= 0.95
       && m.toxicity >= 0.5 && m.priority <= 0.5
  }

  /** What density and heat add to the threshold. */
  function Lift(p: Policy): real { p.density * 0.28 + p.clusterHeat * 0.24 }

  /** Readings of one policy that differ in the flows only, while these lift the threshold more and more. */
  predicate Rising(p: Policy, readings: seq<Policy>) {
    && (forall k :: 0 <= k < |readings| ==>
          && readings[k] == p.(density := readings[k].density, clusterHeat := readings[k].clusterHeat)
          && 0.0 <= readings[k].density <= 0.1 && 0.1 <= readings[k].clusterHeat <= 1.0)
    && (forall j, k :: 0 <= j < k < |readings| ==>
          Lift(readings[k]) - Lift(readings[j]) > (k - j) as real * EPSILON)
  }

  /** The threshold per unit of its stress sum. */
  function Slope(p: Policy, m: Pressures): real {
    p.baseThresholdUsd * 1.95 * (1.0 + m.toxicity * 0.18) * (1.0 - m.priority * 0.08)
  }

  function Steps(k: nat, size: real): real { k as real * size }

  /** The relay pressure that lets the threshold rise by EPSILON only, k times. */
  function Easing(slope: real, reading: Policy, k: nat): real
    requires slope > 0.0
  {
    (0.38 + Steps(k, EPSILON / slope) - Lift(reading)) / 0.38
  }

  lemma SlopeFloor(p: Policy, m: Pressures)
    requires p.baseThresholdUsd >= 1.0 && 0.5 <= m.toxicity && m.priority <= 0.5
    ensures Slope(p, m) >= 1.0
  {
    var weighted := p.baseThresholdUsd * 1.95;
    var toxic := weighted * (1.0 + m.toxicity * 0.18);
    ProductsGrow(1.95, weighted, 1.0, 1.0 + m.toxicity * 0.18);
    ProductsGrow(1.95, toxic, 0.96, 1.0 - m.priority * 0.08);
    assert Slope(p, m) == toxic * (1.0 - m.priority * 0.08);
  }

  function EasingPressures(slope: real, readings: seq<Policy>): (pressures: seq<real>)
    requires slope > 0.0
    ensures |pressures| == |readings|
    ensures forall k :: 0 <= k < |readings| ==> pressures[k] == Easing(slope, readings[k], k)
  {
    seq(|readings|, k requires 0 <= k < |readings| => Easing(slope, readings[k], k))
  }

  lemma RisesBy(slope: real, k: nat)
    requires slope >= 1.0
    ensures 0.0 < EPSILON / slope <= EPSILON
    ensures 0.0 <= Steps(k, EPSILON / slope) <= Steps(k, EPSILON)
  {
    assert EPSILON / slope * slope == EPSILON;
    ProductMonotone(1.0, slope, EPSILON / slope);
    ProductMonotone(0.0, k as real, EPSILON / slope);
    ProductMonotone(EPSILON / slope, EPSILON, k as real);
  }

  lemma LiftAbove(p: Policy, readings: seq<Policy>, k: nat)
    requires Rising(p, readings) && k < |readings|
    ensures Steps(k, EPSILON) <= Lift(readings[k]) <= 0.268
  {
    if k > 0 {
      assert Lift(readings[k]) - Lift(readings[0]) > (k - 0) as real * EPSILON;
    }
  }

  lemma EasingInUnit(p: Policy, readings: seq<Policy>, slope: real, k: nat)
    requires slope >= 1.0 && Rising(p, readings) && k < |readings|
    ensures 0.29 <= Easing(slope, readings[k], k) <= 1.0
  {
    hide Rising, Lift, Steps;
    RisesBy(slope, k);
    LiftAbove(p, readings, k);
    EasedShare(Steps(k, EPSILON / slope), Lift(readings[k]));
  }

  lemma EasedShare(rise: real, lift: real)
    requires 0.0 <= rise <= lift <= 0.268
    ensures 0.29 <= (0.38 + rise - lift) / 0.38 <= 1.0
  {}

  lemma EasingFalls(p: Policy, readings: seq<Policy>, slope: real, j: nat, k: nat)
    requires slope >= 1.0 && Rising(p, readings) && j < k < |readings|
    ensures Easing(slope, readings[k], k) < Easing(slope, readings[j], j)
  {
    RisesBy(slope, k - j);
    assert k as real * (EPSILON / slope) == j as real * (EPSILON / slope) + (k - j) as real * (EPSILON / slope);
  }

  // ---------------------------------------------------------------- what each quote comes to

  lemma EasedPressures(p: Policy, i: Input, reading: Policy, pressure: real, c: Curves)
    requires Stressed(p, i, c)
    requires reading == p.(density := reading.density, clusterHeat := reading.clusterHeat)
    requires 0.0 <= reading.density <= 1.0 && 0.0 <= reading.clusterHeat <= 1.0 && 0.0 <= pressure <= 1.0
    ensures Measure(reading, i.(relayPressure := Some(pressure)), c)
            == Measure(p, i, c).(density := reading.density, heat := reading.clusterHeat, builder := pressure)
  {
    hide BuilderPathPressure, SizePressure;
    assert LatencyPenalty(reading, i.lookupLatencyMs) == LatencyPenalty(p, i.lookupLatencyMs);
    assert Weathered(pressure, 0.0, 0.0) == pressure;
    hide LatencyPenalty, Weathered;
  }

  /** The pressures under which a quote is rejected at the least probability, whatever the flows. */
  predicate Bad(m: Pressures) {
    && Bounded(m) && m.gas >= 0.95 && m.latency >= 0.95 && m.failure >= 0.95 && m.poor >= 0.95 && m.impact >= 0.95
    && m.toxicity >= 0.5 && m.priority <= 0.5 && m.heat >= 0.1 && m.builder >= 0.29
  }

  predicate Plain(p: Policy) { p.history.None? && p.competitionMult == p.riskMult == p.thresholdMult == 1.0 }

  lemma FullRisk(p: Policy, m: Pressures, c: Curves)
    requires c.Valid() && Plain(p) && Bad(m)
    ensures Risk(p, m, Toxic, c) == 1.0
  {
    hide Curves.Valid;
    Steeper(c, (m.failure - 0.48) * 10.0, (m.failure - 0.48) * 10.0);
    Steeper(c, (m.latency - 0.45) * 8.0, (m.latency - 0.45) * 8.0);
    Steeper(c, (m.poor - 0.32) * 9.0, (m.poor - 0.32) * 9.0);
    Steeper(c, (m.builder - 0.42) * 10.5, (m.builder - 0.42) * 10.5);
    var score := RiskScore(m, Toxic, c);
    assert 0.95 <= score;
    hide RiskScore;
    ProductsGrow(0.95, score, 1.12, 1.0 + m.toxicity * 0.24);
    ProductsGrow(1.06, score * (1.0 + m.toxicity * 0.24), 0.96, 1.0 - m.priority * 0.08);
  }

  lemma HighCompetition(p: Policy, m: Pressures, c: Curves)
    requires c.Valid() && Plain(p) && Bad(m)
    ensures Competition(p, m, Toxic, c) >= 0.547
  {
    hide Curves.Valid;
    Steeper(c, (m.heat - 0.52) * 9.0, (m.heat - 0.52) * 9.0);
    Steeper(c, (m.density - 0.62) * 8.0, (m.density - 0.62) * 8.0);
    Steeper(c, (m.gas - 0.58) * 8.5, (m.gas - 0.58) * 8.5);
    Steeper(c, (m.builder - 0.45) * 10.0, (m.builder - 0.45) * 10.0);
    var score := CompetitionScore(m, Toxic, c);
    assert 0.484 <= score;
    hide CompetitionScore;
    ProductsGrow(0.484, score, 1.03, 1.0 + (1.0 - m.priority) * 0.06);
    ProductsGrow(0.498, score * (1.0 + (1.0 - m.priority) * 0.06), 1.10, 1.0 + m.toxicity * 0.20);
  }

  lemma LeastProbability(p: Policy, m: Pressures, c: Curves)
    requires c.Valid() && Plain(p) && Bad(m)
    ensures MarketRegime(m) == Toxic
    ensures BaseProbability(Competition(p, m, Toxic, c), Risk(p, m, Toxic, c), m, Toxic) == 0.04
  {
    hide Curves.Valid;
    FullRisk(p, m, c);
    HighCompetition(p, m, c);
    hide Competition, Risk;
  }

  function StressSum(m: Pressures): real {
    1.0 + m.density * 0.28 + m.failure * 0.52 + m.gas * 0.22 + m.latency * 0.24 + m.poor * 0.30 + m.heat * 0.24
    + m.builder * 0.38
  }

  function UnmovedSum(m: Pressures): real {
    1.38 + m.failure * 0.52 + m.gas * 0.22 + m.latency * 0.24 + m.poor * 0.30
  }

  lemma PlainThreshold(p: Policy, m: Pressures)
    requires Plain(p)
    ensures Threshold(p, m, Toxic) == Slope(p, m) * StressSum(m)
  {
    var sum := StressSum(m);
    ReorderedThreshold(p.baseThresholdUsd, 1.95, sum, 1.0 + m.toxicity * 0.18, 1.0 - m.priority * 0.08);
    assert DynamicThreshold(p, m, Toxic) == Share(p.baseThresholdUsd, 1.95, sum);
    hide DynamicThreshold, Share, Chain;
  }

  lemma ReorderedThreshold(base: real, w: real, sum: real, b: real, d: real)
    ensures Chain(Share(base, w, sum), 1.0, b, d, 1.0) * 1.0 == base * w * b * d * sum
  {
    assert base * w * sum * b == base * w * b * sum;
    assert base * w * b * sum * d == base * w * b * d * sum;
  }

  /** The threshold before any easing, and the margin it leaves. */
  function FirstThreshold(p: Policy, m: Pressures): real { Slope(p, m) * UnmovedSum(m) }

  function Start(p: Policy, i: Input, m: Pressures): real { -Usd(p, i.executionCostWei) - FirstThreshold(p, m) }

  lemma RejectedMargin(p: Policy, m: Pressures, costUsd: real, c: Curves)
    requires c.Valid() && Plain(p) && Bad(m)
    ensures var q := Decide(p, m, 0.0, costUsd, c);
            && !q.shouldExecute && q.probability == 0.04 && q.builder == m.builder
            && Margin(q) == -costUsd - Threshold(p, m, Toxic)
  {
    hide Curves.Valid;
    LeastProbability(p, m, c);
    hide Competition, Risk, BaseProbability, CompetitionShare, RiskShare, PathStress, Threshold, MarketRegime, Bad;
  }

  lemma EasedSum(slope: real, reading: Policy, k: nat, m: Pressures)
    requires slope > 0.0
    requires m.density == reading.density && m.heat == reading.clusterHeat && m.builder == Easing(slope, reading, k)
    ensures slope * StressSum(m) == slope * UnmovedSum(m) + k as real * EPSILON
  {
    var sigma := EPSILON / slope;
    assert StressSum(m) == UnmovedSum(m) + k as real * sigma;
    assert slope * sigma == EPSILON;
    hide StressSum, UnmovedSum, Easing;
    assert slope * (k as real * sigma) == k as real * (slope * sigma);
  }

  lemma RisingReading(p: Policy, i: Input, readings: seq<Policy>, k: nat, c: Curves)
    requires Stressed(p, i, c) && Rising(p, readings) && k < |readings|
    ensures var reading := readings[k];
            && reading == p.(density := reading.density, clusterHeat := reading.clusterHeat) && Plain(reading)
            && 0.0 <= reading.density <= 1.0 && 0.1 <= reading.clusterHeat <= 1.0
  {
    hide Measure, SanePolicy, Lift;
  }

  /** What a rising reading measures to under its eased pressure. */
  function Eased(p: Policy, i: Input, slope: real, reading: Policy, k: nat, c: Curves): Pressures
    requires p.maxImpactBps > 0 && slope > 0.0
  {
    Measure(p, i, c).(density := reading.density, heat := reading.clusterHeat, builder := Easing(slope, reading, k))
  }

  lemma EasedIsBad(p: Policy, i: Input, readings: seq<Policy>, k: nat, slope: real, c: Curves)
    requires Stressed(p, i, c) && Rising(p, readings) && k < |readings| && slope >= 1.0
    ensures readings[k].maxImpactBps > 0 && Plain(readings[k]) && Bad(Eased(p, i, slope, readings[k], k, c))
    ensures Measure(readings[k], i.(relayPressure := Some(Easing(slope, readings[k], k))), c)
            == Eased(p, i, slope, readings[k], k, c)
  {
    assert p.maxImpactBps > 0;
    hide Measure, Rising, Lift, Easing;
    MeasureBounded(p, i, c);
    RisingReading(p, i, readings, k, c);
    EasingInUnit(p, readings, slope, k);
    EasedPressures(p, i, readings[k], Easing(slope, readings[k], k), c);
  }

  lemma EasedThreshold(p: Policy, i: Input, reading: Policy, k: nat, slope: real, c: Curves)
    requires p.maxImpactBps > 0 && i.expectedProfitWei == 0 && Plain(reading)
    requires reading == p.(density := reading.density, clusterHeat := reading.clusterHeat)
    requires slope == Slope(p, Measure(p, i, c)) && slope > 0.0
    ensures Threshold(reading, Eased(p, i, slope, reading, k, c), Toxic)
            == FirstThreshold(p, Measure(p, i, c)) + k as real * EPSILON
    ensures Usd(reading, i.executionCostWei) == Usd(p, i.executionCostWei)
    ensures Usd(reading, i.expectedProfitWei) == 0.0
  {
    hide Measure, Threshold, Usd, Slope, StressSum, UnmovedSum, Easing;
    var m := Eased(p, i, slope, reading, k, c);
    SameConstants(p, i, reading, Measure(p, i, c), m, c);
    PlainThreshold(reading, m);
    EasedSum(slope, reading, k, m);
  }

  lemma SameConstants(p: Policy, i: Input, reading: Policy, before: Pressures, m: Pressures, c: Curves)
    requires reading == p.(density := reading.density, clusterHeat := reading.clusterHeat)
    requires m == before.(density := m.density, heat := m.heat, builder := m.builder) && i.expectedProfitWei == 0
    ensures Slope(reading, m) == Slope(p, before) && UnmovedSum(m) == UnmovedSum(before)
    ensures Usd(reading, i.executionCostWei) == Usd(p, i.executionCostWei) && Usd(reading, i.expectedProfitWei) == 0.0
  {}

  lemma EasedBuilder(p: Policy, i: Input, reading: Policy, k: nat, slope: real, c: Curves)
    requires p.maxImpactBps > 0 && slope > 0.0
    ensures Eased(p, i, slope, reading, k, c).builder == Easing(slope, reading, k)
  {
    hide Measure, Easing;
  }

  /** In the stressed market the quote for reading k is rejected at the least probability, k times EPSILON of margin
      below where it started, under its eased pressure. */
  lemma EasedQuote(p: Policy, i: Input, readings: seq<Policy>, k: nat, c: Curves)
    requires c.Valid() && Stressed(p, i, c) && Rising(p, readings) && k < |readings|
    requires Slope(p, Measure(p, i, c)) >= 1.0
    ensures var x := Easing(Slope(p, Measure(p, i, c)), readings[k], k);
            var q := RelayQuote(readings[k], i, x, c);
            && !q.shouldExecute && q.probability == 0.04 && q.builder == x
            && Margin(q) == Start(p, i, Measure(p, i, c)) - k as real * EPSILON
  {
    var slope := Slope(p, Measure(p, i, c));
    RisingReading(p, i, readings, k, c);
    assert p.maxImpactBps > 0 && i.expectedProfitWei == 0;
    hide Curves.Valid, Measure, Decide, Threshold, Rising, Stressed, Usd, Slope, UnmovedSum, Easing, Bad, Plain, Margin,
         Eased, FirstThreshold;
    EasedIsBad(p, i, readings, k, slope, c);
    EasedThreshold(p, i, readings[k], k, slope, c);
    EasedBuilder(p, i, readings[k], k, slope, c);
    RejectedMargin(readings[k], Eased(p, i, slope, readings[k], k, c), Usd(p, i.executionCostWei), c);
  }

  /** One call under rising readings and eased pressures. */
  function EasedCall(p: Policy, i: Input, readings: seq<Policy>, c: Curves): (quotes: seq<Quote>)
    requires Stressed(p, i, c) && Rising(p, readings) && readings != []
    ensures |quotes| == |readings|
  {
    EasedUsable(p, i, readings, c);
    Quotes(readings, i, EasingPressures(Slope(p, Measure(p, i, c)), readings), c)
  }

  lemma EasedUsable(p: Policy, i: Input, readings: seq<Policy>, c: Curves)
    requires Stressed(p, i, c) && Rising(p, readings) && readings != []
    ensures var slope := Slope(p, Measure(p, i, c));
            slope >= 1.0 && Usable(readings, EasingPressures(slope, readings))
  {
    SlopeFloor(p, Measure(p, i, c));
    hide Measure, Slope, Lift;
  }

  /** Each quote of the call is a rejection EPSILON below the one before, equally probable, under less pressure. */
  lemma EasedSteps(p: Policy, i: Input, readings: seq<Policy>, j: nat, k: nat, c: Curves)
    requires c.Valid() && Stressed(p, i, c) && Rising(p, readings) && j < k < |readings|
    ensures var quotes := EasedCall(p, i, readings, c);
            && !quotes[j].shouldExecute && !quotes[k].shouldExecute
            && quotes[j].probability == quotes[k].probability
            && Margin(quotes[j]) - Margin(quotes[k]) == (k - j) as real * EPSILON
            && quotes[k].builder < quotes[j].builder
  {
    EasedUsable(p, i, readings, c);
    var slope := Slope(p, Measure(p, i, c));
    hide Curves.Valid, Measure, Slope, Lift, Rising, Stressed, Margin, RelayQuote, Easing, Start, Usable;
    EasedQuote(p, i, readings, j, c);
    EasedQuote(p, i, readings, k, c);
    EasingFalls(p, readings, slope, j, k);
  }

  // ---------------------------------------------------------------- rings and losses

  /** Whenever readings rise within a call, the comparison can run in a ring: of any three rising readings each quote
      is better than the one before it. */
  lemma BetterRunsInCircles(p: Policy, i: Input, readings: seq<Policy>, c: Curves)
    requires c.Valid() && Stressed(p, i, c) && Rising(p, readings) && |readings| == 3
    ensures var q := EasedCall(p, i, readings, c);
            IsBetter(q[1], q[0]) && IsBetter(q[2], q[1]) && IsBetter(q[0], q[2])
  {
    hide EasedCall, Curves.Valid, Stressed, Rising, Margin;
    EasedSteps(p, i, readings, 0, 1, c);
    EasedSteps(p, i, readings, 1, 2, c);
    EasedSteps(p, i, readings, 0, 2, c);
  }

  lemma {:induction false} EasedClimbs(p: Policy, i: Input, readings: seq<Policy>, k: nat, c: Curves)
    requires c.Valid() && Stressed(p, i, c) && Rising(p, readings) && k < |readings|
    ensures Chosen(EasedCall(p, i, readings, c)[..k + 1]) == k
  {
    hide EasedCall, Curves.Valid, Stressed, Rising;
    if k > 0 {
      EasedClimbs(p, i, readings, k - 1, c);
      var quotes := EasedCall(p, i, readings, c);
      assert quotes[..k + 1][..k] == quotes[..k];
      EasedSteps(p, i, readings, k - 1, k, c);
    }
  }

  lemma {:induction false} RisingChanges(p: Policy, readings: seq<Policy>)
    requires Rising(p, readings) && readings != []
    ensures Changes(readings) == |readings| - 1
  {
    hide Lift;
    var n := |readings| - 1;
    if n > 0 {
      RisingChanges(p, readings[..n]);
      assert Lift(readings[n]) - Lift(readings[n - 1]) > (n - (n - 1)) as real * EPSILON;
    }
  }

  /** And then the bound on what is lost is reached: the call ends as many times EPSILON below its first quote as its
      readings changed. */
  lemma MarginLossIsTight(p: Policy, i: Input, readings: seq<Policy>, c: Curves)
    requires c.Valid() && Stressed(p, i, c) && Rising(p, readings) && readings != []
    ensures var quotes := EasedCall(p, i, readings, c);
            && quotes[0].shouldExecute == quotes[Chosen(quotes)].shouldExecute
            && Margin(quotes[Chosen(quotes)]) == Margin(quotes[0]) - Changes(readings) as real * EPSILON
  {
    hide EasedCall, Curves.Valid, Stressed, Rising, Changes;
    var n, quotes := |readings| - 1, EasedCall(p, i, readings, c);
    EasedClimbs(p, i, readings, n, c);
    assert quotes[..n + 1] == quotes;
    RisingChanges(p, readings);
    if n > 0 { EasedSteps(p, i, readings, 0, n, c); }
  }

  // ---------------------------------------------------------------- three flows are enough

  const OURS: nat := 1

  /** A flow of no size and no gas price, some milliseconds after the first. */
  function Small(cluster: nat, millis: nat): Flow { Flow(cluster, Millis(millis), 0.0, 0.0) }

  /** Two flows of another cluster and then one of ours, each a millisecond after the one before. */
  const THREE_FLOWS := [Small(0, 0), Small(0, 1), Small(OURS, 2)]

  function Moment(k: nat): Instant { Secs(FLOW_HORIZON_SECS) + Millis(k) }

  const THREE_MOMENTS := [Moment(0), Moment(1), Moment(2)]

  lemma OneExpiresAtATime(k: nat)
    requires k <= 2
    ensures Sane(THREE_FLOWS, Moment(k)) && Prune(THREE_FLOWS, Moment(k)) == THREE_FLOWS[k..]
  {
    var now := Moment(k);
    if k > 0 {
      assert !Live(THREE_FLOWS[0], now) && Prune(THREE_FLOWS, now) == Prune(THREE_FLOWS[1..], now);
    }
    if k > 1 {
      assert THREE_FLOWS[1..][1..] == THREE_FLOWS[2..] && !Live(THREE_FLOWS[1..][0], now);
    }
    assert Live(THREE_FLOWS[k..][0], now) && Prune(THREE_FLOWS[k..], now) == THREE_FLOWS[k..];
  }

  /** The share of the youngest flow, among flows of equal bulk and nearly equal age. */
  lemma ShareBetween(part: real, whole: real, low: real, high: real)
    requires EPSILON < whole && low * whole <= part <= high * whole && 0.0 <= low <= high <= 1.0
    ensures low <= ShareOf(part, whole) <= high
  {
    var share := part / whole;
    assert share * whole == part;
    if share < low { ProductsStrict(share, low, whole); }
    if high < share { ProductsStrict(high, share, whole); }
  }

  lemma ProductsStrict(a: real, b: real, c: real)
    requires a < b && c > 0.0
    ensures a * c < b * c
  {
    ProductPositive(b - a, c);
  }

  /** Heat between its values at two equal shares, when no flow is aggressive. */
  function HeatAt(share: real): real { Unit(share * 0.70 + Dominance(share, share) * 0.15) }

  lemma HeatBetween(t: Tally, low: real, high: real)
    requires EPSILON < t.total && EPSILON < t.recent && t.aggressive == 0.0 && 0.0 <= low <= high <= 1.0
    requires low * t.total <= t.ofCluster <= high * t.total
    requires low * t.recent <= t.recentOfCluster <= high * t.recent
    ensures HeatAt(low) <= HeatOf(t) <= HeatAt(high)
  {
    ShareBetween(t.ofCluster, t.total, low, high);
    ShareBetween(t.recentOfCluster, t.recent, low, high);
    hide ShareOf;
    assert ShareOf(t.aggressiveOfCluster, t.aggressive) == 0.0 by { NoShare(t.aggressiveOfCluster); }
  }

  lemma NoShare(part: real)
    ensures ShareOf(part, 0.0) == 0.0
  {}

  /** An older flow has almost the recency of one up to two milliseconds younger. */
  lemma NearlyAsRecent(early: Flow, late: Flow, now: Instant, fading: real -> real)
    requires Fading(fading) && early.observedAt <= late.observedAt <= now && Live(early, now)
    requires late.observedAt - early.observedAt <= Millis(2)
    ensures 0.015625 <= Recency(late, now, fading) <= 1.0
    ensures 0.99 * Recency(late, now, fading) <= Recency(early, now, fading) <= Recency(late, now, fading)
  {
    RecencyFloor(late, now, fading);
    var x, y := AgeSecs(late, now) / 4.0, (late.observedAt - early.observedAt) as real / NANOS_PER_SEC as real / 4.0;
    assert AgeSecs(early, now) / 4.0 == x + y && 0.0 <= x && 0.0 <= y <= 0.01;
    hide AgeSecs, Live;
    SlightlyFaded(fading, x, y);
  }

  lemma SlightlyFaded(fading: real -> real, x: real, y: real)
    requires Fading(fading) && 0.0 <= x && 0.0 <= y <= 0.01
    ensures 0.99 * fading(x) <= fading(x + y) <= fading(x)
  {
    assert Composes(fading, x, y);
    BetweenProducts(fading(x), fading(y), fading(x + y));
  }

  lemma BetweenProducts(whole: real, rest: real, product: real)
    requires whole > 0.0 && 0.99 <= rest <= 1.0 && product == whole * rest
    ensures 0.99 * whole <= product <= whole
  {
    ProductMonotone(0.99, rest, whole);
    ProductMonotone(rest, 1.0, whole);
  }

  /** A flow of another cluster that is not aggressive, of the given bulk and a recency just below the given one. */
  predicate Theirs(f: Flow, key: nat, now: Instant, gasEwma: real, bulk: real, recency: real, fading: real -> real,
                   c: Curves) {
    && f.cluster != key && !Aggressive(f, gasEwma) && Bulk(f, gasEwma, c) == bulk
    && 0.99 * recency <= Recency(f, now, fading) <= recency
  }

  /** What n such flows add up to. */
  predicate Gathered(t: Tally, n: nat, bulk: real, recency: real) {
    && t.ofCluster == t.recentOfCluster == t.aggressive == 0.0 && t.total == t.recent * bulk
    && n as real * (0.99 * recency) <= t.recent <= n as real * recency
  }

  lemma GathersOne(t: Tally, n: nat, f: Flow, key: nat, now: Instant, gasEwma: real, bulk: real, recency: real,
                   fading: real -> real, c: Curves)
    requires Gathered(t, n, bulk, recency) && Theirs(f, key, now, gasEwma, bulk, recency, fading, c)
    ensures Gathered(Counted(t, f, key, Recency(f, now, fading), gasEwma, c), n + 1, bulk, recency)
  {
    hide Bulk, Recency, Aggressive;
    var seen := Recency(f, now, fading);
    assert (t.recent + seen) * bulk == t.recent * bulk + seen * bulk;
    assert (n + 1) as real * recency == n as real * recency + recency;
    assert (n + 1) as real * (0.99 * recency) == n as real * (0.99 * recency) + 0.99 * recency;
  }

  lemma {:induction false} TheirTally(q: seq<Flow>, key: nat, now: Instant, gasEwma: real, bulk: real, recency: real,
                                      fading: real -> real, c: Curves)
    requires forall n :: 0 <= n < |q| ==> Theirs(q[n], key, now, gasEwma, bulk, recency, fading, c)
    ensures Gathered(TallyOf(q, key, now, gasEwma, fading, c), |q|, bulk, recency)
  {
    hide Bulk, Recency, Aggressive, Theirs, Counted;
    if q != [] {
      var n := |q| - 1;
      TheirTally(q[..n], key, now, gasEwma, bulk, recency, fading, c);
      hide Gathered;
      GathersOne(TallyOf(q[..n], key, now, gasEwma, fading, c), n, q[n], key, now, gasEwma, bulk, recency, fading, c);
    }
  }

  /** A queue of flows of equal bulk and nearly equal recency, the last one alone ours. */
  ghost predicate LastIsOurs(q: seq<Flow>, key: nat, now: Instant, gasEwma: real, bulk: real, recency: real,
                             fading: real -> real, c: Curves) {
    && q != [] && bulk >= 1.0 && recency >= 0.015625
    && (forall n :: 0 <= n < |q| - 1 ==> Theirs(q[n], key, now, gasEwma, bulk, recency, fading, c))
    && var last := q[|q| - 1];
       last.cluster == key && !Aggressive(last, gasEwma) && Bulk(last, gasEwma, c) == bulk
       && Recency(last, now, fading) == recency
  }

  /** What n such flows and one of ours add up to. */
  predicate Topped(t: Tally, n: nat, bulk: real, recency: real) {
    && t.recentOfCluster == recency && t.ofCluster == recency * bulk && t.aggressive == 0.0
    && t.total == t.recent * bulk
    && n as real * (0.99 * recency) <= t.recent - recency <= n as real * recency
  }

  lemma OurTally(q: seq<Flow>, key: nat, now: Instant, gasEwma: real, bulk: real, recency: real,
                 fading: real -> real, c: Curves)
    requires LastIsOurs(q, key, now, gasEwma, bulk, recency, fading, c)
    ensures Topped(TallyOf(q, key, now, gasEwma, fading, c), |q| - 1, bulk, recency)
  {
    hide Bulk, Recency, Aggressive, Theirs, TallyOf;
    var n := |q| - 1;
    TheirTally(q[..n], key, now, gasEwma, bulk, recency, fading, c);
    var theirs := TallyOf(q[..n], key, now, gasEwma, fading, c);
    assert TallyOf(q, key, now, gasEwma, fading, c) == Counted(theirs, q[n], key, recency, gasEwma, c) by {
      LastCounted(q, key, now, gasEwma, fading, c);
    }
    assert (theirs.recent + recency) * bulk == theirs.recent * bulk + recency * bulk;
  }

  lemma LastCounted(q: seq<Flow>, key: nat, now: Instant, gasEwma: real, fading: real -> real, c: Curves)
    requires q != []
    ensures var n := |q| - 1;
            TallyOf(q, key, now, gasEwma, fading, c)
            == Counted(TallyOf(q[..n], key, now, gasEwma, fading, c), q[n], key, Recency(q[n], now, fading), gasEwma, c)
  {
    hide Counted, Recency;
  }

  lemma SharesOf(low: real, high: real, n: nat, recency: real, recent: real, bulk: real, part: real, total: real)
    requires recency >= 0.015625 && bulk >= 1.0 && 0.0 <= low <= high <= 1.0
    requires n as real * (0.99 * recency) <= recent - recency <= n as real * recency
    requires low * (n + 1) as real <= 1.0 <= high * (1.0 + n as real * 0.99)
    requires part == recency * bulk && total == recent * bulk
    ensures low * recent <= recency <= high * recent && EPSILON < recent
    ensures low * total <= part <= high * total && EPSILON < total
  {
    ProductNonNegative(n as real, 0.99 * recency);
    ProductMonotone(recent, (n + 1) as real * recency, low);
    ProductMonotone(low * (n + 1) as real, 1.0, recency);
    assert low * ((n + 1) as real * recency) == low * (n + 1) as real * recency;
    ProductMonotone((1.0 + n as real * 0.99) * recency, recent, high);
    ProductMonotone(1.0, high * (1.0 + n as real * 0.99), recency);
    assert high * ((1.0 + n as real * 0.99) * recency) == high * (1.0 + n as real * 0.99) * recency;
    ProductsGrow(recent, recent, 1.0, bulk);
    ProductMonotone(low * recent, recency, bulk);
    ProductMonotone(recency, high * recent, bulk);
    assert low * total == low * recent * bulk && high * total == high * recent * bulk;
  }

  lemma OurHeat(t: Tally, n: nat, bulk: real, recency: real, low: real, high: real)
    requires Topped(t, n, bulk, recency) && recency >= 0.015625 && bulk >= 1.0
    requires 0.0 <= low <= high <= 1.0 && low * (n + 1) as real <= 1.0 <= high * (1.0 + n as real * 0.99)
    ensures HeatAt(low) <= HeatOf(t) <= HeatAt(high)
  {
    SharesOf(low, high, n, recency, t.recent, bulk, recency * bulk, t.total);
    hide HeatAt, HeatOf;
    HeatBetween(t, low, high);
  }

  /** The heat of such a queue, from bounds on the share of its last flow. */
  lemma HeatOfLast(q: seq<Flow>, key: nat, now: Instant, gasEwma: real, bulk: real, recency: real, low: real,
                   high: real, fading: real -> real, c: Curves)
    requires LastIsOurs(q, key, now, gasEwma, bulk, recency, fading, c)
    requires 0.0 <= low <= high <= 1.0 && low * |q| as real <= 1.0 <= high * (1.0 + (|q| - 1) as real * 0.99)
    ensures HeatAt(low) <= Heat(q, key, now, gasEwma, fading, c) <= HeatAt(high)
  {
    OurTally(q, key, now, gasEwma, bulk, recency, fading, c);
    hide TallyOf, HeatAt, HeatOf, Theirs, Recency, Bulk, Aggressive;
    OurHeat(TallyOf(q, key, now, gasEwma, fading, c), |q| - 1, bulk, recency, low, high);
  }

  lemma SmallFlowsAreTheirs(k: nat, n: nat, gasEwma: real, fading: real -> real, c: Curves)
    requires Fading(fading) && k <= n < 2
    ensures var last := Small(OURS, 2);
            Theirs(THREE_FLOWS[n], OURS, Moment(k), gasEwma, Bulk(last, gasEwma, c), Recency(last, Moment(k), fading),
                   fading, c)
  {
    NearlyAsRecent(THREE_FLOWS[n], Small(OURS, 2), Moment(k), fading);
    hide Recency, Fading;
  }

  lemma ThreeHeats(k: nat, gasEwma: real, low: real, high: real, fading: real -> real, c: Curves)
    requires Fading(fading) && k <= 2 && 0.0 <= low <= high <= 1.0
    requires low * (3 - k) as real <= 1.0 <= high * (1.0 + (2 - k) as real * 0.99)
    ensures HeatAt(low) <= Heat(THREE_FLOWS[k..], OURS, Moment(k), gasEwma, fading, c) <= HeatAt(high)
  {
    hide Heat, HeatAt, Bulk;
    var q, last, now := THREE_FLOWS[k..], Small(OURS, 2), Moment(k);
    var bulk, recency := Bulk(last, gasEwma, c), Recency(last, now, fading);
    assert q[|q| - 1] == last && !Aggressive(last, gasEwma);
    RecencyFloor(last, now, fading);
    BulkFloor(last, gasEwma, c);
    forall n | 0 <= n < |q| - 1 ensures Theirs(q[n], OURS, now, gasEwma, bulk, recency, fading, c) {
      SmallFlowsAreTheirs(k, k + n, gasEwma, fading, c);
    }
    hide Recency, Fading, Theirs, Aggressive;
    HeatOfLast(q, OURS, now, gasEwma, bulk, recency, low, high, fading, c);
  }

  lemma ThreeReadings(p: Policy, k: nat, fading: real -> real, c: Curves)
    requires k <= 2
    ensures Read(p, THREE_FLOWS, OURS, Moment(k), fading, c)
            == p.(density := (3 - k) as real / 2048.0,
                  clusterHeat := Heat(THREE_FLOWS[k..], OURS, Moment(k), p.gasEwmaGwei, fading, c))
  {
    OneExpiresAtATime(k);
    hide Heat, Prune;
  }

  lemma HeatsAt()
    ensures 0.2 <= HeatAt(1.0 / 3.0) && HeatAt(0.34) <= 0.30
    ensures 0.48 <= HeatAt(0.5) && HeatAt(0.51) <= 0.50
    ensures HeatAt(1.0) == 0.85
  {}

  /** As the two older flows expire the readings of that queue rise. */
  lemma ThreeFlowsRise(p: Policy, fading: real -> real, c: Curves)
    requires Fading(fading)
    ensures Rising(p, ReadAll(p, THREE_FLOWS, OURS, THREE_MOMENTS, fading, c))
  {
    hide Heat, Read, HeatAt, Fading;
    var readings := ReadAll(p, THREE_FLOWS, OURS, THREE_MOMENTS, fading, c);
    ThreeReadings(p, 0, fading, c);
    ThreeReadings(p, 1, fading, c);
    ThreeReadings(p, 2, fading, c);
    ThreeHeats(0, p.gasEwmaGwei, 1.0 / 3.0, 0.34, fading, c);
    ThreeHeats(1, p.gasEwmaGwei, 0.5, 0.51, fading, c);
    ThreeHeats(2, p.gasEwmaGwei, 1.0, 1.0, fading, c);
    HeatsAt();
    assert readings[0] == Read(p, THREE_FLOWS, OURS, Moment(0), fading, c);
    assert readings[1] == Read(p, THREE_FLOWS, OURS, Moment(1), fading, c);
    assert readings[2] == Read(p, THREE_FLOWS, OURS, Moment(2), fading, c);
    hide ReadAll;
    ThreeAreRising(p, readings);
  }

  lemma ThreeAreRising(p: Policy, readings: seq<Policy>)
    requires |readings| == 3
    requires forall k :: 0 <= k <= 2 ==>
               && readings[k] == p.(density := readings[k].density, clusterHeat := readings[k].clusterHeat)
               && readings[k].density == (3 - k) as real / 2048.0
    requires 0.2 <= readings[0].clusterHeat <= 0.30 && 0.48 <= readings[1].clusterHeat <= 0.50
    requires readings[2].clusterHeat == 0.85
    ensures Rising(p, readings)
  {
    assert Lift(readings[0]) <= 0.08 && 0.1 <= Lift(readings[1]) <= 0.13 && 0.2 <= Lift(readings[2]);
    hide Lift;
  }

  /** So a call can run in a ring, and give away both ties, on a queue of three flows that expire one by one. */
  lemma ThreeFlowsMakeARing(p: Policy, i: Input, fading: real -> real, c: Curves)
    requires c.Valid() && Fading(fading) && Stressed(p, i, c)
    ensures var readings := ReadAll(p, THREE_FLOWS, OURS, THREE_MOMENTS, fading, c);
            && Rising(p, readings)
            && var q := EasedCall(p, i, readings, c);
               && IsBetter(q[1], q[0]) && IsBetter(q[2], q[1]) && IsBetter(q[0], q[2])
               && Margin(q[Chosen(q)]) == Margin(q[0]) - 2.0 * EPSILON
  {
    hide Curves.Valid, Fading, Stressed, Rising, EasedCall, Read, Margin, IsBetter, Changes, Chosen;
    ThreeFlowsRise(p, fading, c);
    var readings := ReadAll(p, THREE_FLOWS, OURS, THREE_MOMENTS, fading, c);
    BetterRunsInCircles(p, i, readings, c);
    RisingChanges(p, readings);
    MarginLossIsTight(p, i, readings, c);
  }

  /** Averages after a bad run, short of every limit, and a candidate without profit in the default context. */
  const WORN := Policy(0.0, 0.0, 420.0, 360.0, 18000.0, 0.96, 0.96, 0.04, 0.04, 0.96, 0.96, 0.04, 0.04, 10.0, 3000.0,
                       3.0, 100, 1.0, 1.0, 1.0, None)

  const CANDIDATE := Input(0, 1_000_000_000_000_000, 30_000_000_000, 420.0, 1.0, 100, None, 0.5, 0.5)

  /** Such a market exists. */
  lemma WornIsStressed(c: Curves)
    ensures Stressed(WORN, CANDIDATE, c)
  {
    hide BuilderPathPressure, SizePressure;
    assert CANDIDATE.gasPriceWei as real / 1000000000.0 == 30.0;
    assert LatencyPenalty(WORN, 420.0) == 1.0;
  }
}
