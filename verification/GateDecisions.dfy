/** When the gate executes: the exact conditions of a decision, what its expected value is made of, and a
    market in which it always executes once the profit suffices. */
module GateDecisions {
  import opened Options
  import opened Reals
  import opened AdaptiveGate

  // ---------------------------------------------------------------- the decision and its account

  /** The least probability and the greatest competition and risk each regime accepts. */
  predicate Acceptable(q: Quote) {
    match q.regime
    case Calm => q.probability >= 0.54 && q.competition <= 0.78 && q.risk <= 0.80
    case Normal => q.probability >= 0.60 && q.competition <= 0.72 && q.risk <= 0.74
    case Hot => q.probability >= 0.66 && q.competition <= 0.64 && q.risk <= 0.66
    case Toxic => q.probability >= 0.74 && q.competition <= 0.52 && q.risk <= 0.56
  }

  /** A quote executes exactly when its expected value exceeds its threshold and its regime accepts its probability,
      competition and risk. */
  lemma ExecutesExactlyWhen(p: Policy, i: Input, c: Curves)
    requires p.maxImpactBps > 0
    ensures var q := MakeQuote(p, i, c);
            q.shouldExecute <==> q.evUsd > q.thresholdUsd && Acceptable(q)
  {
    hide Measure, Usd, Competition, Risk, BaseProbability, Blended, CompetitionShare, RiskShare, Threshold, PathStress,
         MarketRegime, Recalibrated, RegimeShift, Share, Gain;
  }

  /** What the expected value leaves out of the expected profit: the chance of failure, the cost, and the three
      penalties, each a share of the profit. */
  lemma ValueAccounts(p: Policy, i: Input, c: Curves)
    requires p.maxImpactBps > 0
    ensures var q, m, profit := MakeQuote(p, i, c), Measure(p, i, c), Usd(p, i.expectedProfitWei);
            profit - q.evUsd
            == profit * (1.0 - q.probability) + Usd(p, i.executionCostWei)
               + profit * (q.competition * CompetitionShare(m, q.regime, c) + q.risk * RiskShare(m, q.regime, c)
                           + PathStress(m) * 0.18)
  {
    hide Measure, Usd, Competition, Risk, BaseProbability, Blended, CompetitionShare, RiskShare, Threshold, PathStress,
         MarketRegime, Recalibrated, RegimeShift, Share, Gain;
    var q, m, profit := MakeQuote(p, i, c), Measure(p, i, c), Usd(p, i.expectedProfitWei);
    Collect(profit, q.probability, q.competition, CompetitionShare(m, q.regime, c), q.risk,
            RiskShare(m, q.regime, c), PathStress(m));
  }

  lemma Collect(profit: real, chance: real, a: real, x: real, b: real, y: real, path: real)
    ensures profit - (Gain(chance, profit) - Share(profit, a, x) - Share(profit, b, y) - Share(profit, path, 0.18))
            == profit * (1.0 - chance) + profit * (a * x + b * y + path * 0.18)
  {
    assert profit * (1.0 - chance) == profit - chance * profit;
    assert profit * (a * x + b * y + path * 0.18) == profit * (a * x) + profit * (b * y) + profit * (path * 0.18);
    assert profit * a * x == profit * (a * x) && profit * b * y == profit * (b * y);
  }

  // ---------------------------------------------------------------- regimes

  const NOTHING := Pressures(0.0, 0.0, 0.0, 0.0, 0.0, 0.0, 0.0, 0.0, 0.0, 0.0, 0.0)

  /** What one pressure alone makes of the market. */
  lemma OnePressure(x: real)
    requires 0.0 <= x <= 1.0
    ensures MarketRegime(NOTHING.(density := x)) == MarketRegime(NOTHING.(latency := x)) == Calm
    ensures MarketRegime(NOTHING.(heat := x)) == if x >= 0.55 then Hot else Calm
    ensures MarketRegime(NOTHING.(gas := x)) == if x >= 0.52 then Hot else Calm
    ensures MarketRegime(NOTHING.(failure := x)) == if x >= 0.72 then Toxic else Calm
    ensures MarketRegime(NOTHING.(poor := x)) == if x >= 0.62 then Toxic else Calm
    ensures MarketRegime(NOTHING.(builder := x)) == if x >= 0.72 then Toxic else if x >= 0.48 then Hot else Calm
    ensures MarketRegime(NOTHING.(size := x, impact := x, toxicity := x, priority := x)) == Calm
  {}

  /** Stress is a weighted mean: when all seven of its pressures are the same it is that pressure. */
  lemma EvenPressure(x: real)
    requires 0.0 <= x <= 1.0
    ensures var m := Pressures(x, x, x, 0.0, 0.0, x, x, x, x, 0.0, 0.0);
            && Stress(m) == x
            && MarketRegime(m)
               == if x >= 0.62 then Toxic else if x >= 0.48 then Hot else if x >= 0.30 then Normal else Calm
  {}

  /** How history moves the regime: a dozen bad samples make any market toxic, half a dozen worrying ones raise it one
      step, a dozen good ones lower it one, and with fewer, or in between, it stays. */
  lemma HistoryMoves(f: Profile, r: Regime)
    requires 0.0 <= f.successRate <= 1.0 && 0.0 <= f.missRate <= 1.0 && 0.0 <= f.revertRate <= 1.0
    requires 0.0 <= f.capture <= 1.0
    ensures var moved, trouble :=
              Recalibrated(r, RegimeShift(Some(f))),
              (1.0 - f.successRate) * 0.28 + f.missRate * 0.34 + f.revertRate * 0.22 + (1.0 - f.capture) * 0.16;
            && (f.samples < 6 ==> moved == r)
            && (f.samples >= 12 && trouble >= 0.54 ==> moved == Toxic)
            && (f.samples >= 6 && 0.42 <= trouble < 0.54 ==>
                  Rank(moved) == if r.Toxic? then 3 else Rank(r) + 1)
            && (6 <= f.samples < 12 && trouble >= 0.42 ==> Rank(moved) == if r.Toxic? then 3 else Rank(r) + 1)
            && (f.samples >= 12 && trouble <= 0.18 && f.successRate >= 0.82 && f.capture >= 0.82 ==>
                  Rank(moved) == if r.Calm? then 0 else Rank(r) - 1)
            && (0.18 < trouble < 0.42 ==> moved == r)
  {}

  // ---------------------------------------------------------------- a market in which the gate executes

  /** Nothing stresses the market but the size of the trade: no flow, gas no dearer than usual, every latency within
      its target, no failures, full capture, no pressure on the path, no impact, no history, neutral multipliers, full
      priority and no toxicity. */
  predicate Quiet(p: Policy, i: Input) {
    && SanePolicy(p) && p.history.None? && p.competitionMult == p.riskMult == p.thresholdMult == 1.0
    && p.density <= 0.0 && p.clusterHeat <= 0.0
    && (p.gasEwmaGwei <= EPSILON || i.gasPriceWei as real / 1000000000.0 <= p.gasEwmaGwei)
    && i.lookupLatencyMs <= 140.0 && p.lookupEwmaMs <= 140.0 && p.submitEwmaMs <= 120.0 && p.finalizeEwmaMs <= 6000.0
    && p.failureRate <= 0.0 && p.timeoutRate <= 0.0 && p.capture >= 1.0
    && (i.relayPressure.None? ==>
          p.rejectRate <= 0.0 && p.acceptRate >= 1.0 && p.inclusionRate >= 1.0 && p.missRate <= 0.0
          && p.revertRate <= 0.0)
    && (i.relayPressure.Some? ==> i.relayPressure.value <= 0.0)
    && i.priceImpactBps == 0 && i.priority >= 1.0 && i.toxicity <= 0.0
  }

  lemma WithinTarget(value: real, target: real)
    requires value <= target && target > 0.0
    ensures Overrun(value, target) == 0.0
  {
    QuotientMonotone(value, target, target);
  }

  lemma QuietGas(p: Policy, gwei: real)
    requires p.gasEwmaGwei <= EPSILON || gwei <= p.gasEwmaGwei
    ensures GasPressure(p, gwei) == 0.0
  {
    if p.gasEwmaGwei > EPSILON { WithinTarget(gwei, p.gasEwmaGwei); }
  }

  lemma QuietMeasure(p: Policy, i: Input, c: Curves)
    requires Quiet(p, i)
    ensures var m := Measure(p, i, c);
            m == NOTHING.(size := m.size, priority := 1.0) && 0.0 <= m.size <= 1.0
  {
    WithinTarget(i.lookupLatencyMs, 140.0);
    WithinTarget(p.lookupEwmaMs, 140.0);
    WithinTarget(p.submitEwmaMs, 120.0);
    WithinTarget(p.finalizeEwmaMs, 6000.0);
    QuietGas(p, i.gasPriceWei as real / 1000000000.0);
    assert LatencyPenalty(p, i.lookupLatencyMs) == 0.0;
    assert i.relayPressure.None? ==> BuilderPathPressure(p) == 0.0;
    assert i.priceImpactBps as real / p.maxImpactBps as real == 0.0;
    hide LatencyPenalty, BuilderPathPressure, GasPressure, Overrun;
    forall raw: real | raw <= 0.0 ensures Unit(Weathered(raw, 0.0, 0.0)) == 0.0 {}
    hide Weathered;
  }

  /** In a quiet market competition is at most 0.64, risk at most half and the chance of success at least 0.69,
      whatever the curves. */
  lemma QuietScores(p: Policy, m: Pressures, c: Curves)
    requires c.Valid() && p.history.None? && p.competitionMult == p.riskMult == 1.0
    requires m == NOTHING.(size := m.size, priority := 1.0) && 0.0 <= m.size <= 1.0
    ensures MarketRegime(m) == Calm
    ensures 0.0 <= Competition(p, m, Calm, c) <= 0.64
    ensures 0.0 <= Risk(p, m, Calm, c) <= 0.50
    ensures Blended(BaseProbability(Competition(p, m, Calm, c), Risk(p, m, Calm, c), m, Calm), p.history) >= 0.69
    ensures CompetitionShare(m, Calm, c) == 0.30 && RiskShare(m, Calm, c) == 0.42 && PathStress(m) == 0.0
  {
    QuietCompetition(p, m, c);
    QuietRisk(p, m, c);
    hide Competition, Risk, Curves.Valid;
  }

  lemma QuietCompetition(p: Policy, m: Pressures, c: Curves)
    requires c.Valid() && p.history.None? && p.competitionMult == 1.0
    requires m == NOTHING.(size := m.size, priority := 1.0) && 0.0 <= m.size <= 1.0
    ensures 0.0 <= Competition(p, m, Calm, c) <= 0.64
  {
    Within(c, (m.heat - 0.52) * 9.0);
    Within(c, (m.density - 0.62) * 8.0);
    Within(c, (m.gas - 0.58) * 8.5);
    Within(c, (m.builder - 0.45) * 10.0);
    hide Curves.Valid;
    assert 0.0 <= CompetitionJump(m, c) <= 0.52;
    hide CompetitionJump;
  }

  lemma QuietRisk(p: Policy, m: Pressures, c: Curves)
    requires c.Valid() && p.history.None? && p.riskMult == 1.0
    requires m == NOTHING.(size := m.size, priority := 1.0) && 0.0 <= m.size <= 1.0
    ensures 0.0 <= Risk(p, m, Calm, c) <= 0.50
  {
    Within(c, (m.failure - 0.48) * 10.0);
    Within(c, (m.latency - 0.45) * 8.0);
    Within(c, (m.poor - 0.32) * 9.0);
    Within(c, (m.builder - 0.42) * 10.5);
    hide Curves.Valid;
    assert 0.0 <= RiskJump(m, c) <= 0.54;
    hide RiskJump;
  }

  lemma Within(c: Curves, x: real)
    requires c.Valid()
    ensures 0.0 < c.logistic(x) < 1.0
  {}

  lemma QuietThreshold(p: Policy, m: Pressures)
    requires p.history.None? && p.thresholdMult == 1.0
    requires m == NOTHING.(size := m.size, priority := 1.0)
    ensures Threshold(p, m, Calm) == p.baseThresholdUsd * 0.8464
  {}

  lemma QuietValue(profit: real, chance: real, competition: real, risk: real)
    requires profit >= 0.0 && 0.69 <= chance && competition <= 0.64 && risk <= 0.50
    ensures Gain(chance, profit) - Share(profit, competition, 0.30) - Share(profit, risk, 0.42)
            - Share(profit, 0.0, 0.18) >= profit * 0.28
  {
    ProductMonotone(0.69, chance, profit);
    ProductMonotone(competition, 0.64, profit);
    ProductMonotone(risk, 0.50, profit);
    assert profit * competition * 0.30 <= profit * 0.64 * 0.30;
    assert profit * risk * 0.42 <= profit * 0.50 * 0.42;
  }

  lemma QuietDecision(p: Policy, m: Pressures, profit: real, cost: real, c: Curves)
    requires c.Valid() && p.history.None? && p.competitionMult == p.riskMult == p.thresholdMult == 1.0
    requires m == NOTHING.(size := m.size, priority := 1.0) && 0.0 <= m.size <= 1.0
    requires profit >= 0.0 && profit * 0.28 > cost + p.baseThresholdUsd * 0.8464
    ensures var q := Decide(p, m, profit, cost, c);
            q.shouldExecute && q.regime == Calm && q.competition <= 0.64 && q.risk <= 0.50 && q.probability >= 0.69
  {
    hide Curves.Valid, Competition, Risk, BaseProbability, Blended, CompetitionShare, RiskShare, Threshold, PathStress,
         MarketRegime, Share, Gain;
    QuietScores(p, m, c);
    QuietThreshold(p, m);
    var q := Decide(p, m, profit, cost, c);
    assert q.regime == Calm;
    QuietValue(profit, q.probability, q.competition, q.risk);
  }

  /** For all valid curves, a quiet market executes once 28 percent of the expected profit exceeds the cost and the
      base threshold less what calm and priority take off it. */
  lemma QuietMarketExecutes(p: Policy, i: Input, c: Curves)
    requires c.Valid() && Quiet(p, i)
    requires Usd(p, i.expectedProfitWei) * 0.28 > Usd(p, i.executionCostWei) + p.baseThresholdUsd * 0.8464
    ensures var q := MakeQuote(p, i, c);
            q.shouldExecute && q.regime == Calm && q.competition <= 0.64 && q.risk <= 0.50 && q.probability >= 0.69
  {
    hide Curves.Valid, Measure, Usd, Decide;
    QuietMeasure(p, i, c);
    UsdRises(p, 0, i.expectedProfitWei);
    QuietDecision(p, Measure(p, i, c), Usd(p, i.expectedProfitWei), Usd(p, i.executionCostWei), c);
  }

  const CALM_POLICY := Policy(0.0, 0.0, 140.0, 120.0, 6000.0, 0.0, 0.0, 1.0, 0.0, 1.0, 1.0, 0.0, 0.0, 25.0, 3000.0, 5.0,
                              100, 1.0, 1.0, 1.0, None)

  const GOOD_CANDIDATE := Input(100_000_000_000_000_000, 10_000_000_000_000_000, 25_000_000_000, 140.0, 1.0, 0, None,
                                1.0, 0.0)

  /** A tenth of an ether of profit at a cost of a hundredth, in a calm market, executes whatever the curves. */
  lemma GoodCandidateExecutes(c: Curves)
    requires c.Valid()
    ensures MakeQuote(CALM_POLICY, GOOD_CANDIDATE, c).shouldExecute
  {
    hide MakeQuote, Curves.Valid;
    assert Usd(CALM_POLICY, GOOD_CANDIDATE.expectedProfitWei) == 300.0;
    assert Usd(CALM_POLICY, GOOD_CANDIDATE.executionCostWei) == 30.0;
    assert GOOD_CANDIDATE.gasPriceWei as real / 1000000000.0 == 25.0;
    QuietMarketExecutes(CALM_POLICY, GOOD_CANDIDATE, c);
  }
}
