/** Quotes worked out to the last digit, one market of each regime and one with a history: what every weight, limit and
    multiplier of the gate comes to. */
module GateExamples {
  import opened Options
  import opened Reals
  import opened AdaptiveGate

  /** Curves that can be computed with: a logistic in two steps, and a size pressure of one half. */
  const STEPS := Curves(x => if x < 0.0 then 0.2 else 0.6, x => 4.0)

  lemma StepsAreCurves()
    ensures STEPS.Valid()
  {}

  const MARKET := Policy(0.25, 0.5, 210.0, 180.0, 9000.0, 0.1, 0.2, 0.9, 0.1, 0.9, 0.8, 0.1, 0.05, 20.0, 2000.0, 5.0,
                         100, 1.08, 0.95, 1.05, None)

  const SEASONED := MARKET.(history := Some(Profile(24, 0.75, 0.1, 0.05, 0.8)))

  const TRADE := Input(1_000_000_000_000_000_000, 10_000_000_000_000_000, 24_000_000_000, 280.0, 1.0, 10, None, 0.5,
                       0.25)

  const READING := Pressures(0.25, 0.5, 0.1, 0.5, 0.1, 0.3375, 0.135, 0.1, 0.143, 0.25, 0.5)

  const RECALLED := READING.(builder := 0.149325)

  const DENSER := READING.(density := 0.7, failure := 0.265)

  const HOTTER := READING.(heat := 0.7, builder := 0.5)

  const FAILING := READING.(density := 0.3, gas := 0.7, failure := 0.765)

  // ---------------------------------------------------------------- pressures and regimes

  lemma PathPressure()
    ensures BuilderPathPressure(MARKET) == 0.143 && BuilderPathPressure(SEASONED) == 0.143
  {}

  lemma WorkedPressures()
    ensures Measure(MARKET, TRADE, STEPS) == READING && Measure(SEASONED, TRADE, STEPS) == RECALLED
  {
    PathPressure();
    assert TRADE.gasPriceWei as real / 1000000000.0 == 24.0;
    assert LatencyPenalty(MARKET, 280.0) == LatencyPenalty(SEASONED, 280.0) == 0.3375;
    hide LatencyPenalty, BuilderPathPressure;
  }

  lemma Regimes()
    ensures MarketRegime(READING) == Calm
    ensures MarketRegime(DENSER) == Normal
    ensures MarketRegime(HOTTER) == Hot
    ensures MarketRegime(FAILING) == Toxic
    ensures MarketRegime(RECALLED) == Calm
    ensures RegimeShift(MARKET.history) == RegimeShift(SEASONED.history) == 0
  {}

  // ---------------------------------------------------------------- scores

  lemma CompetitionScores()
    ensures CompetitionScore(READING, Calm, STEPS) == 0.4308
    ensures CompetitionScore(DENSER, Normal, STEPS) == 0.5683
    ensures CompetitionScore(HOTTER, Hot, STEPS) == 0.7785
    ensures CompetitionScore(FAILING, Toxic, STEPS) == 0.7403
    ensures CompetitionScore(RECALLED, Calm, STEPS) == 0.4314325
  {}

  lemma Competitions()
    ensures Competition(MARKET, READING, Calm, STEPS) == 0.503183016
    ensures Competition(MARKET, DENSER, Normal, STEPS) == 0.663785766
    ensures Competition(MARKET, HOTTER, Hot, STEPS) == 0.90930357
    ensures Competition(MARKET, FAILING, Toxic, STEPS) == 0.864685206
    ensures Competition(SEASONED, RECALLED, Calm, STEPS) == 0.523826699301675
  {
    CompetitionScores();
    hide CompetitionScore;
  }

  lemma RiskScores()
    ensures RiskScore(READING, Calm, STEPS) == 0.2602
    ensures RiskScore(DENSER, Normal, STEPS) == 0.3348
    ensures RiskScore(HOTTER, Hot, STEPS) == 0.4122
    ensures RiskScore(FAILING, Toxic, STEPS) == 0.7808
    ensures RiskScore(RECALLED, Calm, STEPS) == 0.2602
  {}

  lemma Risks()
    ensures Risk(MARKET, READING, Calm, STEPS) == 0.251540544
    ensures Risk(MARKET, DENSER, Normal, STEPS) == 0.323657856
    ensures Risk(MARKET, HOTTER, Hot, STEPS) == 0.398481984
    ensures Risk(MARKET, FAILING, Toxic, STEPS) == 0.754814976
    ensures Risk(SEASONED, RECALLED, Calm, STEPS) == 0.263362949568
  {
    RiskScores();
    hide RiskScore;
  }

  // ---------------------------------------------------------------- chances, penalties, thresholds

  function Chance(p: Policy, m: Pressures, r: Regime): real {
    Blended(BaseProbability(Competition(p, m, r, STEPS), Risk(p, m, r, STEPS), m, r), p.history)
  }

  lemma Chances()
    ensures Chance(MARKET, READING, Calm) == 0.71594260024
    ensures Chance(MARKET, DENSER, Normal) == 0.60068082098
    ensures Chance(MARKET, HOTTER, Hot) == 0.46295110838
    ensures Chance(MARKET, FAILING, Toxic) == 0.19225384578
    ensures Chance(SEASONED, RECALLED, Calm) == 0.7258858230414994
  {
    Competitions();
    Risks();
    hide Competition, Risk;
  }

  lemma Penalties()
    ensures CompetitionShare(READING, Calm, STEPS) == 0.3 && RiskShare(READING, Calm, STEPS) == 0.42
    ensures PathStress(READING) == 0.18377
    ensures CompetitionShare(DENSER, Normal, STEPS) == 0.4 && RiskShare(DENSER, Normal, STEPS) == 0.54
    ensures PathStress(DENSER) == 0.21497
    ensures CompetitionShare(HOTTER, Hot, STEPS) == 0.932 && RiskShare(HOTTER, Hot, STEPS) == 0.812
    ensures PathStress(HOTTER) == 0.30515
    ensures CompetitionShare(FAILING, Toxic, STEPS) == 0.78 && RiskShare(FAILING, Toxic, STEPS) == 1.036
    ensures PathStress(FAILING) == 0.40697
    ensures CompetitionShare(RECALLED, Calm, STEPS) == 0.3 && RiskShare(RECALLED, Calm, STEPS) == 0.42
    ensures PathStress(RECALLED) == 0.1859205
  {}

  lemma Thresholds()
    ensures Threshold(MARKET, READING, Calm) == 7.01399137824
    ensures Threshold(MARKET, DENSER, Normal) == 9.33504064416
    ensures Threshold(MARKET, HOTTER, Hot) == 12.1995099072
    ensures Threshold(MARKET, FAILING, Toxic) == 19.7306072964
    ensures Threshold(SEASONED, RECALLED, Calm) == 7.791008617139961906
  {}

  lemma Amounts()
    ensures Usd(MARKET, TRADE.expectedProfitWei) == Usd(SEASONED, TRADE.expectedProfitWei) == 2000.0
    ensures Usd(MARKET, TRADE.executionCostWei) == Usd(SEASONED, TRADE.executionCostWei) == 20.0
  {}

  // ---------------------------------------------------------------- the quotes

  /** A calm market, worked out. */
  lemma WorkedCalm()
    ensures MakeQuote(MARKET, TRADE, STEPS)
            == Quote(true, Calm, 832.52413392, 7.01399137824, 0.71594260024, 0.503183016, 0.251540544, 0.143)
  {
    WorkedPressures();
    Regimes();
    Competitions();
    Risks();
    Chances();
    Penalties();
    Thresholds();
    Amounts();
    hide MarketRegime, RegimeShift, Competition, Risk, BaseProbability, Blended, CompetitionShare, RiskShare,
         PathStress, Threshold, Measure, Usd;
  }

  /** Denser flow and more failures: a normal market. */
  lemma WorkedNormal()
    ensures Decide(MARKET, DENSER, 2000.0, 20.0, STEPS)
            == Quote(true, Normal, 223.39334468, 9.33504064416, 0.60068082098, 0.663785766, 0.323657856, 0.143)
  {
    WorkedPressures();
    Regimes();
    Competitions();
    Risks();
    Chances();
    Penalties();
    Thresholds();
    Amounts();
    hide MarketRegime, RegimeShift, Competition, Risk, BaseProbability, Blended, CompetitionShare, RiskShare,
         PathStress, Threshold, Measure, Usd;
  }

  /** A hotter cluster behind a slow path: a hot market, and a rejection. */
  lemma WorkedHot()
    ensures Decide(MARKET, HOTTER, 2000.0, 20.0, STEPS)
            == Quote(false, Hot, -1546.028379736, 12.1995099072, 0.46295110838, 0.90930357, 0.398481984, 0.5)
  {
    WorkedPressures();
    Regimes();
    Competitions();
    Risks();
    Chances();
    Penalties();
    Thresholds();
    Amounts();
    hide MarketRegime, RegimeShift, Competition, Risk, BaseProbability, Blended, CompetitionShare, RiskShare,
         PathStress, Threshold, Measure, Usd;
  }

  /** Mostly failures, at a high gas price: a toxic market. */
  lemma WorkedToxic()
    ensures Decide(MARKET, FAILING, 2000.0, 20.0, STEPS)
            == Quote(false, Toxic, -2694.887060072, 19.7306072964, 0.19225384578, 0.864685206, 0.754814976, 0.143)
  {
    WorkedPressures();
    Regimes();
    Competitions();
    Risks();
    Chances();
    Penalties();
    Thresholds();
    Amounts();
    hide MarketRegime, RegimeShift, Competition, Risk, BaseProbability, Blended, CompetitionShare, RiskShare,
         PathStress, Threshold, Measure, Usd;
  }

  /** The calm market seen through a profile of two dozen samples. */
  lemma WorkedHistory()
    ensures MakeQuote(SEASONED, TRADE, STEPS)
            == Quote(true, Calm, 829.3193688648738, 7.791008617139961906, 0.7258858230414994, 0.523826699301675,
                     0.263362949568, 0.149325)
  {
    WorkedPressures();
    Regimes();
    Competitions();
    Risks();
    Chances();
    Penalties();
    Thresholds();
    Amounts();
    hide MarketRegime, RegimeShift, Competition, Risk, BaseProbability, Blended, CompetitionShare, RiskShare,
         PathStress, Threshold, Measure, Usd;
  }
}
