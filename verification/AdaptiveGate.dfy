/** The adaptive quote: market pressures, regime, scores, penalties and thresholds, over exact reals. The
    logistic curve and ln(1 + x) are any increasing functions with their ranges. */
module AdaptiveGate {
  import opened Options
  import opened Reals

  datatype Regime = Calm | Normal | Hot | Toxic

  function Rank(r: Regime): nat { match r case Calm => 0 case Normal => 1 case Hot => 2 case Toxic => 3 }

  datatype Curves = Curves(logistic: real -> real, ln1p: real -> real) {
    ghost predicate Valid() {
      && (forall x, y :: x <= y ==> logistic(x) <= logistic(y))
      && (forall x :: 0.0 < logistic(x) < 1.0)
      && (forall x, y :: 0.0 <= x <= y ==> ln1p(x) <= ln1p(y))
    }
  }

  /** A historical profile of the pair, router and hour. */
  datatype Profile = Profile(samples: nat, successRate: real, missRate: real, revertRate: real, capture: real)

  /** The policy's running averages, the flow-derived density and cluster heat, and its constants. */
  datatype Policy = Policy(
    density: real, clusterHeat: real,
    lookupEwmaMs: real, submitEwmaMs: real, finalizeEwmaMs: real,
    failureRate: real, timeoutRate: real, capture: real,
    rejectRate: real, acceptRate: real, inclusionRate: real, missRate: real, revertRate: real,
    gasEwmaGwei: real, ethUsd: real, baseThresholdUsd: real, maxImpactBps: nat,
    competitionMult: real, riskMult: real, thresholdMult: real,
    history: Option<Profile>)

  datatype Input = Input(
    expectedProfitWei: nat, executionCostWei: nat, gasPriceWei: nat, lookupLatencyMs: real, notionalEth: real,
    priceImpactBps: nat, relayPressure: Option<real>, priority: real, toxicity: real)

  // ---------------------------------------------------------------- pressures

  /** Everything the decision reads, each as a share. */
  datatype Pressures = Pressures(
    density: real, heat: real, gas: real, size: real, impact: real, latency: real, failure: real, poor: real,
    builder: real, toxicity: real, priority: real)

  function Unit(x: real): real { Clamp(x, 0.0, 1.0) }

  function Overrun(value: real, target: real): real
    requires target > 0.0
  { Clamp(value / target - 1.0, 0.0, 2.0) / 2.0 }

  function GasPressure(p: Policy, gwei: real): real {
    if p.gasEwmaGwei <= EPSILON then 0.0 else Overrun(gwei, p.gasEwmaGwei)
  }

  function LatencyPenalty(p: Policy, lookupMs: real): real {
    Unit(Overrun(lookupMs, 140.0) * 0.35 + Overrun(p.lookupEwmaMs, 140.0) * 0.20
         + Overrun(p.submitEwmaMs, 120.0) * 0.25 + Overrun(p.finalizeEwmaMs, 6000.0) * 0.20)
  }

  function BuilderSum(p: Policy): real {
    Unit(p.rejectRate) * 0.24 + Unit(1.0 - p.acceptRate) * 0.12 + Unit(1.0 - p.inclusionRate) * 0.12
    + Unit(p.missRate) * 0.24 + Unit(p.revertRate) * 0.16 + Overrun(p.submitEwmaMs, 120.0) * 0.10
    + Overrun(p.finalizeEwmaMs, 6000.0) * 0.08 + Unit(1.0 - p.capture) * 0.06
  }

  function BuilderPathPressure(p: Policy): real {
    Unit(BuilderSum(p))
  }

  function SizePressure(c: Curves, notionalEth: real): real { Unit(c.ln1p(MaxReal(notionalEth, 0.0)) / 8.0) }

  function Confidence(h: Option<Profile>): real {
    if h.None? then 0.0 else Unit((if h.value.samples < 48 then h.value.samples else 48) as real / 48.0)
  }

  function HistoricalPressure(h: Option<Profile>): real {
    if h.None? then 0.0
    else Unit(Unit(1.0 - h.value.successRate) * 0.24 + Unit(h.value.missRate) * 0.36 + Unit(h.value.revertRate) * 0.24
              + Unit(1.0 - h.value.capture) * 0.16)
  }

  /** The relay pressure, pulled towards the historical one by its confidence. */
  function Weathered(raw: real, historical: real, confidence: real): real {
    raw * (1.0 - confidence * 0.45) + historical * confidence * 0.55
  }

  function Measure(p: Policy, i: Input, c: Curves): Pressures
    requires p.maxImpactBps > 0
  {
    var raw := if i.relayPressure.Some? then i.relayPressure.value else BuilderPathPressure(p);
    var confidence := Confidence(p.history);
    Pressures(
      Unit(p.density), Unit(p.clusterHeat), GasPressure(p, i.gasPriceWei as real / 1000000000.0),
      SizePressure(c, i.notionalEth), Unit(i.priceImpactBps as real / p.maxImpactBps as real),
      LatencyPenalty(p, i.lookupLatencyMs), Unit(p.failureRate * 0.65 + p.timeoutRate * 0.35),
      Unit(1.0 - p.capture),
      Unit(Weathered(raw, HistoricalPressure(p.history), confidence)),
      Unit(i.toxicity), Unit(i.priority))
  }

  // ---------------------------------------------------------------- regime

  function Stress(m: Pressures): real {
    Unit(m.density * 0.20 + m.heat * 0.20 + m.gas * 0.10 + m.latency * 0.12 + m.failure * 0.14 + m.poor * 0.10
         + m.builder * 0.14)
  }

  function MarketRegime(m: Pressures): Regime {
    if Stress(m) >= 0.82 || m.failure >= 0.72 || m.poor >= 0.62 || m.builder >= 0.72 then Toxic
    else if Stress(m) >= 0.58 || m.heat >= 0.55 || m.gas >= 0.52 || m.builder >= 0.48 then Hot
    else if Stress(m) >= 0.30 then Normal
    else Calm
  }

  function RegimeShift(h: Option<Profile>): int {
    if h.None? then 0
    else
      var f := h.value;
      var stress := Unit(Unit(1.0 - f.successRate) * 0.28 + Unit(f.missRate) * 0.34 + Unit(f.revertRate) * 0.22
                         + Unit(1.0 - f.capture) * 0.16);
      if f.samples >= 12 && stress >= 0.54 then 2
      else if f.samples >= 6 && stress >= 0.42 then 1
      else if f.samples >= 12 && stress <= 0.18 && f.successRate >= 0.82 && f.capture >= 0.82 then -1
      else 0
  }

  function Recalibrated(r: Regime, shift: int): Regime {
    if shift <= -2 then Calm
    else if shift == -1 then (match r case Toxic => Hot case Hot => Normal case Normal => Calm case Calm => Calm)
    else if shift == 0 then r
    else if shift == 1 then (match r case Calm => Normal case Normal => Hot case Hot => Toxic case Toxic => Toxic)
    else Toxic
  }

  // ---------------------------------------------------------------- products kept whole

  /** A score or threshold times its four multipliers, left to right. */
  function Chain(a: real, k: real, b: real, c: real, d: real): real { a * k * b * c * d }

  /** A penalty: a share of the expected profit. */
  function Share(profit: real, a: real, b: real): real { profit * a * b }

  function Mix(base: real, target: real, weight: real): real { base * (1.0 - weight) + target * weight }

  function Gain(probability: real, profit: real): real { probability * profit }

  // ---------------------------------------------------------------- scores and probability

  function CompetitionBump(r: Regime): real {
    match r case Calm => 0.0 case Normal => 0.03 case Hot => 0.10 case Toxic => 0.18
  }

  function RiskBump(r: Regime): real {
    match r case Calm => 0.0 case Normal => 0.02 case Hot => 0.08 case Toxic => 0.15
  }

  function RegimeDrag(r: Regime): real {
    match r case Calm => 0.00 case Normal => 0.03 case Hot => 0.08 case Toxic => 0.16
  }

  function CompetitionWeight(r: Regime): real {
    match r case Calm => 0.30 case Normal => 0.40 case Hot => 0.56 case Toxic => 0.78
  }

  function RiskWeight(r: Regime): real {
    match r case Calm => 0.42 case Normal => 0.54 case Hot => 0.68 case Toxic => 0.88
  }

  function ThresholdWeight(r: Regime): real {
    match r case Calm => 0.92 case Normal => 1.08 case Hot => 1.42 case Toxic => 1.95
  }

  function MinProbability(r: Regime): real {
    match r case Calm => 0.54 case Normal => 0.60 case Hot => 0.66 case Toxic => 0.74
  }

  function MaxCompetition(r: Regime): real {
    match r case Calm => 0.78 case Normal => 0.72 case Hot => 0.64 case Toxic => 0.52
  }

  function MaxRisk(r: Regime): real {
    match r case Calm => 0.80 case Normal => 0.74 case Hot => 0.66 case Toxic => 0.56
  }

  function CompetitionBase(m: Pressures): real {
    Unit(m.heat * 0.38 + m.density * 0.15 + m.gas * 0.15 + m.size * 0.12 + m.impact * 0.10 + m.builder * 0.10)
  }

  function CompetitionJump(m: Pressures, c: Curves): real {
    c.logistic((m.heat - 0.52) * 9.0) * 0.18 + c.logistic((m.density - 0.62) * 8.0) * 0.10
    + c.logistic((m.gas - 0.58) * 8.5) * 0.08 + c.logistic((m.builder - 0.45) * 10.0) * 0.16
  }

  function CompetitionScore(m: Pressures, r: Regime, c: Curves): real {
    Unit(CompetitionBase(m) + CompetitionJump(m, c) + CompetitionBump(r))
  }

  function RiskBase(m: Pressures): real {
    Unit(m.failure * 0.42 + m.latency * 0.20 + m.poor * 0.16 + m.gas * 0.07 + m.impact * 0.05)
  }

  function RiskJump(m: Pressures, c: Curves): real {
    c.logistic((m.failure - 0.48) * 10.0) * 0.16 + c.logistic((m.latency - 0.45) * 8.0) * 0.09
    + c.logistic((m.poor - 0.32) * 9.0) * 0.11 + c.logistic((m.builder - 0.42) * 10.5) * 0.18
  }

  function RiskScore(m: Pressures, r: Regime, c: Curves): real { Unit(RiskBase(m) + RiskJump(m, c) + RiskBump(r)) }

  /** The multipliers a historical profile contributes; 1 without one. */
  datatype Calibration = Calibration(competition: real, risk: real, threshold: real)

  function Calibrate(h: Option<Profile>): Calibration {
    if h.None? then Calibration(1.0, 1.0, 1.0)
    else
      var f := h.value;
      var instability, miss, revert, poor :=
        Unit(1.0 - f.successRate), Unit(f.missRate), Unit(f.revertRate), Unit(1.0 - f.capture);
      var confidence := Confidence(h);
      Calibration(
        MaxReal(1.0 + (miss * 0.34 + instability * 0.18) * confidence, 0.000000001),
        MaxReal(1.0 + (revert * 0.42 + poor * 0.24 + instability * 0.10) * confidence, 0.000000001),
        MaxReal(1.0 + (miss * 0.26 + revert * 0.18 + instability * 0.18 + poor * 0.14) * confidence, 0.000000001))
  }

  function Competition(p: Policy, m: Pressures, r: Regime, c: Curves): real {
    Unit(Chain(CompetitionScore(m, r, c), p.competitionMult, 1.0 + (1.0 - m.priority) * 0.06, 1.0 + m.toxicity * 0.20,
               Calibrate(p.history).competition))
  }

  function Risk(p: Policy, m: Pressures, r: Regime, c: Curves): real {
    Unit(Chain(RiskScore(m, r, c), p.riskMult, 1.0 + m.toxicity * 0.24, 1.0 - m.priority * 0.08,
               Calibrate(p.history).risk))
  }

  function BaseProbability(competition: real, risk: real, m: Pressures, r: Regime): real {
    var drag := competition * 0.29 + risk * 0.23 + m.failure * 0.17 + m.latency * 0.10 + m.poor * 0.09 + m.gas * 0.06
                + m.builder * 0.06;
    Clamp(1.0 - drag - RegimeDrag(r), 0.04, 0.985)
  }

  function Blended(base: real, h: Option<Profile>): real {
    if h.None? then base
    else
      var f := h.value;
      var target := Clamp(f.successRate * 0.62 + (1.0 - f.missRate) * 0.18 + (1.0 - f.revertRate) * 0.10
                          + Unit(f.capture) * 0.10, 0.04, 0.99);
      Clamp(Mix(base, target, Confidence(h) * 0.40), 0.04, 0.99)
  }

  // ---------------------------------------------------------------- penalties and thresholds, per dollar of profit

  function JumpAbove(x: real, start: real, slope: real, height: real, c: Curves): real {
    if x > start then c.logistic((x - start) * slope) * height else 0.0
  }

  function CompetitionShare(m: Pressures, r: Regime, c: Curves): real {
    CompetitionWeight(r) + (JumpAbove(m.heat, 0.58, 11.0, 0.34, c) + JumpAbove(m.builder, 0.44, 10.5, 0.28, c))
  }

  function RiskShare(m: Pressures, r: Regime, c: Curves): real {
    RiskWeight(r) + (JumpAbove(m.failure, 0.42, 12.0, 0.26, c) + JumpAbove(m.builder, 0.46, 9.5, 0.22, c))
  }

  function PathStress(m: Pressures): real {
    Unit(m.builder * 0.34 + m.failure * 0.24 + m.latency * 0.18 + m.gas * 0.12 + m.toxicity * 0.12)
  }

  function DynamicThreshold(p: Policy, m: Pressures, r: Regime): real {
    var continuous := 1.0 + m.density * 0.28 + m.failure * 0.52 + m.gas * 0.22 + m.latency * 0.24 + m.poor * 0.30
                      + m.heat * 0.24 + m.builder * 0.38;
    Share(p.baseThresholdUsd, ThresholdWeight(r), continuous)
  }

  function ThresholdPenalty(h: Option<Profile>): real {
    if h.None? then 1.0
    else
      var f := h.value;
      1.0 + Unit(f.missRate * 0.34 + f.revertRate * 0.26 + Unit(1.0 - f.successRate) * 0.24
                 + Unit(1.0 - f.capture) * 0.16)
            * Confidence(h) * 0.75
  }

  function Threshold(p: Policy, m: Pressures, r: Regime): real {
    Chain(DynamicThreshold(p, m, r), p.thresholdMult, 1.0 + m.toxicity * 0.18, 1.0 - m.priority * 0.08,
          Calibrate(p.history).threshold)
    * ThresholdPenalty(p.history)
  }

  // ---------------------------------------------------------------- the quote

  datatype Quote = Quote(
    shouldExecute: bool, regime: Regime, evUsd: real, thresholdUsd: real, probability: real, competition: real,
    risk: real, builder: real)

  /** The decision from measured pressures. */
  function Decide(p: Policy, m: Pressures, profitUsd: real, costUsd: real, c: Curves): Quote {
    var regime := Recalibrated(MarketRegime(m), RegimeShift(p.history));
    var competition := Competition(p, m, regime, c);
    var risk := Risk(p, m, regime, c);
    var probability := Blended(BaseProbability(competition, risk, m, regime), p.history);
    var competitionPenalty := Share(profitUsd, competition, CompetitionShare(m, regime, c));
    var riskPenalty := Share(profitUsd, risk, RiskShare(m, regime, c));
    var pathPenalty := Share(profitUsd, PathStress(m), 0.18);
    var ev := Gain(probability, profitUsd) - costUsd - competitionPenalty - riskPenalty - pathPenalty;
    var threshold := Threshold(p, m, regime);
    Quote(ev > threshold && probability >= MinProbability(regime) && competition <= MaxCompetition(regime)
          && risk <= MaxRisk(regime),
          regime, ev, threshold, probability, competition, risk, m.builder)
  }

  function Usd(p: Policy, wei: nat): real { wei as real / 1000000000000000000.0 * p.ethUsd }

  function MakeQuote(p: Policy, i: Input, c: Curves): Quote
    requires p.maxImpactBps > 0
  {
    Decide(p, Measure(p, i, c), Usd(p, i.expectedProfitWei), Usd(p, i.executionCostWei), c)
  }

  // ---------------------------------------------------------------- stress order

  predicate Bounded(m: Pressures) {
    && 0.0 <= m.density <= 1.0 && 0.0 <= m.heat <= 1.0 && 0.0 <= m.gas <= 1.0 && 0.0 <= m.size <= 1.0
    && 0.0 <= m.impact <= 1.0 && 0.0 <= m.latency <= 1.0 && 0.0 <= m.failure <= 1.0 && 0.0 <= m.poor <= 1.0
    && 0.0 <= m.builder <= 1.0 && 0.0 <= m.toxicity <= 1.0 && 0.0 <= m.priority <= 1.0
  }

  /** `n` is at least as stressed as `m` in every respect. */
  predicate Harsher(m: Pressures, n: Pressures) {
    && m.density <= n.density && m.heat <= n.heat && m.gas <= n.gas && m.size <= n.size && m.impact <= n.impact
    && m.latency <= n.latency && m.failure <= n.failure && m.poor <= n.poor && m.builder <= n.builder
    && m.toxicity <= n.toxicity && n.priority <= m.priority
  }

  predicate SanePolicy(p: Policy) {
    && p.maxImpactBps > 0 && p.ethUsd >= 0.0 && p.baseThresholdUsd >= 0.0
    && p.competitionMult >= 0.0 && p.riskMult >= 0.0 && p.thresholdMult >= 0.0
  }

  lemma RegimeRises(m: Pressures, n: Pressures, shift: int)
    requires Harsher(m, n)
    ensures Rank(Recalibrated(MarketRegime(m), shift)) <= Rank(Recalibrated(MarketRegime(n), shift))
  {}

  /** Every regime table moves the same way with the regime. */
  lemma TablesRise(r: Regime, s: Regime)
    requires Rank(r) <= Rank(s)
    ensures 0.0 <= CompetitionBump(r) <= CompetitionBump(s) && 0.0 <= RiskBump(r) <= RiskBump(s)
    ensures RegimeDrag(r) <= RegimeDrag(s)
    ensures 0.0 < CompetitionWeight(r) <= CompetitionWeight(s) && 0.0 < RiskWeight(r) <= RiskWeight(s)
    ensures 0.0 < ThresholdWeight(r) <= ThresholdWeight(s)
    ensures MinProbability(r) <= MinProbability(s) && MaxCompetition(s) <= MaxCompetition(r) && MaxRisk(s) <= MaxRisk(r)
  {}

  lemma Steeper(c: Curves, x: real, y: real)
    requires c.Valid() && x <= y
    ensures 0.0 < c.logistic(x) <= c.logistic(y)
  {}

  lemma CompetitionScoreRises(m: Pressures, n: Pressures, r: Regime, s: Regime, c: Curves)
    requires c.Valid() && Harsher(m, n) && Rank(r) <= Rank(s)
    ensures 0.0 <= CompetitionScore(m, r, c) <= CompetitionScore(n, s, c)
  {
    hide CompetitionBump, Curves.Valid;
    TablesRise(r, s);
    Steeper(c, (m.heat - 0.52) * 9.0, (n.heat - 0.52) * 9.0);
    Steeper(c, (m.density - 0.62) * 8.0, (n.density - 0.62) * 8.0);
    Steeper(c, (m.gas - 0.58) * 8.5, (n.gas - 0.58) * 8.5);
    Steeper(c, (m.builder - 0.45) * 10.0, (n.builder - 0.45) * 10.0);
  }

  lemma RiskScoreRises(m: Pressures, n: Pressures, r: Regime, s: Regime, c: Curves)
    requires c.Valid() && Harsher(m, n) && Rank(r) <= Rank(s)
    ensures 0.0 <= RiskScore(m, r, c) <= RiskScore(n, s, c)
  {
    hide RiskBump, Curves.Valid;
    TablesRise(r, s);
    Steeper(c, (m.failure - 0.48) * 10.0, (n.failure - 0.48) * 10.0);
    Steeper(c, (m.latency - 0.45) * 8.0, (n.latency - 0.45) * 8.0);
    Steeper(c, (m.poor - 0.32) * 9.0, (n.poor - 0.32) * 9.0);
    Steeper(c, (m.builder - 0.42) * 10.5, (n.builder - 0.42) * 10.5);
  }

  lemma ChainGrows(a: real, a': real, k: real, b: real, b': real, c: real, c': real, d: real)
    requires 0.0 <= a <= a' && 0.0 <= k && 0.0 <= b <= b' && 0.0 <= c <= c' && 0.0 <= d
    ensures 0.0 <= Chain(a, k, b, c, d) <= Chain(a', k, b', c', d)
  {
    ProductsGrow(a, a', k, k);
    ProductsGrow(a * k, a' * k, b, b');
    ProductsGrow(a * k * b, a' * k * b', c, c');
    ProductsGrow(a * k * b * c, a' * k * b' * c', d, d);
  }

  lemma ShareGrows(profit: real, a: real, a': real, b: real, b': real)
    requires profit >= 0.0 && 0.0 <= a <= a' && 0.0 <= b <= b'
    ensures 0.0 <= Share(profit, a, b) <= Share(profit, a', b')
  {
    ProductsGrow(profit, profit, a, a');
    ProductsGrow(profit * a, profit * a', b, b');
  }

  lemma GainGrows(x: real, y: real, profit: real)
    requires x <= y && profit >= 0.0
    ensures Gain(x, profit) <= Gain(y, profit)
  {
    ProductMonotone(x, y, profit);
  }

  lemma MixGrows(x: real, y: real, target: real, weight: real)
    requires x <= y && 0.0 <= weight <= 1.0
    ensures Mix(x, target, weight) <= Mix(y, target, weight)
  {
    ProductMonotone(x, y, 1.0 - weight);
  }

  lemma ConfidenceUnit(h: Option<Profile>)
    ensures 0.0 <= Confidence(h) <= 1.0
  {}

  lemma CalibrationPositive(h: Option<Profile>)
    ensures Calibrate(h).competition > 0.0 && Calibrate(h).risk > 0.0 && Calibrate(h).threshold > 0.0
    ensures ThresholdPenalty(h) >= 1.0
  {
    hide Confidence;
    ConfidenceUnit(h);
    if h.Some? {
      var f := h.value;
      var x := Unit(f.missRate * 0.34 + f.revertRate * 0.26 + Unit(1.0 - f.successRate) * 0.24
                    + Unit(1.0 - f.capture) * 0.16);
      ProductNonNegative(x, Confidence(h));
    }
  }

  lemma CompetitionRises(p: Policy, m: Pressures, n: Pressures, r: Regime, s: Regime, c: Curves)
    requires SanePolicy(p) && c.Valid() && Harsher(m, n) && Bounded(m) && Bounded(n) && Rank(r) <= Rank(s)
    ensures 0.0 <= Competition(p, m, r, c) <= Competition(p, n, s, c) <= 1.0
  {
    hide CompetitionScore, Calibrate, Chain, Curves.Valid;
    CompetitionScoreRises(m, n, r, s, c);
    CalibrationPositive(p.history);
    ChainGrows(CompetitionScore(m, r, c), CompetitionScore(n, s, c), p.competitionMult,
               1.0 + (1.0 - m.priority) * 0.06, 1.0 + (1.0 - n.priority) * 0.06,
               1.0 + m.toxicity * 0.20, 1.0 + n.toxicity * 0.20, Calibrate(p.history).competition);
  }

  lemma RiskRises(p: Policy, m: Pressures, n: Pressures, r: Regime, s: Regime, c: Curves)
    requires SanePolicy(p) && c.Valid() && Harsher(m, n) && Bounded(m) && Bounded(n) && Rank(r) <= Rank(s)
    ensures 0.0 <= Risk(p, m, r, c) <= Risk(p, n, s, c) <= 1.0
  {
    hide RiskScore, Calibrate, Chain, Curves.Valid;
    RiskScoreRises(m, n, r, s, c);
    CalibrationPositive(p.history);
    ChainGrows(RiskScore(m, r, c), RiskScore(n, s, c), p.riskMult,
               1.0 + m.toxicity * 0.24, 1.0 + n.toxicity * 0.24,
               1.0 - m.priority * 0.08, 1.0 - n.priority * 0.08, Calibrate(p.history).risk);
  }

  lemma BaseProbabilityFalls(a: real, a': real, b: real, b': real, m: Pressures, n: Pressures, r: Regime, s: Regime)
    requires a <= a' && b <= b' && Harsher(m, n) && Rank(r) <= Rank(s)
    ensures 0.0 <= BaseProbability(a', b', n, s) <= BaseProbability(a, b, m, r)
  {
    hide RegimeDrag;
    TablesRise(r, s);
  }

  lemma BlendedRises(x: real, y: real, h: Option<Profile>)
    requires 0.0 <= x <= y
    ensures 0.0 <= Blended(x, h) <= Blended(y, h)
  {
    hide Confidence, Mix;
    if h.Some? {
      ConfidenceUnit(h);
      var f := h.value;
      var target := Clamp(f.successRate * 0.62 + (1.0 - f.missRate) * 0.18 + (1.0 - f.revertRate) * 0.10
                          + Unit(f.capture) * 0.10, 0.04, 0.99);
      MixGrows(x, y, target, Confidence(h) * 0.40);
    }
  }

  lemma JumpRises(x: real, y: real, start: real, slope: real, height: real, c: Curves)
    requires c.Valid() && x <= y && slope >= 0.0 && height >= 0.0
    ensures 0.0 <= JumpAbove(x, start, slope, height, c) <= JumpAbove(y, start, slope, height, c)
  {
    hide Curves.Valid;
    ProductMonotone(x - start, y - start, slope);
    Steeper(c, (x - start) * slope, (y - start) * slope);
    ProductsGrow(c.logistic((x - start) * slope), c.logistic((y - start) * slope), height, height);
  }

  lemma SharesRise(m: Pressures, n: Pressures, r: Regime, s: Regime, c: Curves)
    requires c.Valid() && Harsher(m, n) && Rank(r) <= Rank(s)
    ensures 0.0 <= CompetitionShare(m, r, c) <= CompetitionShare(n, s, c)
    ensures 0.0 <= RiskShare(m, r, c) <= RiskShare(n, s, c)
  {
    hide JumpAbove, CompetitionWeight, RiskWeight, Curves.Valid;
    TablesRise(r, s);
    JumpRises(m.heat, n.heat, 0.58, 11.0, 0.34, c);
    JumpRises(m.builder, n.builder, 0.44, 10.5, 0.28, c);
    JumpRises(m.failure, n.failure, 0.42, 12.0, 0.26, c);
    JumpRises(m.builder, n.builder, 0.46, 9.5, 0.22, c);
  }

  lemma DynamicThresholdRises(p: Policy, m: Pressures, n: Pressures, r: Regime, s: Regime)
    requires SanePolicy(p) && Harsher(m, n) && Bounded(m) && Rank(r) <= Rank(s)
    ensures 0.0 <= DynamicThreshold(p, m, r) <= DynamicThreshold(p, n, s)
  {
    hide Share, ThresholdWeight;
    TablesRise(r, s);
    ShareGrows(p.baseThresholdUsd, ThresholdWeight(r), ThresholdWeight(s),
               1.0 + m.density * 0.28 + m.failure * 0.52 + m.gas * 0.22 + m.latency * 0.24 + m.poor * 0.30
               + m.heat * 0.24 + m.builder * 0.38,
               1.0 + n.density * 0.28 + n.failure * 0.52 + n.gas * 0.22 + n.latency * 0.24 + n.poor * 0.30
               + n.heat * 0.24 + n.builder * 0.38);
  }

  lemma ThresholdRises(p: Policy, m: Pressures, n: Pressures, r: Regime, s: Regime)
    requires SanePolicy(p) && Harsher(m, n) && Bounded(m) && Bounded(n) && Rank(r) <= Rank(s)
    ensures 0.0 <= Threshold(p, m, r) <= Threshold(p, n, s)
  {
    hide Calibrate, ThresholdPenalty, DynamicThreshold, Chain;
    DynamicThresholdRises(p, m, n, r, s);
    CalibrationPositive(p.history);
    var k := Calibrate(p.history).threshold;
    ChainGrows(DynamicThreshold(p, m, r), DynamicThreshold(p, n, s), p.thresholdMult,
               1.0 + m.toxicity * 0.18, 1.0 + n.toxicity * 0.18, 1.0 - m.priority * 0.08, 1.0 - n.priority * 0.08, k);
    ProductsGrow(
      Chain(DynamicThreshold(p, m, r), p.thresholdMult, 1.0 + m.toxicity * 0.18, 1.0 - m.priority * 0.08, k),
      Chain(DynamicThreshold(p, n, s), p.thresholdMult, 1.0 + n.toxicity * 0.18, 1.0 - n.priority * 0.08, k),
      ThresholdPenalty(p.history), ThresholdPenalty(p.history));
  }

  lemma PathStressRises(m: Pressures, n: Pressures)
    requires Harsher(m, n)
    ensures 0.0 <= PathStress(m) <= PathStress(n)
  {}

  /** With the same policy, profit and history, harsher pressures and a higher cost never raise the expected
      value or the probability, never lower the threshold, the scores or the regime, and so never turn a
      reject into an execution. */
  lemma DecisionAntitone(p: Policy, m: Pressures, n: Pressures, profit: real, cost: real, cost': real, c: Curves)
    requires SanePolicy(p) && c.Valid() && Harsher(m, n) && Bounded(m) && Bounded(n)
    requires profit >= 0.0 && cost <= cost'
    ensures var a, b := Decide(p, m, profit, cost, c), Decide(p, n, profit, cost', c);
            && Rank(a.regime) <= Rank(b.regime) && b.evUsd <= a.evUsd && a.thresholdUsd <= b.thresholdUsd
            && b.probability <= a.probability && a.competition <= b.competition && a.risk <= b.risk
            && (b.shouldExecute ==> a.shouldExecute)
  {
    hide Competition, Risk, Blended, BaseProbability, CompetitionShare, RiskShare, Threshold, MarketRegime,
         Recalibrated, RegimeShift, Share, Gain, PathStress, Curves.Valid, MinProbability, MaxCompetition, MaxRisk,
         Harsher, Bounded, Rank;
    var shift := RegimeShift(p.history);
    RegimeRises(m, n, shift);
    var r, s := Recalibrated(MarketRegime(m), shift), Recalibrated(MarketRegime(n), shift);
    TablesRise(r, s);
    CompetitionRises(p, m, n, r, s, c);
    RiskRises(p, m, n, r, s, c);
    var x, x' := Competition(p, m, r, c), Competition(p, n, s, c);
    var y, y' := Risk(p, m, r, c), Risk(p, n, s, c);
    BaseProbabilityFalls(x, x', y, y', m, n, r, s);
    BlendedRises(BaseProbability(x', y', n, s), BaseProbability(x, y, m, r), p.history);
    SharesRise(m, n, r, s, c);
    PathStressRises(m, n);
    ShareGrows(profit, x, x', CompetitionShare(m, r, c), CompetitionShare(n, s, c));
    ShareGrows(profit, y, y', RiskShare(m, r, c), RiskShare(n, s, c));
    ShareGrows(profit, PathStress(m), PathStress(n), 0.18, 0.18);
    GainGrows(Blended(BaseProbability(x', y', n, s), p.history), Blended(BaseProbability(x, y, m, r), p.history),
              profit);
    ThresholdRises(p, m, n, r, s);
  }

  // ---------------------------------------------------------------- from raw readings

  /** The second market reads worse than the first: every average, rate, latency, price and size that
      signals stress is at least as high, every reassuring one at most as high, all else equal. */
  predicate WorseMarket(p: Policy, i: Input, q: Policy, j: Input) {
    && p.density <= q.density && p.clusterHeat <= q.clusterHeat
    && p.lookupEwmaMs <= q.lookupEwmaMs && p.submitEwmaMs <= q.submitEwmaMs && p.finalizeEwmaMs <= q.finalizeEwmaMs
    && p.failureRate <= q.failureRate && p.timeoutRate <= q.timeoutRate && q.capture <= p.capture
    && p.rejectRate <= q.rejectRate && q.acceptRate <= p.acceptRate && q.inclusionRate <= p.inclusionRate
    && p.missRate <= q.missRate && p.revertRate <= q.revertRate
    && (p.gasEwmaGwei, p.ethUsd, p.baseThresholdUsd, p.maxImpactBps)
       == (q.gasEwmaGwei, q.ethUsd, q.baseThresholdUsd, q.maxImpactBps)
    && (p.competitionMult, p.riskMult, p.thresholdMult, p.history)
       == (q.competitionMult, q.riskMult, q.thresholdMult, q.history)
    && i.expectedProfitWei == j.expectedProfitWei && i.executionCostWei <= j.executionCostWei
    && i.gasPriceWei <= j.gasPriceWei && i.lookupLatencyMs <= j.lookupLatencyMs && i.notionalEth <= j.notionalEth
    && i.priceImpactBps <= j.priceImpactBps && i.toxicity <= j.toxicity && j.priority <= i.priority
    && (i.relayPressure.Some? <==> j.relayPressure.Some?)
    && (i.relayPressure.Some? ==> i.relayPressure.value <= j.relayPressure.value)
  }

  lemma QuotientMonotone(a: real, b: real, d: real)
    requires a <= b && d > 0.0
    ensures a / d <= b / d
  {}

  lemma OverrunRises(a: real, b: real, target: real)
    requires a <= b && target > 0.0
    ensures 0.0 <= Overrun(a, target) <= Overrun(b, target) <= 1.0
  {
    QuotientMonotone(a, b, target);
  }

  lemma UnitRises(x: real, y: real)
    requires x <= y
    ensures 0.0 <= Unit(x) <= Unit(y) <= 1.0
  {}

  lemma BuilderRises(p: Policy, i: Input, q: Policy, j: Input)
    requires WorseMarket(p, i, q, j)
    ensures BuilderPathPressure(p) <= BuilderPathPressure(q)
  {
    hide Overrun, Unit;
    OverrunRises(p.submitEwmaMs, q.submitEwmaMs, 120.0);
    OverrunRises(p.finalizeEwmaMs, q.finalizeEwmaMs, 6000.0);
    UnitRises(p.rejectRate, q.rejectRate);
    UnitRises(1.0 - p.acceptRate, 1.0 - q.acceptRate);
    UnitRises(1.0 - p.inclusionRate, 1.0 - q.inclusionRate);
    UnitRises(p.missRate, q.missRate);
    UnitRises(p.revertRate, q.revertRate);
    UnitRises(1.0 - p.capture, 1.0 - q.capture);
    UnitRises(BuilderSum(p), BuilderSum(q));
  }

  lemma LatencyRises(p: Policy, i: Input, q: Policy, j: Input)
    requires WorseMarket(p, i, q, j)
    ensures LatencyPenalty(p, i.lookupLatencyMs) <= LatencyPenalty(q, j.lookupLatencyMs)
  {
    hide Overrun;
    OverrunRises(i.lookupLatencyMs, j.lookupLatencyMs, 140.0);
    OverrunRises(p.lookupEwmaMs, q.lookupEwmaMs, 140.0);
    OverrunRises(p.submitEwmaMs, q.submitEwmaMs, 120.0);
    OverrunRises(p.finalizeEwmaMs, q.finalizeEwmaMs, 6000.0);
  }

  lemma WeatheredRises(a: real, b: real, historical: real, confidence: real)
    requires a <= b && 0.0 <= confidence <= 1.0
    ensures Weathered(a, historical, confidence) <= Weathered(b, historical, confidence)
  {
    ProductMonotone(a, b, 1.0 - confidence * 0.45);
  }

  lemma SizeRises(c: Curves, a: real, b: real)
    requires c.Valid() && a <= b
    ensures SizePressure(c, a) <= SizePressure(c, b)
  {
    assert c.ln1p(MaxReal(a, 0.0)) <= c.ln1p(MaxReal(b, 0.0));
  }

  lemma GasRises(p: Policy, a: real, b: real)
    requires a <= b
    ensures 0.0 <= GasPressure(p, a) <= GasPressure(p, b) <= 1.0
  {
    hide Overrun;
    if p.gasEwmaGwei > EPSILON {
      OverrunRises(a, b, p.gasEwmaGwei);
    }
  }

  lemma MeasureBounded(p: Policy, i: Input, c: Curves)
    requires p.maxImpactBps > 0
    ensures Bounded(Measure(p, i, c))
  {
    hide BuilderPathPressure, HistoricalPressure, Confidence, GasPressure, LatencyPenalty, Weathered;
    LatencyBounded(p, i.lookupLatencyMs);
    GasRises(p, i.gasPriceWei as real / 1000000000.0, i.gasPriceWei as real / 1000000000.0);
  }

  lemma MeasureHarsher(p: Policy, i: Input, q: Policy, j: Input, c: Curves)
    requires SanePolicy(p) && c.Valid() && WorseMarket(p, i, q, j)
    ensures Harsher(Measure(p, i, c), Measure(q, j, c))
  {
    hide BuilderPathPressure, LatencyPenalty, HistoricalPressure, Confidence, GasPressure, SizePressure, Weathered,
         Curves.Valid;
    BuilderRises(p, i, q, j);
    LatencyRises(p, i, q, j);
    GasRises(p, i.gasPriceWei as real / 1000000000.0, j.gasPriceWei as real / 1000000000.0);
    GasReadsAverage(p, q, j.gasPriceWei as real / 1000000000.0);
    QuotientMonotone(i.priceImpactBps as real, j.priceImpactBps as real, p.maxImpactBps as real);
    SizeRises(c, i.notionalEth, j.notionalEth);
    ConfidenceUnit(p.history);
    var a := if i.relayPressure.Some? then i.relayPressure.value else BuilderPathPressure(p);
    var b := if j.relayPressure.Some? then j.relayPressure.value else BuilderPathPressure(q);
    WeatheredRises(a, b, HistoricalPressure(p.history), Confidence(p.history));
  }

  lemma GasReadsAverage(p: Policy, q: Policy, gwei: real)
    requires p.gasEwmaGwei == q.gasEwmaGwei
    ensures GasPressure(p, gwei) == GasPressure(q, gwei)
  {}

  lemma LatencyBounded(p: Policy, ms: real)
    ensures 0.0 <= LatencyPenalty(p, ms) <= 1.0
  {}

  /** End to end: for any historical profile, a market that reads worse never executes where the better
      one would reject. */
  lemma QuoteAntitone(p: Policy, i: Input, q: Policy, j: Input, c: Curves)
    requires SanePolicy(p) && c.Valid() && WorseMarket(p, i, q, j)
    ensures q.maxImpactBps > 0
    ensures var a, b := MakeQuote(p, i, c), MakeQuote(q, j, c);
            && (b.shouldExecute ==> a.shouldExecute)
            && Rank(a.regime) <= Rank(b.regime) && b.evUsd <= a.evUsd && a.thresholdUsd <= b.thresholdUsd
            && b.probability <= a.probability
  {
    hide Decide, Measure, Usd, Curves.Valid;
    MeasureHarsher(p, i, q, j, c);
    MeasureBounded(p, i, c);
    MeasureBounded(q, j, c);
    UsdRises(p, i.executionCostWei, j.executionCostWei);
    UsdRises(p, 0, i.expectedProfitWei);
    DecisionAntitone(p, Measure(p, i, c), Measure(q, j, c), Usd(p, i.expectedProfitWei),
                     Usd(p, i.executionCostWei), Usd(p, j.executionCostWei), c);
    UsdReadsPrice(p, q, j.expectedProfitWei);
    UsdReadsPrice(p, q, j.executionCostWei);
    DecideReadsConstants(p, q, Measure(q, j, c), Usd(p, i.expectedProfitWei), Usd(p, j.executionCostWei), c);
  }

  lemma UsdReadsPrice(p: Policy, q: Policy, wei: nat)
    requires p.ethUsd == q.ethUsd
    ensures Usd(p, wei) == Usd(q, wei)
  {}

  lemma UsdRises(p: Policy, a: nat, b: nat)
    requires p.ethUsd >= 0.0 && a <= b
    ensures Usd(p, a) <= Usd(p, b)
    ensures a == 0 ==> Usd(p, a) == 0.0
  {
    ProductMonotone(a as real / 1000000000000000000.0, b as real / 1000000000000000000.0, p.ethUsd);
  }

  /** Given the pressures, the decision reads only the policy's constants and history. */
  lemma DecideReadsConstants(p: Policy, q: Policy, m: Pressures, profit: real, cost: real, c: Curves)
    requires (p.baseThresholdUsd, p.competitionMult, p.riskMult, p.thresholdMult, p.history)
             == (q.baseThresholdUsd, q.competitionMult, q.riskMult, q.thresholdMult, q.history)
    ensures Decide(p, m, profit, cost, c) == Decide(q, m, profit, cost, c)
  {
    hide CompetitionScore, RiskScore, BaseProbability, Blended, CompetitionShare, RiskShare, MarketRegime, Recalibrated,
         RegimeShift, Calibrate, ThresholdPenalty, PathStress, Chain, Share, Gain;
  }

  // ---------------------------------------------------------------- what an execution guarantees

  lemma CalibrationRaises(h: Option<Profile>)
    ensures Calibrate(h).threshold >= 1.0
  {
    hide Confidence, Unit;
    ConfidenceUnit(h);
    if h.Some? {
      var f := h.value;
      UnitRises(f.missRate, f.missRate);
      UnitRises(f.revertRate, f.revertRate);
      UnitRises(1.0 - f.successRate, 1.0 - f.successRate);
      UnitRises(1.0 - f.capture, 1.0 - f.capture);
      ProductNonNegative(
        Unit(f.missRate) * 0.26 + Unit(f.revertRate) * 0.18 + Unit(1.0 - f.successRate) * 0.18
        + Unit(1.0 - f.capture) * 0.14,
        Confidence(h));
    }
  }

  lemma ThresholdFloor(p: Policy, m: Pressures, r: Regime)
    requires SanePolicy(p) && Bounded(m)
    ensures Threshold(p, m, r) >= Chain(p.baseThresholdUsd, p.thresholdMult, ThresholdWeight(r), 0.92, 1.0) >= 0.0
  {
    hide Calibrate, ThresholdPenalty, Chain, ThresholdWeight;
    CalibrationRaises(p.history);
    CalibrationPositive(p.history);
    TablesRise(r, r);
    var continuous := 1.0 + m.density * 0.28 + m.failure * 0.52 + m.gas * 0.22 + m.latency * 0.24 + m.poor * 0.30
                      + m.heat * 0.24 + m.builder * 0.38;
    ShareGrows(p.baseThresholdUsd, ThresholdWeight(r), ThresholdWeight(r), 1.0, continuous);
    hide Share;
    var d, k := DynamicThreshold(p, m, r), Calibrate(p.history).threshold;
    var least := Share(p.baseThresholdUsd, ThresholdWeight(r), 1.0);
    ChainGrows(least, d, p.thresholdMult, 1.0, 1.0 + m.toxicity * 0.18, 0.92, 1.0 - m.priority * 0.08, 1.0);
    ChainLast(d, p.thresholdMult, 1.0 + m.toxicity * 0.18, 1.0 - m.priority * 0.08, k);
    ProductsGrow(Chain(d, p.thresholdMult, 1.0 + m.toxicity * 0.18, 1.0 - m.priority * 0.08, 1.0),
                 Chain(d, p.thresholdMult, 1.0 + m.toxicity * 0.18, 1.0 - m.priority * 0.08, k),
                 1.0, ThresholdPenalty(p.history));
    ChainReorder(p.baseThresholdUsd, p.thresholdMult, ThresholdWeight(r));
  }

  lemma ChainLast(a: real, k: real, b: real, c: real, d: real)
    requires 0.0 <= Chain(a, k, b, c, 1.0) && 1.0 <= d
    ensures Chain(a, k, b, c, 1.0) <= Chain(a, k, b, c, d)
  {
    ProductsGrow(a * k * b * c, a * k * b * c, 1.0, d);
  }

  lemma ChainReorder(a: real, k: real, w: real)
    ensures Chain(Share(a, w, 1.0), k, 1.0, 0.92, 1.0) == Chain(a, k, w, 0.92, 1.0)
  {
    assert a * w * k == a * k * w;
  }

  /** An execution pays: 99% of the expected profit exceeds its cost plus a threshold no lower than the
      base threshold, scaled for the regime and the chain, less 8%. */
  lemma ExecutionPays(p: Policy, i: Input, c: Curves)
    requires SanePolicy(p) && c.Valid()
    ensures MakeQuote(p, i, c).shouldExecute ==>
              Usd(p, i.expectedProfitWei) * 0.99
              > Usd(p, i.executionCostWei)
                + Chain(p.baseThresholdUsd, p.thresholdMult, ThresholdWeight(MakeQuote(p, i, c).regime), 0.92, 1.0)
  {
    hide Measure, Usd, Curves.Valid, Chain, Share, Gain, Competition, Risk, BaseProbability, Blended, CompetitionShare,
         RiskShare, Threshold, PathStress, MarketRegime, Recalibrated, RegimeShift, Bounded;
    MeasureBounded(p, i, c);
    UsdRises(p, 0, i.expectedProfitWei);
    PenaltiesAndGain(p, Measure(p, i, c), MakeQuote(p, i, c).regime, Usd(p, i.expectedProfitWei), c);
    ThresholdFloor(p, Measure(p, i, c), MakeQuote(p, i, c).regime);
  }

  lemma PenaltiesAndGain(p: Policy, m: Pressures, r: Regime, profit: real, c: Curves)
    requires SanePolicy(p) && c.Valid() && Bounded(m) && profit >= 0.0
    ensures var x, y := Competition(p, m, r, c), Risk(p, m, r, c);
            && Share(profit, x, CompetitionShare(m, r, c)) >= 0.0 && Share(profit, y, RiskShare(m, r, c)) >= 0.0
            && Share(profit, PathStress(m), 0.18) >= 0.0
            && Gain(Blended(BaseProbability(x, y, m, r), p.history), profit) <= profit * 0.99
  {
    hide Competition, Risk, CompetitionShare, RiskShare, PathStress, Share, Gain, Blended, BaseProbability,
         Curves.Valid;
    CompetitionRises(p, m, m, r, r, c);
    RiskRises(p, m, m, r, r, c);
    SharesRise(m, m, r, r, c);
    PathStressRises(m, m);
    var x, y := Competition(p, m, r, c), Risk(p, m, r, c);
    ShareGrows(profit, 0.0, x, 0.0, CompetitionShare(m, r, c));
    ShareGrows(profit, 0.0, y, 0.0, RiskShare(m, r, c));
    ShareGrows(profit, 0.0, PathStress(m), 0.0, 0.18);
    ProbabilityCap(x, y, m, r, p.history);
    GainCap(Blended(BaseProbability(x, y, m, r), p.history), profit);
  }

  lemma GainCap(probability: real, profit: real)
    requires probability <= 0.99 && profit >= 0.0
    ensures Gain(probability, profit) <= profit * 0.99
  {
    ProductMonotone(probability, 0.99, profit);
  }

  lemma ProbabilityCap(x: real, y: real, m: Pressures, r: Regime, h: Option<Profile>)
    ensures 0.04 <= Blended(BaseProbability(x, y, m, r), h) <= 0.99
  {
    hide Mix, Confidence;
  }
}
