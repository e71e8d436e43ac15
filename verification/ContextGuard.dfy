/** The per-context stop-loss: loss counters that decay with time, freezes, and pruning of idle contexts. */
module ContextGuard {
  import opened Arithmetic
  import opened Options
  import opened Clock
  import opened Reals
  import StopLoss

  /** A (pair, router, submit path) triple. */
  datatype Key = Key(pair: nat, router: nat, submitPath: string)

  datatype Config = Config(losses: U32, freezeSecs: U64)

  datatype State = State(
    consecutiveLosses: U32, frozenUntil: Option<Instant>, lastEventAt: Option<Instant>, pressure: real)

  const IDLE := State(0, None, None, 0.0)

  // ---------------------------------------------------------------- decay

  function DecayWindow(baseFreezeSecs: nat): nat { Max(baseFreezeSecs / 2, 30) }

  /** Whole windows elapsed, truncated to 32 bits as the code casts them. */
  function DecaySteps(elapsedSecs: nat, baseFreezeSecs: nat): U32 {
    (elapsedSecs / DecayWindow(baseFreezeSecs)) % TWO_32
  }

  /** The factor for a step count reinterpreted as a signed 32-bit exponent. */
  function DecayFactor(steps: U32): real {
    if steps < TWO_31 then Pow(0.88, steps)
    else
      PowPositive(TWO_32 - steps);
      1.0 / Pow(0.88, TWO_32 - steps)
  }

  lemma {:induction false} PowPositive(n: nat)
    ensures 0.0 < Pow(0.88, n) <= 1.0
    ensures n > 0 ==> Pow(0.88, n) < 1.0
  {
    if n > 0 { PowPositive(n - 1); }
  }

  function Decay(s: State, now: Instant, baseFreezeSecs: nat): State {
    if s.lastEventAt.None? then s
    else
      var elapsed := AsSecs(Since(now, s.lastEventAt.value));
      if elapsed < DecayWindow(baseFreezeSecs) || s.consecutiveLosses == 0 then s
      else
        var steps: U32 := Max(DecaySteps(elapsed, baseFreezeSecs), 1);
        s.(consecutiveLosses := if steps <= s.consecutiveLosses then s.consecutiveLosses - steps else 0,
           lastEventAt := Some(now),
           pressure := s.pressure * DecayFactor(steps))
  }

  // ---------------------------------------------------------------- one result, one check, pruning

  function RegimePressure(priority: real, toxicity: real, won: bool): real {
    var lowPriority := Clamp(1.0 - Clamp(priority, 0.0, 1.0), 0.0, 1.0);
    Clamp(Clamp(toxicity, 0.0, 1.0) * 0.62 + lowPriority * 0.22 + (if won then 0.0 else 0.24), 0.0, 1.0)
  }

  function Ewma(current: real, sample: real, alpha: real): real {
    if current <= EPSILON then sample else current + (sample - current) * alpha
  }

  function Threshold(base: U32, pressure: real): U32 {
    if pressure >= 0.78 then Max(if base >= 1 then base - 1 else 0, 1) else Max(base, 1)
  }

  function FreezeSecs(base: U64, pressure: real): U64 {
    var multiplier := if pressure >= 0.90 then 2.00 else if pressure >= 0.78 then 1.50
                      else if pressure >= 0.62 then 1.20 else 1.0;
    Min((base as real * multiplier + 0.5).Floor, MAX_U64)
  }

  /** One execution result recorded against its context. */
  function Record(s: State, now: Instant, won: bool, priority: real, toxicity: real, cfg: Config): State {
    var decayed := Decay(s, now, Max(cfg.freezeSecs, 1));
    var pressure := Ewma(decayed.pressure, RegimePressure(priority, toxicity, won), 0.35);
    if won then State(0, None, Some(now), pressure)
    else
      var losses := SatAdd32(decayed.consecutiveLosses, if pressure >= 0.82 then 2 else 1);
      State(losses,
            if losses >= Threshold(cfg.losses, pressure)
            then Some(now + Secs(FreezeSecs(cfg.freezeSecs, pressure))) else decayed.frozenUntil,
            Some(now), pressure)
  }

  predicate Retained(s: State, now: Instant) {
    s.consecutiveLosses > 0 || (s.frozenUntil.Some? && now < s.frozenUntil.value)
  }

  type Guards = map<Key, State>

  function Prune(m: Guards, now: Instant): Guards {
    map k | k in m && Retained(m[k], now) :: m[k]
  }

  /** What the gate reports: the losses held against a frozen context, and the whole seconds left. */
  type Answer = Option<(U32, nat)>

  function Check(m: Guards, k: Key, now: Instant, cfg: Config): (Guards, Answer) {
    if k !in m then (m, None)
    else
      var s := Decay(m[k], now, Max(cfg.freezeSecs, 1));
      if s.frozenUntil.None? then (m[k := s], None)
      else if now >= s.frozenUntil.value then (m - {k}, None)
      else (m[k := s], Some((s.consecutiveLosses, AsSecs(Since(s.frozenUntil.value, now)))))
  }

  function Entry(m: Guards, k: Key): State { if k in m then m[k] else IDLE }

  datatype Call =
    | Result(key: Key, now: Instant, won: bool, priority: real, toxicity: real)
    | Sweep(now: Instant)  // a result that names no context
    | Poll(key: Key, now: Instant)

  /** One atomic call; results prune afterwards, as the code does, when `pruning` is on. */
  function Step(m: Guards, c: Call, cfg: Config, pruning: bool): (Guards, Answer) {
    match c
    case Poll(k, now) => Check(m, k, now, cfg)
    case Sweep(now) => (if pruning then Prune(m, now) else m, None)
    case Result(k, now, won, priority, toxicity) =>
      var m1 := m[k := Record(Entry(m, k), now, won, priority, toxicity, cfg)];
      (if pruning then Prune(m1, now) else m1, None)
  }

  function Run(m: Guards, calls: seq<Call>, cfg: Config, pruning: bool): Guards {
    if calls == [] then m
    else Step(Run(m, calls[..|calls| - 1], cfg, pruning), calls[|calls| - 1], cfg, pruning).0
  }

  /** The answer to the i-th call of a run. */
  function AnswerAt(m: Guards, calls: seq<Call>, i: nat, cfg: Config, pruning: bool): Answer
    requires i < |calls|
  {
    Step(Run(m, calls[..i], cfg, pruning), calls[i], cfg, pruning).1
  }

  predicate Monotone(calls: seq<Call>) {
    forall i, j :: 0 <= i < j < |calls| ==> calls[i].now <= calls[j].now
  }

  // ---------------------------------------------------------------- pruning is invisible

  /** Nothing a later check of this context could report. */
  predicate Inert(s: State, at: Instant) {
    s.consecutiveLosses == 0 && (s.frozenUntil.None? || s.frozenUntil.value <= at)
  }

  /** For one context, the pruned table either holds the same entry or has dropped an inert one. */
  predicate SameFor(p: Guards, u: Guards, k: Key, at: Instant) {
    (k in p && k in u && p[k] == u[k]) || (k !in p && (k !in u || Inert(u[k], at)))
  }

  lemma StepSame(p: Guards, u: Guards, k: Key, at: Instant, c: Call, cfg: Config)
    requires SameFor(p, u, k, at) && at <= c.now
    requires c.Result? ==> c.key != k
    ensures SameFor(Step(p, c, cfg, true).0, Step(u, c, cfg, false).0, k, c.now)
    ensures c == Poll(k, c.now) ==> Step(p, c, cfg, true).1 == Step(u, c, cfg, false).1
  {
    hide Record;
  }

  lemma {:induction false} RunSame(m: Guards, calls: seq<Call>, k: Key, cfg: Config, at: Instant)
    requires Monotone(calls)
    requires forall c :: c in calls && c.Result? ==> c.key != k
    requires calls != [] ==> calls[|calls| - 1].now <= at
    ensures SameFor(Run(m, calls, cfg, true), Run(m, calls, cfg, false), k, at)
  {
    hide Step;
    if calls != [] {
      var n := |calls| - 1;
      RunSame(m, calls[..n], k, cfg, calls[n].now);
      StepSame(Run(m, calls[..n], cfg, true), Run(m, calls[..n], cfg, false), k, calls[n].now, calls[n], cfg);
    }
  }

  /** Pruning changes no answer: from any table, and under any schedule of results for other contexts and of
      checks, every check of a context gets the answer an unpruned table would give, until that context's
      own next result. */
  lemma PruningIsInvisible(m: Guards, calls: seq<Call>, k: Key, cfg: Config, i: nat)
    requires Monotone(calls) && i < |calls| && calls[i] == Poll(k, calls[i].now)
    requires forall c :: c in calls[..i] && c.Result? ==> c.key != k
    ensures AnswerAt(m, calls, i, cfg, true) == AnswerAt(m, calls, i, cfg, false)
  {
    hide Step;
    RunSame(m, calls[..i], k, cfg, calls[i].now);
    StepSame(Run(m, calls[..i], cfg, true), Run(m, calls[..i], cfg, false), k, calls[i].now, calls[i], cfg);
  }

  // ---------------------------------------------------------------- a freeze holds for its whole length

  predicate FrozenUntil(m: Guards, k: Key, until: Instant) { k in m && m[k].frozenUntil == Some(until) }

  lemma {:induction false} FreezePersists(m: Guards, calls: seq<Call>, k: Key, cfg: Config, until: Instant)
    requires FrozenUntil(m, k, until)
    requires forall c :: c in calls ==> c.now < until && (c.Result? ==> c.key != k)
    ensures FrozenUntil(Run(m, calls, cfg, true), k, until)
  {
    hide Record, DecayFactor;
    if calls != [] { FreezePersists(m, calls[..|calls| - 1], k, cfg, until); }
  }

  /** Once a context is frozen, every check before the freeze ends reports it, whatever decays, prunes or
      other contexts' results come between, until that context's own next result. */
  lemma FreezeHolds(m: Guards, calls: seq<Call>, k: Key, cfg: Config, until: Instant, i: nat)
    requires FrozenUntil(m, k, until)
    requires i < |calls| && calls[i] == Poll(k, calls[i].now)
    requires forall j :: 0 <= j <= i ==> calls[j].now < until && (calls[j].Result? ==> calls[j].key != k)
    ensures AnswerAt(m, calls, i, cfg, true).Some?
  {
    hide Run;
    FreezePersists(m, calls[..i], k, cfg, until);
  }

  // ---------------------------------------------------------------- when a freeze is set

  predicate LossOf(c: Call, k: Key) { c.Result? && c.key == k && !c.won }

  function Losses(calls: seq<Call>, k: Key): nat {
    if calls == [] then 0
    else Losses(calls[..|calls| - 1], k) + (if LossOf(calls[|calls| - 1], k) then 1 else 0)
  }

  function LastLoss(calls: seq<Call>, k: Key): Option<Instant> {
    if calls == [] then None
    else if LossOf(calls[|calls| - 1], k) then Some(calls[|calls| - 1].now)
    else LastLoss(calls[..|calls| - 1], k)
  }

  /** A call that does not interrupt a losing streak of the context whose last loss was at `last`: no win, less than
      a decay window after it, and, for a check, within the base freeze. */
  predicate KeepsStreak(c: Call, k: Key, last: Option<Instant>, cfg: Config) {
    !c.Sweep? && c.key == k ==>
      && (c.Result? ==> !c.won)
      && (last.Some? ==>
            && AsSecs(Since(c.now, last.value)) < DecayWindow(Max(cfg.freezeSecs, 1))
            && (c.Poll? ==> c.now < last.value + Secs(cfg.freezeSecs)))
  }

  predicate Streak(calls: seq<Call>, k: Key, cfg: Config) {
    forall j :: 0 <= j < |calls| ==> KeepsStreak(calls[j], k, LastLoss(calls[..j], k), cfg)
  }

  /** What a streak of `n` losses, the last of them at `last`, leaves in the table. */
  predicate Building(m: Guards, k: Key, n: nat, last: Option<Instant>, cfg: Config) {
    if n == 0 then last.None? && Entry(m, k).frozenUntil.None?
    else
      && last.Some? && k in m && m[k].lastEventAt == last && m[k].consecutiveLosses >= Min(n, MAX_U32)
      && (m[k].consecutiveLosses >= Max(cfg.losses, 1) ==> m[k].frozenUntil.Some?)
      && (m[k].frozenUntil.Some? ==>
            && m[k].consecutiveLosses >= Max(cfg.losses - 1, 1)
            && m[k].frozenUntil.value >= last.value + Secs(cfg.freezeSecs))
  }

  lemma ThresholdRange(base: U32, pressure: real)
    ensures Max(base - 1, 1) <= Threshold(base, pressure) <= Max(base, 1)
  {}

  lemma FreezeIsLonger(base: U64, pressure: real)
    ensures FreezeSecs(base, pressure) >= base
  {
    FreezeBands(base, pressure);
    hide FreezeSecs;
  }

  lemma StreakLoss(s: State, now: Instant, priority: real, toxicity: real, cfg: Config)
    requires Decay(s, now, Max(cfg.freezeSecs, 1)).frozenUntil.Some? ==>
               Decay(s, now, Max(cfg.freezeSecs, 1)).consecutiveLosses >= Max(cfg.losses - 1, 1)
    ensures var before, r := Decay(s, now, Max(cfg.freezeSecs, 1)), Record(s, now, false, priority, toxicity, cfg);
            && r.lastEventAt == Some(now) && r.consecutiveLosses >= Min(before.consecutiveLosses + 1, MAX_U32)
            && (r.consecutiveLosses >= Max(cfg.losses, 1) ==> r.frozenUntil.Some?)
            && (r.frozenUntil.Some? ==>
                  r.consecutiveLosses >= Max(cfg.losses - 1, 1)
                  && r.frozenUntil.value >= now + Secs(cfg.freezeSecs))
  {
    hide Decay, RegimePressure, Ewma, Threshold, FreezeSecs;
    var before := Decay(s, now, Max(cfg.freezeSecs, 1));
    var pressure := Ewma(before.pressure, RegimePressure(priority, toxicity, false), 0.35);
    ThresholdRange(cfg.losses, pressure);
    FreezeIsLonger(cfg.freezeSecs, pressure);
  }

  lemma DecayKeepsFreeze(s: State, now: Instant, base: nat)
    ensures Decay(s, now, base).frozenUntil == s.frozenUntil
  {
    hide DecayFactor;
  }

  lemma NoDecayYet(s: State, now: Instant, base: nat)
    requires s.lastEventAt.Some? && AsSecs(Since(now, s.lastEventAt.value)) < DecayWindow(base)
    ensures Decay(s, now, base) == s
  {}

  lemma StreakStep(m: Guards, c: Call, k: Key, n: nat, last: Option<Instant>, cfg: Config)
    requires Building(m, k, n, last, cfg) && KeepsStreak(c, k, last, cfg)
    ensures LossOf(c, k) ==> Building(Step(m, c, cfg, true).0, k, n + 1, Some(c.now), cfg)
    ensures !LossOf(c, k) ==> Building(Step(m, c, cfg, true).0, k, n, last, cfg)
  {
    hide Decay, Record, DecayWindow, AsSecs;
    if !c.Sweep? && c.key == k {
      var s := Entry(m, k);
      DecayKeepsFreeze(s, c.now, Max(cfg.freezeSecs, 1));
      if n > 0 { NoDecayYet(s, c.now, Max(cfg.freezeSecs, 1)); }
      if c.Result? { StreakLoss(s, c.now, c.priority, c.toxicity, cfg); }
    }
  }

  lemma {:induction false} StreakBuilds(m: Guards, calls: seq<Call>, k: Key, cfg: Config)
    requires Entry(m, k).frozenUntil.None? && Streak(calls, k, cfg)
    ensures Building(Run(m, calls, cfg, true), k, Losses(calls, k), LastLoss(calls, k), cfg)
  {
    hide Step, Building, KeepsStreak;
    if calls == [] {
      StreakBegins(m, k, cfg);
    } else {
      var n := |calls| - 1;
      assert forall j :: 0 <= j < n ==> calls[..n][..j] == calls[..j];
      StreakBuilds(m, calls[..n], k, cfg);
      StreakStep(Run(m, calls[..n], cfg, true), calls[n], k, Losses(calls[..n], k), LastLoss(calls[..n], k), cfg);
    }
  }

  lemma StreakBegins(m: Guards, k: Key, cfg: Config)
    requires Entry(m, k).frozenUntil.None?
    ensures Building(m, k, 0, None, cfg)
  {}

  /** Enough losses freeze: over every run in which a context not frozen at the start loses as often as the limit, with
      no win, no decay window and no check past the base freeze in between, every check of it within the base freeze
      of the last of those losses reports it frozen, whatever happens to other contexts. */
  lemma EnoughLossesFreeze(m: Guards, calls: seq<Call>, k: Key, cfg: Config, p: nat, i: nat)
    requires p < i < |calls| && Monotone(calls) && Entry(m, k).frozenUntil.None?
    requires LossOf(calls[p], k) && Streak(calls[..p + 1], k, cfg)
    requires Losses(calls[..p + 1], k) >= Max(cfg.losses, 1)
    requires forall j :: p < j < i && calls[j].Result? ==> calls[j].key != k
    requires calls[i] == Poll(k, calls[i].now) && calls[i].now < calls[p].now + Secs(cfg.freezeSecs)
    ensures AnswerAt(m, calls, i, cfg, true).Some?
  {
    hide Step, Streak, Losses, Secs;
    StreakBuilds(m, calls[..p + 1], k, cfg);
    assert LastLoss(calls[..p + 1], k) == Some(calls[p].now);
    var armed := Run(m, calls[..p + 1], cfg, true);
    var until := armed[k].frozenUntil.value;
    var rest := calls[p + 1..];
    RunSplits(m, calls, p + 1, i, cfg);
    assert rest[i - p - 1] == calls[i];
    FreezeHolds(armed, rest, k, cfg, until, i - p - 1);
  }

  lemma {:induction false} RunSplits(m: Guards, calls: seq<Call>, p: nat, i: nat, cfg: Config)
    requires p <= i <= |calls|
    ensures Run(m, calls[..i], cfg, true) == Run(Run(m, calls[..p], cfg, true), calls[p..][..i - p], cfg, true)
  {
    hide Step;
    if p < i {
      RunSplits(m, calls, p, i - 1, cfg);
      assert calls[..i][..i - 1] == calls[..i - 1];
      assert calls[p..][..i - p][..i - p - 1] == calls[p..][..i - 1 - p];
    }
  }

  // ---------------------------------------------------------------- how few losses can freeze, and for how long

  /** Losses count once or twice, so they bound the counter and the freeze it can set. */
  predicate Earned(m: Guards, k: Key, n: nat, cfg: Config) {
    var s := Entry(m, k);
    s.consecutiveLosses <= 2 * n && (s.frozenUntil.Some? ==> 2 * n >= Max(cfg.losses - 1, 1))
  }

  lemma EarnedStep(m: Guards, c: Call, k: Key, n: nat, cfg: Config)
    requires Earned(m, k, n, cfg)
    ensures Earned(Step(m, c, cfg, true).0, k, n + (if LossOf(c, k) then 1 else 0), cfg)
  {
    hide Decay, RegimePressure, Ewma, Threshold, FreezeSecs;
    if !c.Sweep? && c.key == k {
      var s, base := Entry(m, k), Max(cfg.freezeSecs, 1);
      DecayForgives(s, c.now, base);
      DecayKeepsFreeze(s, c.now, base);
      if c.Result? {
        var sample := RegimePressure(c.priority, c.toxicity, c.won);
        ThresholdRange(cfg.losses, Ewma(Decay(s, c.now, base).pressure, sample, 0.35));
      }
    }
  }

  lemma DecayForgives(s: State, now: Instant, base: nat)
    ensures Decay(s, now, base).consecutiveLosses <= s.consecutiveLosses
  {
    hide DecayFactor;
  }

  lemma {:induction false} EarnedRun(m: Guards, calls: seq<Call>, k: Key, cfg: Config)
    requires k !in m
    ensures Earned(Run(m, calls, cfg, true), k, Losses(calls, k), cfg)
  {
    hide Step, Earned;
    if calls == [] {
      NothingEarned(m, k, cfg);
    } else {
      var n := |calls| - 1;
      EarnedRun(m, calls[..n], k, cfg);
      EarnedStep(Run(m, calls[..n], cfg, true), calls[n], k, Losses(calls[..n], k), cfg);
    }
  }

  lemma NothingEarned(m: Guards, k: Key, cfg: Config)
    requires k !in m
    ensures Earned(m, k, 0, cfg)
  {}

  /** One context losing at the given times, always under the same scores. */
  function LosingStreak(k: Key, times: seq<Instant>, priority: real, toxicity: real): (calls: seq<Call>)
    ensures |calls| == |times|
    ensures forall j :: 0 <= j < |times| ==> calls[j] == Result(k, times[j], false, priority, toxicity)
  {
    seq(|times|, j requires 0 <= j < |times| => Result(k, times[j], false, priority, toxicity))
  }

  /** Each less than a decay window after the one before. */
  predicate Dense(times: seq<Instant>, cfg: Config) {
    forall j :: 0 < j < |times| ==> AsSecs(Since(times[j], times[j - 1])) < DecayWindow(Max(cfg.freezeSecs, 1))
  }

  /** What `n` such losses count for, the last of them at `last`. */
  function Steady(n: nat, last: Instant, pressure: real, cfg: Config): State {
    var losses := Min(if pressure >= 0.82 then 2 * n else n, MAX_U32);
    State(losses,
          if losses >= Threshold(cfg.losses, pressure) then Some(last + Secs(FreezeSecs(cfg.freezeSecs, pressure)))
          else None,
          Some(last), pressure)
  }

  lemma SteadyStep(n: nat, last: Instant, now: Instant, priority: real, toxicity: real, cfg: Config)
    requires n > 0 && RegimePressure(priority, toxicity, false) > EPSILON
    requires AsSecs(Since(now, last)) < DecayWindow(Max(cfg.freezeSecs, 1))
    ensures var p := RegimePressure(priority, toxicity, false);
            Record(Steady(n, last, p, cfg), now, false, priority, toxicity, cfg) == Steady(n + 1, now, p, cfg)
  {
    hide RegimePressure, Threshold, FreezeSecs;
    var p := RegimePressure(priority, toxicity, false);
    NoDecayYet(Steady(n, last, p, cfg), now, Max(cfg.freezeSecs, 1));
    hide Decay;
  }

  lemma SteadyStart(now: Instant, priority: real, toxicity: real, cfg: Config)
    requires RegimePressure(priority, toxicity, false) > EPSILON
    ensures Record(IDLE, now, false, priority, toxicity, cfg)
            == Steady(1, now, RegimePressure(priority, toxicity, false), cfg)
  {
    hide RegimePressure, Threshold, FreezeSecs;
  }

  /** A context that does nothing but lose under the same scores is frozen exactly once its losses, doubled at a
      pressure of 0.82 or more, reach the limit for that pressure, and then for the length of that pressure. */
  lemma {:induction false} LosingStreakFreezes(m: Guards, k: Key, times: seq<Instant>, priority: real, toxicity: real,
                                               cfg: Config)
    requires k !in m && times != [] && Dense(times, cfg) && RegimePressure(priority, toxicity, false) > EPSILON
    ensures var r := Run(m, LosingStreak(k, times, priority, toxicity), cfg, true);
            k in r && r[k] == Steady(|times|, times[|times| - 1], RegimePressure(priority, toxicity, false), cfg)
  {
    hide RegimePressure, Record, Dense, Steady;
    var n, calls := |times| - 1, LosingStreak(k, times, priority, toxicity);
    SteadyCounts(n + 1, times[n], RegimePressure(priority, toxicity, false), cfg);
    if n == 0 {
      assert calls[..0] == [];
      SteadyStart(times[0], priority, toxicity, cfg);
    } else {
      DenseStep(times, cfg);
      LosingStreakFreezes(m, k, times[..n], priority, toxicity, cfg);
      assert calls[..n] == LosingStreak(k, times[..n], priority, toxicity);
      SteadyStep(n, times[n - 1], times[n], priority, toxicity, cfg);
    }
  }

  lemma DenseStep(times: seq<Instant>, cfg: Config)
    requires Dense(times, cfg) && |times| > 1
    ensures var n := |times| - 1;
            Dense(times[..n], cfg)
            && AsSecs(Since(times[n], times[n - 1])) < DecayWindow(Max(cfg.freezeSecs, 1))
  {}

  lemma SteadyCounts(n: nat, last: Instant, pressure: real, cfg: Config)
    requires n > 0
    ensures Steady(n, last, pressure, cfg).consecutiveLosses > 0
  {}

  /** In the default context each loss counts once, the limit is the configured one, and the freeze a fifth longer
      than the base. */
  lemma DefaultContextFreezes(m: Guards, k: Key, times: seq<Instant>, cfg: Config)
    requires k !in m && times != [] && Dense(times, cfg)
    ensures var r := Run(m, LosingStreak(k, times, 0.5, 0.5), cfg, true);
            && k in r
            && (r[k].frozenUntil.Some? <==> |times| >= Max(cfg.losses, 1))
            && (r[k].frozenUntil.Some? ==>
                  r[k].frozenUntil.value == times[|times| - 1] + Secs(Min((12 * cfg.freezeSecs + 5) / 10, MAX_U64)))
  {
    hide Run, Dense, FreezeSecs;
    assert RegimePressure(0.5, 0.5, false) == 0.66;
    LosingStreakFreezes(m, k, times, 0.5, 0.5, cfg);
    FreezeBands(cfg.freezeSecs, 0.66);
  }

  /** Under a low priority and a high toxicity the limit is one less, and the freeze half as long again. */
  lemma ToxicContextFreezes(m: Guards, k: Key, times: seq<Instant>, cfg: Config)
    requires k !in m && times != [] && Dense(times, cfg)
    ensures var r := Run(m, LosingStreak(k, times, 0.4, 0.7), cfg, true);
            && k in r
            && (r[k].frozenUntil.Some? <==> |times| >= Max(cfg.losses - 1, 1))
            && (r[k].frozenUntil.Some? ==>
                  r[k].frozenUntil.value == times[|times| - 1] + Secs(Min((3 * cfg.freezeSecs + 1) / 2, MAX_U64)))
  {
    hide Run, Dense, FreezeSecs;
    assert RegimePressure(0.4, 0.7, false) == 0.806;
    LosingStreakFreezes(m, k, times, 0.4, 0.7, cfg);
    FreezeBands(cfg.freezeSecs, 0.806);
  }

  /** The fewest losses that can freeze a context are half of one less than the limit, rounded up, and at least one:
      no run freezes it with fewer, and a run of that many under the worst scores does. */
  lemma FewestLosses(k: Key, n: nat, cfg: Config)
    ensures (exists calls: seq<Call> ::
               Losses(calls, k) == n && Entry(Run(map[], calls, cfg, true), k).frozenUntil.Some?)
            <==> 2 * n >= Max(cfg.losses - 1, 1)
  {
    hide Run, Losses, Entry;
    if 2 * n >= Max(cfg.losses - 1, 1) {
      WorstLosses(k, n, cfg);
    } else {
      forall calls: seq<Call> | Losses(calls, k) == n
        ensures !Entry(Run(map[], calls, cfg, true), k).frozenUntil.Some?
      {
        EarnedRun(map[], calls, k, cfg);
      }
    }
  }

  lemma WorstLosses(k: Key, n: nat, cfg: Config)
    requires 2 * n >= Max(cfg.losses - 1, 1)
    ensures exists calls: seq<Call> ::
              Losses(calls, k) == n && Entry(Run(map[], calls, cfg, true), k).frozenUntil.Some?
  {
    hide Run, FreezeSecs, Losses;
    var times: seq<Instant> := seq(n, _ => 0);
    assert RegimePressure(0.0, 1.0, false) == 1.0;
    LosingStreakFreezes(map[], k, times, 0.0, 1.0, cfg);
    var calls := LosingStreak(k, times, 0.0, 1.0);
    AllLosses(calls, k);
  }

  lemma {:induction false} AllLosses(calls: seq<Call>, k: Key)
    requires forall j :: 0 <= j < |calls| ==> LossOf(calls[j], k)
    ensures Losses(calls, k) == |calls|
  {
    if calls != [] { AllLosses(calls[..|calls| - 1], k); }
  }

  lemma FloorOfQuotient(n: nat, d: nat)
    requires d > 0
    ensures (n as real / d as real).Floor == n / d
  {
    var q, r := n / d, n % d;
    assert n == q * d + r;
    var share := r as real / d as real;
    assert share * d as real == r as real;
    assert (q as real + share) * d as real == n as real;
    assert n as real / d as real == q as real + share;
  }

  /** A freeze lasts the base length, a fifth more from a pressure of 0.62, half more from 0.78 and twice as long from
      0.90, rounded to the nearest second. */
  lemma FreezeBands(base: U64, pressure: real)
    ensures FreezeSecs(base, pressure)
            == Min(if pressure >= 0.90 then 2 * base
                   else if pressure >= 0.78 then (3 * base + 1) / 2
                   else if pressure >= 0.62 then (12 * base + 5) / 10
                   else base, MAX_U64)
  {
    FloorOfQuotient(3 * base + 1, 2);
    FloorOfQuotient(12 * base + 5, 10);
    FloorOfQuotient(2 * base + 1, 2);
    FloorOfQuotient(4 * base + 1, 2);
    assert base as real * 1.5 + 0.5 == (3 * base + 1) as real / 2 as real;
    assert base as real * 1.2 + 0.5 == (12 * base + 5) as real / 10 as real;
    assert base as real * 1.0 + 0.5 == (2 * base + 1) as real / 2 as real;
    assert base as real * 2.0 + 0.5 == (4 * base + 1) as real / 2 as real;
  }

  // ---------------------------------------------------------------- pressure

  predicate UnitPressure(m: Guards) { forall k :: k in m ==> 0.0 <= m[k].pressure <= 1.0 }

  predicate StaysUnit(p: real, steps: U32) {
    hide DecayFactor;
    0.0 <= p <= 1.0 ==> 0.0 <= p * DecayFactor(steps) <= 1.0
  }

  /** A decay step keeps every pressure in the unit interval exactly when its step count, as the code casts
      it, is a non-negative signed exponent. */
  lemma DecayKeepsUnitExactlyWhen(steps: U32)
    requires steps >= 1
    ensures (forall p: real :: StaysUnit(p, steps)) <==> steps < TWO_31
  {
    FactorSize(steps);
    hide DecayFactor;
    if steps < TWO_31 {
      forall p: real ensures StaysUnit(p, steps) {
        if 0.0 <= p <= 1.0 { UnitProduct(p, DecayFactor(steps)); }
      }
    } else {
      assert !StaysUnit(1.0, steps);
    }
  }

  /** A check or a result that finds whole windows elapsed forgives as many losses, fades the pressure by 12 percent for
      each, and counts the next windows from itself; one that finds none, or nothing to forgive, changes nothing. */
  lemma DecayFades(s: State, start: Instant, now: Instant, base: nat)
    requires s.lastEventAt == Some(start) && start <= now && Windows(start, now, base) < TWO_31
    ensures var n := Windows(start, now, base);
            Decay(s, now, base)
            == if n == 0 || s.consecutiveLosses == 0 then s
               else State(Max(s.consecutiveLosses - n, 0), s.frozenUntil, Some(now), s.pressure * Pow(0.88, n))
  {
    var e, w := AsSecs(Since(now, start)), DecayWindow(base);
    FloorAdjoint(1, e, w);
    FloorAdjoint(0, e, w);
    hide Pow;
  }

  /** The first loss is forgiven after half the base freeze, and at least half a minute, to the nanosecond. */
  lemma FirstForgiveness(s: State, start: Instant, now: Instant, base: nat)
    requires s.lastEventAt == Some(start) && start <= now && s.consecutiveLosses > 0
    requires now <= start + Secs(Max(base / 2, 30))
    ensures Decay(s, now, base).consecutiveLosses
            == s.consecutiveLosses - (if now == start + Secs(Max(base / 2, 30)) then 1 else 0)
  {
    hide DecayFactor;
    var e := AsSecs(Since(now, start));
    if now == start + Secs(Max(base / 2, 30)) {
      assert e == Max(base / 2, 30) == DecayWindow(base);
      FloorAdjoint(1, e, e);
      FloorAdjoint(2, e, e);
    }
  }

  lemma FactorSize(steps: U32)
    ensures 0.0 < DecayFactor(steps)
    ensures DecayFactor(steps) <= 1.0 <==> steps < TWO_31
  {
    hide Pow;
    if steps < TWO_31 {
      PowPositive(steps);
    } else {
      PowPositive(TWO_32 - steps);
      Reciprocal(Pow(0.88, TWO_32 - steps));
    }
  }

  lemma Reciprocal(q: real)
    requires 0.0 < q < 1.0
    ensures 1.0 / q > 1.0
  {}

  /** Two instants close enough together that no elapsed window count reaches the sign bit. */
  predicate WithinSpan(t: Instant, from: Instant) { from <= t < from + Secs(30 * TWO_31) }

  ghost predicate Sound(m: Guards, from: Instant) {
    && UnitPressure(m)
    && forall k :: k in m && m[k].lastEventAt.Some? ==> from <= m[k].lastEventAt.value
  }

  lemma DecayUnit(s: State, now: Instant, base: nat, from: Instant)
    requires 0.0 <= s.pressure <= 1.0 && WithinSpan(now, from)
    requires s.lastEventAt.Some? ==> from <= s.lastEventAt.value
    ensures 0.0 <= Decay(s, now, base).pressure <= 1.0
    ensures Decay(s, now, base).lastEventAt.Some? ==> from <= Decay(s, now, base).lastEventAt.value
  {
    if s.lastEventAt.Some? {
      var d := Since(now, s.lastEventAt.value);
      var w := DecayWindow(base);
      assert AsSecs(d) < 30 * TWO_31;
      StepsBelow(AsSecs(d), w);
      var steps: U32 := Max(DecaySteps(AsSecs(d), base), 1);
      assert steps < TWO_31;
      PowPositive(steps);
    }
  }

  lemma StepsBelow(e: nat, w: nat)
    requires e < 30 * TWO_31 && w >= 30
    ensures 0 <= e / w < TWO_31
  {
    FloorAdjoint(TWO_31, e, w);
    Arithmetic.ProductMonotone(30, w, TWO_31);
    FloorAdjoint(0, e, w);
  }

  lemma EwmaUnit(current: real, sample: real)
    requires 0.0 <= current <= 1.0 && 0.0 <= sample <= 1.0
    ensures 0.0 <= Ewma(current, sample, 0.35) <= 1.0
  {}

  /** Regime pressure stays in the unit interval over every run, of results and checks in any order, that
      stays within the span above (about two thousand years). */
  lemma {:induction false} PressureStaysInUnit(m: Guards, calls: seq<Call>, cfg: Config, from: Instant)
    requires Sound(m, from)
    requires forall c :: c in calls ==> WithinSpan(c.now, from)
    ensures Sound(Run(m, calls, cfg, true), from)
  {
    hide WithinSpan, Decay, Retained, Threshold, FreezeSecs, Ewma, RegimePressure;
    if calls != [] {
      var n := |calls| - 1;
      PressureStaysInUnit(m, calls[..n], cfg, from);
      var m1, c := Run(m, calls[..n], cfg, true), calls[n];
      assert c in calls;
      assert WithinSpan(c.now, from);
      SpanStart(c.now, from);
      if !c.Sweep? {
        DecayUnit(Entry(m1, c.key), c.now, Max(cfg.freezeSecs, 1), from);
      }
      if c.Result? {
        var s := Entry(m1, c.key);
        PressureInUnit(c.priority, c.toxicity, c.won);
        EwmaUnit(Decay(s, c.now, Max(cfg.freezeSecs, 1)).pressure, RegimePressure(c.priority, c.toxicity, c.won));
      }
    }
  }

  lemma SpanStart(t: Instant, from: Instant)
    requires WithinSpan(t, from)
    ensures from <= t
  {}

  /** Pressure rises with toxicity, falls with priority, and is higher after a loss than after a win. */
  lemma PressureRises(priority: real, toxicity: real, priority': real, toxicity': real, won: bool)
    requires priority' <= priority && toxicity <= toxicity'
    ensures RegimePressure(priority, toxicity, won) <= RegimePressure(priority', toxicity', won)
    ensures RegimePressure(priority, toxicity, true)
            == MaxReal(0.0, Clamp(toxicity, 0.0, 1.0) * 0.62 + (1.0 - Clamp(priority, 0.0, 1.0)) * 0.22)
    ensures RegimePressure(priority, toxicity, false)
            == Clamp(RegimePressure(priority, toxicity, true) + 0.24, 0.0, 1.0)
  {}

  lemma PressureInUnit(priority: real, toxicity: real, won: bool)
    ensures 0.0 <= RegimePressure(priority, toxicity, won) <= 1.0
  {}

  // ---------------------------------------------------------------- how much polling forgives

  function PollAll(s: State, times: seq<Instant>, base: nat): State {
    if times == [] then s else Decay(PollAll(s, times[..|times| - 1], base), times[|times| - 1], base)
  }

  predicate Ordered(start: Instant, times: seq<Instant>) {
    && (forall i :: 0 <= i < |times| ==> start <= times[i])
    && (forall i, j :: 0 <= i < j < |times| ==> times[i] <= times[j])
  }

  /** Whole windows between two instants. */
  function Windows(from: Instant, to: Instant, base: nat): nat {
    FloorAdjoint(0, AsSecs(Since(to, from)), DecayWindow(base));
    AsSecs(Since(to, from)) / DecayWindow(base)
  }

  lemma WindowsAdd(a: Instant, b: Instant, c: Instant, base: nat)
    requires a <= b <= c
    ensures Windows(a, b, base) + Windows(b, c, base) <= Windows(a, c, base)
  {
    var w := DecayWindow(base);
    var x, y, z := AsSecs(b - a), AsSecs(c - b), AsSecs(c - a);
    assert x + y <= z;
    FloorAdjoint(x / w, x, w);
    FloorAdjoint(y / w, y, w);
    assert (x / w + y / w) * w == x / w * w + y / w * w;
    FloorAdjoint(x / w + y / w, z, w);
  }

  /** However often a context is polled, the losses forgiven never exceed the number of whole decay windows
      elapsed; and polling early only delays forgiveness: a single check at the end would forgive at least
      as much. */
  lemma {:induction false} ForgivenessIsBounded(s: State, times: seq<Instant>, base: nat, start: Instant)
    requires s.lastEventAt == Some(start) && Ordered(start, times)
    ensures var r := PollAll(s, times, base);
            && r.lastEventAt.Some? && start <= r.lastEventAt.value
            && r.lastEventAt.value <= (if times == [] then start else times[|times| - 1])
            && r.consecutiveLosses <= s.consecutiveLosses
            && s.consecutiveLosses - r.consecutiveLosses <= Windows(start, r.lastEventAt.value, base)
  {
    hide DecayFactor, Windows;
    if times != [] {
      var n := |times| - 1;
      var now := times[n];
      ForgivenessIsBounded(s, times[..n], base, start);
      var before := PollAll(s, times[..n], base);
      assert before.lastEventAt.value <= now;
      WindowsAdd(start, before.lastEventAt.value, now, base);
      OneDecay(before, now, base);
    }
  }

  lemma OneDecay(s: State, now: Instant, base: nat)
    requires s.lastEventAt.Some? && s.lastEventAt.value <= now
    ensures var r := Decay(s, now, base);
            && r.lastEventAt.Some? && (r.lastEventAt == s.lastEventAt || r.lastEventAt == Some(now))
            && 0 <= s.consecutiveLosses - r.consecutiveLosses <= Windows(s.lastEventAt.value, now, base)
            && (r.lastEventAt == s.lastEventAt && s.lastEventAt.value < now ==> r == s)
            && (Windows(s.lastEventAt.value, now, base) < TWO_32 ==>
                  s.consecutiveLosses - r.consecutiveLosses
                  == Min(s.consecutiveLosses, Windows(s.lastEventAt.value, now, base)))
  {
    hide DecayFactor;
    var e, w := AsSecs(Since(now, s.lastEventAt.value)), DecayWindow(base);
    FloorAdjoint(1, e, w);
    FloorAdjoint(0, e, w);
  }

  lemma ForgivenByTheEnd(s: State, times: seq<Instant>, base: nat, start: Instant)
    requires s.lastEventAt == Some(start) && times != [] && Ordered(start, times)
    ensures var end := times[|times| - 1];
            var r := PollAll(s, times, base);
            && s.consecutiveLosses - r.consecutiveLosses <= Windows(start, end, base)
            && (Windows(start, end, base) < TWO_32 ==> r.consecutiveLosses >= Decay(s, end, base).consecutiveLosses)
  {
    hide DecayFactor, Windows, Decay;
    var end := times[|times| - 1];
    ForgivenessIsBounded(s, times, base, start);
    WindowsAdd(start, PollAll(s, times, base).lastEventAt.value, end, base);
    OneDecay(s, end, base);
  }

  /** Polling at `times` before `end` forgives no more than the single check at `end`. */
  predicate PollingForgivesNoMore(s: State, times: seq<Instant>, start: Instant, end: Instant, base: nat) {
    Ordered(start, times + [end]) ==>
      PollAll(s, times + [end], base).consecutiveLosses >= Decay(s, end, base).consecutiveLosses
  }

  /** No schedule of polls forgives more than the single check exactly while the windows elapsed fit in 32 bits, or
      what is left of their count, once cast, still covers the losses. */
  lemma PollingForgivesNoMoreExactlyWhen(s: State, start: Instant, end: Instant, base: nat)
    requires s.lastEventAt == Some(start) && start <= end
    ensures (forall times :: PollingForgivesNoMore(s, times, start, end, base))
            <==> Windows(start, end, base) < TWO_32 || s.consecutiveLosses <= Max(Windows(start, end, base) % TWO_32, 1)
  {
    hide DecayFactor, Windows;
    var w := Windows(start, end, base);
    if w < TWO_32 {
      forall times ensures PollingForgivesNoMore(s, times, start, end, base) {
        if Ordered(start, times + [end]) { ForgivenByTheEnd(s, times + [end], base, start); }
      }
    } else if s.consecutiveLosses <= Max(w % TWO_32, 1) {
      LongDecay(s, start, end, base);
      hide Decay;
      assert forall times :: PollingForgivesNoMore(s, times, start, end, base);
    } else {
      LongDecay(s, start, end, base);
      EarlyPoll(s, start, end, base);
    }
  }

  /** After that many windows the step count is their number, cast. */
  lemma LongDecay(s: State, start: Instant, end: Instant, base: nat)
    requires s.lastEventAt == Some(start) && start <= end && Windows(start, end, base) >= 1
    ensures Decay(s, end, base).consecutiveLosses
            == Max(s.consecutiveLosses - Max(Windows(start, end, base) % TWO_32, 1), 0)
  {
    hide DecayFactor;
    FloorAdjoint(1, AsSecs(Since(end, start)), DecayWindow(base));
  }

  /** One poll just short of 2^32 windows forgives everything. */
  lemma EarlyPoll(s: State, start: Instant, end: Instant, base: nat)
    requires s.lastEventAt == Some(start) && start <= end && Windows(start, end, base) >= TWO_32
    requires s.consecutiveLosses > Max(Windows(start, end, base) % TWO_32, 1)
    ensures exists times :: !PollingForgivesNoMore(s, times, start, end, base)
  {
    hide DecayFactor;
    var early := start + Secs(DecayWindow(base) * (TWO_32 - 1));
    WindowsAt(start, end, base);
    hide Windows;
    LongDecay(s, start, end, base);
    LongDecay(s, start, early, base);
    var polled := Decay(s, early, base);
    assert polled.consecutiveLosses == 0;
    assert Decay(polled, end, base) == polled by { hide Max; }
    var times := [early];
    assert (times + [end])[..1] == times && times[..0] == [];
    assert PollAll(s, [], base) == s;
    assert PollAll(s, times, base) == polled;
    assert PollAll(s, times + [end], base) == polled;
    assert !PollingForgivesNoMore(s, times, start, end, base);
  }

  lemma WindowsAt(start: Instant, end: Instant, base: nat)
    requires start <= end && Windows(start, end, base) >= TWO_32
    ensures var early := start + Secs(DecayWindow(base) * (TWO_32 - 1));
            start <= early <= end && Windows(start, early, base) == TWO_32 - 1
  {
    var w := DecayWindow(base);
    FloorAdjoint(TWO_32, AsSecs(Since(end, start)), w);
    FloorAdjoint(TWO_32 - 1, w * (TWO_32 - 1), w);
    FloorAdjoint(TWO_32, w * (TWO_32 - 1), w);
    assert AsSecs(Since(start + Secs(w * (TWO_32 - 1)), start)) == w * (TWO_32 - 1);
  }
}
