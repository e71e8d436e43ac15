/** One RPC endpoint: failure counters that decay with time, burst reservations, cooldowns and the score. */
module RpcEndpoint {
  import opened Arithmetic
  import opened Options
  import opened Clock
  import Reals

  datatype RpcKind = Tenderly | GetBlock | Generic | Alchemy | Infura

  datatype FailureKind = Timeout | RateLimited | CapacityExhausted | Stale | Transport | Remote

  datatype Burst = Burst(reservedAt: Instant, units: nat)

  datatype State = State(
    failures: U32,
    timeoutFailures: U32,
    rateLimitFailures: U32,
    staleFailures: U32,
    lastFailureDecayAt: Instant,
    disabled: bool,
    cooldownUntil: Option<Instant>,
    avgLatencySecs: Option<real>,
    lastBlock: Option<nat>,
    lastBlockAt: Option<Instant>,
    bursts: seq<Burst>,
    lastSelectedAt: Option<Instant>)

  const DECAY_SECS: nat := 20
  const BURST_WINDOW_MS: nat := 1_200

  function Sub32(a: U32, b: nat): U32 { if b <= a then a - b else 0 }

  function Mul32(a: U32, b: U32): U32 {
    NonNegativeProduct(a, b);
    if a * b <= MAX_U32 then a * b else MAX_U32
  }

  // ---------------------------------------------------------------- failure decay

  /** Whole decay periods between two instants. */
  function Periods(at: Instant, now: Instant): nat { AsSecs(Since(now, at)) / DECAY_SECS }

  /** One decay call: the period count is truncated to 32 bits, every subtraction saturates, and the decay
      timestamp moves by whole periods. */
  function Decay(s: State, now: Instant): State {
    var steps: U32 := Periods(s.lastFailureDecayAt, now) % TWO_32;
    if steps == 0 then s
    else s.(lastFailureDecayAt := s.lastFailureDecayAt + Secs(DECAY_SECS * steps),
            failures := Sub32(s.failures, Mul32(steps, 2)),
            timeoutFailures := Sub32(s.timeoutFailures, Mul32(steps, 2)),
            staleFailures := Sub32(s.staleFailures, Mul32(steps, 2)),
            rateLimitFailures := Sub32(s.rateLimitFailures, Mul32(steps, 4)))
  }

  /** The same with the count given, in plain arithmetic. */
  function DecayBy(s: State, n: nat): State {
    s.(lastFailureDecayAt := s.lastFailureDecayAt + Secs(DECAY_SECS * n),
       failures := Sub32(s.failures, 2 * n),
       timeoutFailures := Sub32(s.timeoutFailures, 2 * n),
       staleFailures := Sub32(s.staleFailures, 2 * n),
       rateLimitFailures := Sub32(s.rateLimitFailures, 4 * n))
  }

  function DecayAll(s: State, times: seq<Instant>): State {
    if times == [] then s else Decay(DecayAll(s, times[..|times| - 1]), times[|times| - 1])
  }

  lemma DecayIsDecayBy(s: State, now: Instant)
    requires Periods(s.lastFailureDecayAt, now) < TWO_32
    ensures Decay(s, now) == DecayBy(s, Periods(s.lastFailureDecayAt, now))
  {}

  lemma PeriodsAfter(at: Instant, n: nat, now: Instant)
    requires n <= Periods(at, now)
    ensures Periods(at + Secs(DECAY_SECS * n), now) == Periods(at, now) - n
  {
    var d := Since(now, at);
    assert Secs(DECAY_SECS * n) == 20_000_000_000 * n;
    if n > 0 {
      assert d == now - at >= 20_000_000_000 * n;
      assert AsSecs(d - 20_000_000_000 * n) == AsSecs(d) - 20 * n;
    }
  }

  lemma PeriodsMonotone(at: Instant, now: Instant, later: Instant)
    requires now <= later
    ensures Periods(at, now) <= Periods(at, later)
  {}

  predicate Ordered(times: seq<Instant>) { forall i, j :: 0 <= i < j < |times| ==> times[i] <= times[j] }

  lemma {:induction false} DecayAllIsDecayBy(s: State, times: seq<Instant>)
    requires times != [] && Ordered(times)
    requires Periods(s.lastFailureDecayAt, times[|times| - 1]) < TWO_32
    ensures DecayAll(s, times) == DecayBy(s, Periods(s.lastFailureDecayAt, times[|times| - 1]))
  {
    hide Periods, Decay;
    var n := |times| - 1;
    var end, at := times[n], s.lastFailureDecayAt;
    if n == 0 {
      assert DecayAll(s, times[..n]) == s;
      DecayIsDecayBy(s, end);
    } else {
      var mid := times[n - 1];
      PeriodsMonotone(at, mid, end);
      DecayAllIsDecayBy(s, times[..n]);
      var p := Periods(at, mid);
      PeriodsAfter(at, p, end);
      DecayIsDecayBy(DecayBy(s, p), end);
    }
  }

  /** A schedule of earlier polls leaves no trace at `end`. */
  predicate PollingInvisible(s: State, times: seq<Instant>, end: Instant) {
    Ordered(times + [end]) ==> DecayAll(s, times + [end]) == Decay(s, end)
  }

  /** Failure decay is independent of polling: for every schedule of intermediate decay calls, all four
      counters and the decay timestamp are what a single call at the end gives. This holds for all
      schedules exactly while the periods elapsed fit in 32 bits. */
  lemma DecayIndependentOfPolling(s: State, end: Instant)
    ensures (forall times :: PollingInvisible(s, times, end)) <==> Periods(s.lastFailureDecayAt, end) < TWO_32
  {
    if Periods(s.lastFailureDecayAt, end) < TWO_32 {
      forall times ensures PollingInvisible(s, times, end) {
        if Ordered(times + [end]) {
          DecayAllIsDecayBy(s, times + [end]);
          DecayIsDecayBy(s, end);
        }
      }
    } else {
      PollingShows(s, end);
    }
  }

  /** Past that, two well-placed polls move the timestamp further than the single call does. */
  lemma PollingShows(s: State, end: Instant)
    requires Periods(s.lastFailureDecayAt, end) >= TWO_32
    ensures exists times :: !PollingInvisible(s, times, end)
  {
    var at := s.lastFailureDecayAt;
    var p := Periods(at, end);
    var t1, t2 := at + Secs(DECAY_SECS * (TWO_32 - 1)), at + Secs(DECAY_SECS * TWO_32);
    var times := [t1, t2];
    FarPeriods(at, TWO_32 - 1);
    FarPeriods(at, TWO_32);
    FarEnough(at, end);
    var s1 := Decay(s, t1);
    assert s1.lastFailureDecayAt == t1;
    PeriodsAfter(at, TWO_32 - 1, t2);
    var s2 := Decay(s1, t2);
    assert s2.lastFailureDecayAt == t2;
    PeriodsAfter(at, TWO_32, end);
    assert (p - TWO_32) % TWO_32 == p % TWO_32;
    assert Decay(s2, end).lastFailureDecayAt == t2 + Secs(DECAY_SECS * (p % TWO_32));
    assert Decay(s, end).lastFailureDecayAt == at + Secs(DECAY_SECS * (p % TWO_32));
    assert (times + [end])[..2] == times && times[..1] == [t1] && [t1][..0] == [];
    assert DecayAll(s, [t1]) == s1;
    assert DecayAll(s, times) == s2;
    assert DecayAll(s, times + [end]) == Decay(s2, end);
    assert !PollingInvisible(s, times, end);
  }

  lemma FarPeriods(at: Instant, n: nat)
    ensures Periods(at, at + Secs(DECAY_SECS * n)) == n
  {
    assert Secs(DECAY_SECS * n) == 20_000_000_000 * n;
    assert AsSecs(20_000_000_000 * n) == 20 * n;
  }

  lemma FarEnough(at: Instant, end: Instant)
    requires Periods(at, end) >= TWO_32
    ensures at + Secs(DECAY_SECS * TWO_32) <= end
  {}

  // ---------------------------------------------------------------- burst reservations

  predicate BurstOld(b: Burst, now: Instant) { Since(now, b.reservedAt) > Millis(BURST_WINDOW_MS) }

  function PruneBursts(q: seq<Burst>, now: Instant): seq<Burst> {
    if q != [] && BurstOld(q[0], now) then PruneBursts(q[1..], now) else q
  }

  function Load(q: seq<Burst>, now: Instant): nat {
    if q == [] then 0 else (if BurstOld(q[0], now) then 0 else q[0].units) + Load(q[1..], now)
  }

  lemma {:induction false} PruneKeepsLoad(q: seq<Burst>, now: Instant, later: Instant)
    requires now <= later
    ensures Load(PruneBursts(q, now), later) == Load(q, later)
  {
    if q != [] && BurstOld(q[0], now) { PruneKeepsLoad(q[1..], now, later); }
  }

  lemma {:induction false} LoadAppend(q: seq<Burst>, b: Burst, now: Instant)
    ensures Load(q + [b], now) == Load(q, now) + (if BurstOld(b, now) then 0 else b.units)
  {
    if q == [] {
      assert q + [b] == [b];
      assert [b][1..] == [];
    } else {
      assert (q + [b])[1..] == q[1..] + [b];
      LoadAppend(q[1..], b, now);
    }
  }

  datatype BurstCall = Reserve(now: Instant, units: nat) | Touch(now: Instant)

  /** The queue the code keeps: every call prunes, a reservation also appends. */
  function Queue(calls: seq<BurstCall>): seq<Burst> {
    if calls == [] then []
    else
      var c := calls[|calls| - 1];
      var kept := PruneBursts(Queue(calls[..|calls| - 1]), c.now);
      if c.Reserve? then kept + [Burst(c.now, c.units)] else kept
  }

  /** Every reservation ever made. */
  function History(calls: seq<BurstCall>): seq<Burst> {
    if calls == [] then []
    else
      var c := calls[|calls| - 1];
      var rest := History(calls[..|calls| - 1]);
      if c.Reserve? then rest + [Burst(c.now, c.units)] else rest
  }

  /** The pruned queue answers the load query exactly as the full history would, at the last call and at
      every later instant. */
  lemma {:induction false} QueueAnswersAsHistory(calls: seq<BurstCall>, at: Instant)
    requires forall i :: 0 <= i < |calls| ==> calls[i].now <= at
    ensures Load(Queue(calls), at) == Load(History(calls), at)
  {
    if calls != [] {
      var n := |calls| - 1;
      QueueAnswersAsHistory(calls[..n], at);
      var c := calls[n];
      PruneKeepsLoad(Queue(calls[..n]), c.now, at);
      if c.Reserve? {
        LoadAppend(PruneBursts(Queue(calls[..n]), c.now), Burst(c.now, c.units), at);
        LoadAppend(History(calls[..n]), Burst(c.now, c.units), at);
      }
    }
  }

  // ---------------------------------------------------------------- refreshing, health, score

  /** What every look at an endpoint does first. */
  function Refresh(s: State, now: Instant): State {
    hide Decay, PruneBursts;
    Decay(s.(bursts := PruneBursts(s.bursts, now)), now)
  }

  predicate Eligible(s: State, now: Instant) {
    !s.disabled && !(s.cooldownUntil.Some? && s.cooldownUntil.value > now)
  }

  function BurstCapacity(k: RpcKind, send: bool): nat {
    match (k, send)
    case (Alchemy, false) => 24
    case (Alchemy, true) => 18
    case (Infura, false) => 30
    case (Infura, true) => 12
    case (Tenderly, false) => 10
    case (Tenderly, true) => 8
    case (GetBlock, false) => 10
    case (GetBlock, true) => 8
    case (Generic, false) => 12
    case (Generic, true) => 10
  }

  function BurstCost(k: RpcKind, send: bool): nat {
    match (k, send)
    case (Alchemy, false) => 1
    case (Alchemy, true) => 7
    case (Infura, false) => 1
    case (Infura, true) => 6
    case (Tenderly, false) => 2
    case (Tenderly, true) => 8
    case (GetBlock, false) => 1
    case (GetBlock, true) => 5
    case (Generic, false) => 2
    case (Generic, true) => 6
  }

  /** Health of a refreshed state. */
  predicate HealthyNow(k: RpcKind, s: State, now: Instant) {
    && Eligible(s, now)
    && s.failures == 0 && s.rateLimitFailures == 0 && s.timeoutFailures == 0 && s.staleFailures == 0
    && Load(s.bursts, now) < BurstCapacity(k, false)
    && (s.lastBlockAt.Some? ==> Since(now, s.lastBlockAt.value) <= Secs(20))
  }

  predicate Healthy(k: RpcKind, s: State, now: Instant) { HealthyNow(k, Refresh(s, now), now) }

  /** What the load costs against the capacity; `pow` stands for the 2.2 power of the burst ratio. */
  function BurstPenalty(load: nat, capacity: nat, pow: real -> real): real {
    var ratio := load as real / Max(capacity, 1) as real;
    if ratio >= 1.0 then 25000.0 + (ratio - 1.0) * 8000.0 else pow(ratio) * 2200.0
  }

  function FailurePenalty(k: RpcKind, s: State): real {
    Min(s.failures, 20) as real * 180.0 + Min(s.rateLimitFailures, 12) as real * 900.0
    + (if k.Infura? && s.rateLimitFailures > 0 then 2500.0 else 0.0)
  }

  function StalePenalty(s: State, now: Instant): real {
    if s.lastBlockAt.Some? && Since(now, s.lastBlockAt.value) > Secs(30) then 500.0 else 0.0
  }

  function RecencyPenalty(s: State, now: Instant): real {
    if s.lastSelectedAt.None? then 0.0
    else
      var elapsedMs := (Since(now, s.lastSelectedAt.value) / NANOS_PER_MILLI) as real;
      if elapsedMs < 180.0 then (180.0 - elapsedMs) * 2.4 else 0.0
  }

  /** The score of a refreshed, eligible state: the lower the better. */
  function ScoreNow(k: RpcKind, s: State, now: Instant, send: bool, pow: real -> real): Option<real> {
    if !Eligible(s, now) then None
    else
      var latencyMs := if s.avgLatencySecs.Some? then s.avgLatencySecs.value * 1000.0 else 120.0;
      Some(latencyMs + FailurePenalty(k, s) + StalePenalty(s, now)
           + BurstPenalty(Load(s.bursts, now), BurstCapacity(k, send), pow) + RecencyPenalty(s, now)
           + KindBias(k, send))
  }

  function KindBias(k: RpcKind, send: bool): real {
    match (k, send)
    case (Tenderly, true) => -80.0
    case (Tenderly, false) => -120.0
    case (GetBlock, _) => -140.0
    case (Generic, _) => -20.0
    case (Alchemy, true) => 0.0
    case (Alchemy, false) => -100.0
    case (Infura, true) => -50.0
    case (Infura, false) => 0.0
  }

  function Score(k: RpcKind, s: State, now: Instant, send: bool, pow: real -> real): Option<real> {
    ScoreNow(k, Refresh(s, now), now, send, pow)
  }

  lemma {:induction false} PruneTwice(q: seq<Burst>, now: Instant)
    ensures PruneBursts(PruneBursts(q, now), now) == PruneBursts(q, now)
  {
    if q != [] && BurstOld(q[0], now) { PruneTwice(q[1..], now); }
  }

  lemma DecayTwice(s: State, now: Instant)
    ensures Decay(Decay(s, now), now) == Decay(s, now)
  {
    var p := Periods(s.lastFailureDecayAt, now);
    var steps := p % TWO_32;
    PeriodsAfter(s.lastFailureDecayAt, steps, now);
    assert p - steps == TWO_32 * (p / TWO_32);
    assert (p - steps) % TWO_32 == 0;
  }

  /** Looking twice at one instant is looking once, and looking never changes eligibility. */
  lemma RefreshTwice(s: State, now: Instant)
    ensures Refresh(Refresh(s, now), now) == Refresh(s, now)
    ensures forall t :: Eligible(Refresh(s, now), t) == Eligible(s, t)
  {
    hide PruneBursts;
    var s1 := s.(bursts := PruneBursts(s.bursts, now));
    PruneTwice(s.bursts, now);
    DecayTwice(s1, now);
    assert Decay(s1, now).bursts == s1.bursts;
    assert Decay(s1, now).(bursts := s1.bursts) == Decay(s1, now);
  }

  /** Pruning is invisible to health and score: with the full reservation history in place of the pruned
      queue, both come out the same. */
  lemma PruningInvisible(k: RpcKind, s: State, calls: seq<BurstCall>, now: Instant, send: bool, pow: real -> real)
    requires forall i :: 0 <= i < |calls| ==> calls[i].now <= now
    ensures var pruned, full := s.(bursts := Queue(calls)), s.(bursts := History(calls));
            Healthy(k, pruned, now) == Healthy(k, full, now)
            && Score(k, pruned, now, send, pow) == Score(k, full, now, send, pow)
  {
    hide HealthyNow, ScoreNow, Queue, History, PruneBursts, Load, Periods;
    var pruned, full := s.(bursts := Queue(calls)), s.(bursts := History(calls));
    QueueAnswersAsHistory(calls, now);
    PruneKeepsLoad(Queue(calls), now, now);
    PruneKeepsLoad(History(calls), now, now);
    var a, b := Refresh(pruned, now), Refresh(full, now);
    assert a.(bursts := []) == b.(bursts := []);
    OnlyLoadMatters(k, a, b, now, send, pow);
  }

  /** Health and score see the reservations only through the load. */
  lemma OnlyLoadMatters(k: RpcKind, a: State, b: State, now: Instant, send: bool, pow: real -> real)
    requires a.(bursts := []) == b.(bursts := []) && Load(a.bursts, now) == Load(b.bursts, now)
    ensures HealthyNow(k, a, now) == HealthyNow(k, b, now)
    ensures ScoreNow(k, a, now, send, pow) == ScoreNow(k, b, now, send, pow)
  {
    hide Load, BurstCapacity, KindBias, BurstPenalty;
    assert b == a.(bursts := b.bursts);
  }

  // ---------------------------------------------------------------- what the score prefers

  /** A fresh endpoint. */
  function Fresh(now: Instant): State { State(0, 0, 0, 0, now, false, None, None, None, None, [], None) }

  /** What the ordering needs to know of the power: it rises from 0 to 1 with its argument. */
  ghost predicate PowerLike(pow: real -> real) {
    && (forall x :: 0.0 <= x <= 1.0 ==> 0.0 <= pow(x) <= 1.0)
    && (forall x, y :: 0.0 <= x <= y <= 1.0 ==> pow(x) <= pow(y))
  }

  /** An endpoint never measured counts as taking 120 milliseconds. */
  function Latency(s: State): real { if s.avgLatencySecs.Some? then s.avgLatencySecs.value else 0.12 }

  /** Of two refreshed endpoints the first is in no respect the worse: latency, failures, rate limits, load, age of
      its last block, time since it was last chosen. */
  predicate NoWorse(a: State, b: State, now: Instant) {
    && Latency(a) <= Latency(b) && a.failures <= b.failures && a.rateLimitFailures <= b.rateLimitFailures
    && Load(a.bursts, now) <= Load(b.bursts, now)
    && (a.lastBlockAt.Some? ==> b.lastBlockAt.Some? && b.lastBlockAt.value <= a.lastBlockAt.value)
    && (a.lastSelectedAt.Some? ==> b.lastSelectedAt.Some? && a.lastSelectedAt.value <= b.lastSelectedAt.value)
  }

  /** And better in one the score can tell: latency, a failure or rate limit below its cap, a load once past the
      capacity, or a block no longer fresh. */
  predicate Better(k: RpcKind, a: State, b: State, now: Instant, send: bool) {
    && NoWorse(a, b, now)
    && (Latency(a) < Latency(b)
        || (a.failures < b.failures && a.failures < 20)
        || (a.rateLimitFailures < b.rateLimitFailures && a.rateLimitFailures < 12)
        || (Load(a.bursts, now) < Load(b.bursts, now) && Load(b.bursts, now) >= BurstCapacity(k, send))
        || (b.lastBlockAt.Some? && Since(now, b.lastBlockAt.value) > Secs(30)
            && (a.lastBlockAt.Some? ==> Since(now, a.lastBlockAt.value) <= Secs(30))))
  }

  lemma BurstRises(a: nat, b: nat, capacity: nat, pow: real -> real)
    requires PowerLike(pow) && a <= b && capacity > 0
    ensures 0.0 <= BurstPenalty(a, capacity, pow) <= BurstPenalty(b, capacity, pow)
    ensures a < b && b >= capacity ==> BurstPenalty(a, capacity, pow) < BurstPenalty(b, capacity, pow)
  {
    RatioOrder(a, b, capacity);
    RatioOrder(capacity, b, capacity);
    RatioOrder(a, capacity, capacity);
  }

  lemma RatioOrder(a: nat, b: nat, capacity: nat)
    requires capacity > 0
    ensures 0.0 <= a as real / capacity as real && capacity as real / capacity as real == 1.0
    ensures a <= b <==> a as real / capacity as real <= b as real / capacity as real
  {
    if a < b { Reals.QuotientStrict(a as real, b as real, capacity as real); }
    if b < a { Reals.QuotientStrict(b as real, a as real, capacity as real); }
    if 0 < a { Reals.QuotientStrict(0.0, a as real, capacity as real); }
  }

  lemma RecencyRises(a: State, b: State, now: Instant)
    requires a.lastSelectedAt.Some? ==> b.lastSelectedAt.Some? && a.lastSelectedAt.value <= b.lastSelectedAt.value
    ensures 0.0 <= RecencyPenalty(a, now) <= RecencyPenalty(b, now)
  {}

  lemma StaleRises(a: State, b: State, now: Instant)
    requires a.lastBlockAt.Some? ==> b.lastBlockAt.Some? && b.lastBlockAt.value <= a.lastBlockAt.value
    ensures 0.0 <= StalePenalty(a, now) <= StalePenalty(b, now)
  {}

  lemma FailuresRise(k: RpcKind, a: State, b: State)
    requires a.failures <= b.failures && a.rateLimitFailures <= b.rateLimitFailures
    ensures FailurePenalty(k, a) <= FailurePenalty(k, b)
    ensures (a.failures < b.failures && a.failures < 20) || (a.rateLimitFailures < b.rateLimitFailures
                                                             && a.rateLimitFailures < 12) ==>
              FailurePenalty(k, a) < FailurePenalty(k, b)
  {
    CappedOrder(a.failures, b.failures, 20);
    CappedOrder(a.rateLimitFailures, b.rateLimitFailures, 12);
    hide Min;
  }

  lemma CappedOrder(x: nat, y: nat, cap: nat)
    requires x <= y
    ensures Min(x, cap) as real <= Min(y, cap) as real
    ensures x < y && x < cap ==> Min(x, cap) as real < Min(y, cap) as real
  {}

  /** Between two eligible endpoints of one kind the score is lower, so preferred, for the one that is no worse, and
      strictly lower when it is better in a respect the score can tell. */
  lemma ScorePrefersBetter(k: RpcKind, a: State, b: State, now: Instant, send: bool, pow: real -> real)
    requires PowerLike(pow) && Eligible(a, now) && Eligible(b, now) && NoWorse(a, b, now)
    ensures ScoreNow(k, a, now, send, pow).Some? && ScoreNow(k, b, now, send, pow).Some?
    ensures ScoreNow(k, a, now, send, pow).value <= ScoreNow(k, b, now, send, pow).value
    ensures Better(k, a, b, now, send) ==>
              ScoreNow(k, a, now, send, pow).value < ScoreNow(k, b, now, send, pow).value
  {
    BurstRises(Load(a.bursts, now), Load(b.bursts, now), BurstCapacity(k, send), pow);
    RecencyRises(a, b, now);
    StaleRises(a, b, now);
    FailuresRise(k, a, b);
    hide Load, BurstPenalty, RecencyPenalty, FailurePenalty, Eligible, PowerLike, KindBias, BurstCapacity;
  }

  /** The standing of the kinds, for endpoints otherwise alike that are idle and not rate-limited. */
  function Standing(send: bool): seq<RpcKind> {
    if send then [GetBlock, Tenderly, Infura, Generic, Alchemy] else [GetBlock, Tenderly, Alchemy, Generic, Infura]
  }

  /** By how many milliseconds each of them leads the next. */
  function Lead(send: bool): seq<real> { if send then [60.0, 30.0, 30.0, 20.0] else [20.0, 20.0, 80.0, 20.0] }

  lemma KindsLead(i: nat, s: State, now: Instant, send: bool, pow: real -> real)
    requires i < 4 && Eligible(s, now) && s.rateLimitFailures == 0 && Load(s.bursts, now) == 0
    ensures ScoreNow(Standing(send)[i], s, now, send, pow).Some?
    ensures ScoreNow(Standing(send)[i + 1], s, now, send, pow)
            == Some(ScoreNow(Standing(send)[i], s, now, send, pow).value + Lead(send)[i])
  {
    IdleBurst(Standing(send)[i], send, pow);
    IdleBurst(Standing(send)[i + 1], send, pow);
    hide Load, BurstPenalty, RecencyPenalty, StalePenalty, BurstCapacity;
  }

  lemma KindsStand(i: nat, j: nat, s: State, now: Instant, send: bool, pow: real -> real)
    requires i < j < 5 && Eligible(s, now) && s.rateLimitFailures == 0 && Load(s.bursts, now) == 0
    ensures ScoreNow(Standing(send)[i], s, now, send, pow).Some? && ScoreNow(Standing(send)[j], s, now, send, pow).Some?
    ensures ScoreNow(Standing(send)[i], s, now, send, pow).value < ScoreNow(Standing(send)[j], s, now, send, pow).value
  {
    IdleBurst(Standing(send)[i], send, pow);
    IdleBurst(Standing(send)[j], send, pow);
    hide Load, BurstPenalty, RecencyPenalty, StalePenalty, BurstCapacity;
  }

  lemma IdleBurst(k: RpcKind, send: bool, pow: real -> real)
    ensures BurstPenalty(0, BurstCapacity(k, send), pow) == pow(0.0) * 2200.0
  {
    RatioOrder(0, 0, BurstCapacity(k, send));
    assert 0.0 / BurstCapacity(k, send) as real == 0.0;
  }

  /** Where penalties stop: past 20 failures and 12 rate limits nothing is added, and 180 milliseconds after being
      chosen an endpoint scores as if it never had been. */
  lemma PenaltiesLevelOff(k: RpcKind, s: State, failures: U32, rateLimits: U32, chosen: Instant, now: Instant,
                          send: bool, pow: real -> real)
    requires s.failures >= 20 && failures >= 20 && s.rateLimitFailures >= 12 && rateLimits >= 12
    requires s.lastSelectedAt.None? && chosen + Millis(180) <= now
    ensures ScoreNow(k, s.(failures := failures, rateLimitFailures := rateLimits, lastSelectedAt := Some(chosen)),
                     now, send, pow) == ScoreNow(k, s, now, send, pow)
  {
    var t := s.(failures := failures, rateLimitFailures := rateLimits, lastSelectedAt := Some(chosen));
    assert RecencyPenalty(t, now) == RecencyPenalty(s, now) == 0.0;
    assert FailurePenalty(k, t) == FailurePenalty(k, s);
    hide Load, BurstPenalty, RecencyPenalty, FailurePenalty, BurstCapacity, KindBias;
  }

  /** The first rate limit costs an Infura endpoint 2500 milliseconds more than any other. */
  lemma FirstRateLimit(k: RpcKind, s: State)
    requires s.rateLimitFailures == 0
    ensures FailurePenalty(k, s.(rateLimitFailures := 1))
            == FailurePenalty(k, s) + (if k.Infura? then 3400.0 else 900.0)
  {}

  /** What the weights come to: an idle Generic endpoint averaging 40 milliseconds, a loaded Infura one that has failed,
      been rate-limited, fallen behind and just been chosen, and one at its read capacity. */
  lemma WorkedScores(pow: real -> real)
    requires pow(0.0) == 0.0
    ensures ScoreNow(Generic, Fresh(0).(avgLatencySecs := Some(0.04)), 0, false, pow) == Some(20.0)
    ensures ScoreNow(Infura,
                     Fresh(0).(failures := 3, rateLimitFailures := 2, avgLatencySecs := Some(0.25),
                               lastBlockAt := Some(0), bursts := [Burst(Secs(40), 18)],
                               lastSelectedAt := Some(Secs(40))),
                     Secs(40) + Millis(100), true, pow)
            == Some(250.0 + 540.0 + 1800.0 + 500.0 + 2500.0 + 29000.0 + 192.0 - 50.0)
    ensures ScoreNow(Infura, Fresh(0).(bursts := [Burst(0, 30)]), 0, false, pow) == Some(120.0 + 25000.0)
  {
    LoadAppend([], Burst(0, 30), 0);
    assert [] + [Burst(0, 30)] == [Burst(0, 30)];
    assert BurstPenalty(30, 30, pow) == 25000.0;
    IdleBurst(Generic, false, pow);
    LoadAppend([], Burst(Secs(40), 18), Secs(40) + Millis(100));
    assert [] + [Burst(Secs(40), 18)] == [Burst(Secs(40), 18)];
    assert BurstPenalty(18, 12, pow) == 29000.0;
    hide BurstPenalty, Load;
    assert Load(Fresh(0).bursts, 0) == 0 by { NoLoad(); }
  }

  lemma NoLoad()
    ensures forall now :: Load([], now) == 0
  {}

  // ---------------------------------------------------------------- outcomes

  function Pow2(n: nat): nat { if n == 0 then 1 else 2 * Pow2(n - 1) }

  function AfterSuccess(s: State, latencySecs: real, block: Option<nat>, now: Instant): State {
    var r := Refresh(s, now);
    r.(avgLatencySecs := Some(if r.avgLatencySecs.Some? then r.avgLatencySecs.value * 0.72 + latencySecs * 0.28
                              else latencySecs),
       failures := Sub32(r.failures, 1),
       timeoutFailures := Sub32(r.timeoutFailures, 1),
       rateLimitFailures := Sub32(r.rateLimitFailures, 1),
       staleFailures := Sub32(r.staleFailures, 1),
       lastBlock := if block.Some? then block else r.lastBlock,
       lastBlockAt := if block.Some? then Some(now) else r.lastBlockAt,
       cooldownUntil := if r.cooldownUntil.Some? && r.cooldownUntil.value <= now then None else r.cooldownUntil)
  }

  /** The counters a failure of each kind raises, and the cooldown it asks for. */
  function Penalize(r: State, kind: FailureKind): (State, nat) {
    match kind
    case RateLimited =>
      var n := SatAdd32(r.rateLimitFailures, 1);
      (r.(rateLimitFailures := n), Secs(Pow2(Min(n, 4)) * 2))
    case CapacityExhausted =>
      (r.(rateLimitFailures := SatAdd32(r.rateLimitFailures, 10), disabled := true), Secs(24 * 60 * 60))
    case Timeout =>
      var n := SatAdd32(r.timeoutFailures, 1);
      (r.(timeoutFailures := n), Millis(400 * Pow2(Min(n, 5))))
    case Stale => (r.(staleFailures := SatAdd32(r.staleFailures, 1)), Millis(900))
    case Transport => (r, Millis(700))
    case Remote => (r, Millis(500))
  }

  function AfterFailure(s: State, kind: FailureKind, now: Instant): State {
    var r := Refresh(s, now);
    var (raised, cooldown) := Penalize(r.(failures := SatAdd32(r.failures, 1)), kind);
    var until := now + Min(cooldown, Secs(45));
    raised.(cooldownUntil := Some(if raised.cooldownUntil.Some? && raised.cooldownUntil.value > until
                                  then raised.cooldownUntil.value else until))
  }

  function AfterReserve(k: RpcKind, s: State, units: nat, now: Instant): State {
    var r := Refresh(s, now);
    var r1 := r.(bursts := r.bursts + [Burst(now, units)], lastSelectedAt := Some(now));
    if Load(r1.bursts, now) >= BurstCapacity(k, true) * 2 then r1.(cooldownUntil := Some(now + Millis(900))) else r1
  }

  /** A failure always leaves the endpoint ineligible for a positive time, never longer than 45 seconds beyond
      any cooldown already running, and never brings an earlier deadline forward. */
  lemma FailureCools(s: State, kind: FailureKind, now: Instant)
    ensures var after := AfterFailure(s, kind, now);
            && after.cooldownUntil.Some? && !Eligible(after, now)
            && (s.cooldownUntil.Some? ==> after.cooldownUntil.value >= s.cooldownUntil.value)
            && (after.cooldownUntil.value <= now + Secs(45) || after.cooldownUntil == s.cooldownUntil)
            && (kind.CapacityExhausted? ==> after.disabled)
  {
    hide Periods, PruneBursts;
    Pow2Positive(Min(SatAdd32(Refresh(s, now).rateLimitFailures, 1), 4));
    Pow2Positive(Min(SatAdd32(Refresh(s, now).timeoutFailures, 1), 5));
  }

  /** The cooldown a failure earns, in milliseconds: rate limits and timeouts double with each one still counted
      against the endpoint, up to half a minute and thirteen seconds, and exhausted capacity is cut at 45 seconds. */
  function CoolsFor(r: State, kind: FailureKind): nat {
    match kind
    case RateLimited => [4000, 8000, 16000, 32000][Min(r.rateLimitFailures, 3)]
    case CapacityExhausted => 45000
    case Timeout => [800, 1600, 3200, 6400, 12800][Min(r.timeoutFailures, 4)]
    case Stale => 900
    case Transport => 700
    case Remote => 500
  }

  /** A failure sets the deadline to the end of that cooldown or of the one running, whichever is later, counts once
      as a failure and once as its own kind, ten times when the capacity is exhausted, and changes nothing else. */
  lemma FailureDeadline(s: State, kind: FailureKind, now: Instant)
    ensures var r, after := Refresh(s, now), AfterFailure(s, kind, now);
            var until := now + Millis(CoolsFor(r, kind));
            && after.cooldownUntil == Some(if s.cooldownUntil.Some? then Max(s.cooldownUntil.value, until) else until)
            && after.failures == Min(r.failures + 1, MAX_U32)
            && after.timeoutFailures == Min(r.timeoutFailures + (if kind.Timeout? then 1 else 0), MAX_U32)
            && after.staleFailures == Min(r.staleFailures + (if kind.Stale? then 1 else 0), MAX_U32)
            && after.rateLimitFailures
               == Min(r.rateLimitFailures
                      + (if kind.RateLimited? then 1 else if kind.CapacityExhausted? then 10 else 0), MAX_U32)
            && after.disabled == (s.disabled || kind.CapacityExhausted?)
            && (after.bursts, after.avgLatencySecs, after.lastBlock, after.lastBlockAt, after.lastSelectedAt)
               == (r.bursts, s.avgLatencySecs, s.lastBlock, s.lastBlockAt, s.lastSelectedAt)
  {
    hide Periods, PruneBursts;
    var r := Refresh(s, now);
    Doubling(Min(SatAdd32(r.rateLimitFailures, 1), 4));
    Doubling(Min(SatAdd32(r.timeoutFailures, 1), 5));
    hide Refresh, Pow2;
    assert (r.cooldownUntil, r.disabled) == (s.cooldownUntil, s.disabled) by { RefreshKeeps(s, now); }
    RefreshKeeps(s, now);
  }

  lemma RefreshKeeps(s: State, now: Instant)
    ensures var r := Refresh(s, now);
            && (r.cooldownUntil, r.disabled, r.avgLatencySecs, r.lastBlock, r.lastBlockAt, r.lastSelectedAt)
               == (s.cooldownUntil, s.disabled, s.avgLatencySecs, s.lastBlock, s.lastBlockAt, s.lastSelectedAt)
            && r.failures <= s.failures && r.timeoutFailures <= s.timeoutFailures
            && r.rateLimitFailures <= s.rateLimitFailures && r.staleFailures <= s.staleFailures
  {
    hide Periods, PruneBursts;
  }

  lemma Doubling(n: nat)
    requires 1 <= n <= 5
    ensures Pow2(n) == [2, 4, 8, 16, 32][n - 1]
  {
    assert Pow2(1) == 2;
    assert Pow2(2) == 4;
    assert Pow2(3) == 8;
    assert Pow2(4) == 16;
    assert Pow2(5) == 32;
  }

  datatype Success = Success(now: Instant, latencySecs: real, block: Option<nat>)

  function AfterSuccesses(s: State, calls: seq<Success>): State {
    if calls == [] then s
    else
      var c := calls[|calls| - 1];
      AfterSuccess(AfterSuccesses(s, calls[..|calls| - 1]), c.latencySecs, c.block, c.now)
  }

  /** Successes heal: each takes at least one from every failure count, so as many as the largest count leave none;
      they never disable or cool an endpoint, and lift only a cooldown that has run out. */
  lemma {:induction false} SuccessesHeal(s: State, calls: seq<Success>, at: Instant)
    requires forall i :: 0 <= i < |calls| ==> calls[i].now <= at
    ensures var r := AfterSuccesses(s, calls);
            && r.failures <= Max(s.failures - |calls|, 0) && r.timeoutFailures <= Max(s.timeoutFailures - |calls|, 0)
            && r.rateLimitFailures <= Max(s.rateLimitFailures - |calls|, 0)
            && r.staleFailures <= Max(s.staleFailures - |calls|, 0)
            && r.disabled == s.disabled
            && (r.cooldownUntil == s.cooldownUntil
                || (r.cooldownUntil.None? && s.cooldownUntil.Some? && s.cooldownUntil.value <= at))
  {
    hide Refresh;
    if calls != [] {
      var n := |calls| - 1;
      SuccessesHeal(s, calls[..n], at);
      RefreshKeeps(AfterSuccesses(s, calls[..n]), calls[n].now);
    }
  }

  /** The value left when the gap between an average and a sample has shrunk to the given share. */
  function Towards(sample: real, average: real, share: real): real { sample + (average - sample) * share }

  /** While every success takes the same time, each closes 28 percent of the gap between the average and it. */
  lemma {:induction false} SuccessesSettle(s: State, calls: seq<Success>, latencySecs: real)
    requires s.avgLatencySecs.Some? && forall i :: 0 <= i < |calls| ==> calls[i].latencySecs == latencySecs
    ensures AfterSuccesses(s, calls).avgLatencySecs
            == Some(Towards(latencySecs, s.avgLatencySecs.value, Reals.Pow(0.72, |calls|)))
  {
    hide Refresh, Towards;
    Closing(latencySecs, s.avgLatencySecs.value, if calls == [] then 0.0 else Reals.Pow(0.72, |calls| - 1));
    if calls != [] {
      var n := |calls| - 1;
      SuccessesSettle(s, calls[..n], latencySecs);
      RefreshKeeps(AfterSuccesses(s, calls[..n]), calls[n].now);
    }
  }

  lemma Closing(sample: real, average: real, share: real)
    ensures Towards(sample, average, share) * 0.72 + sample * 0.28 == Towards(sample, average, 0.72 * share)
    ensures Towards(sample, average, 1.0) == average
  {
    var gap := average - sample;
    assert gap * (0.72 * share) == gap * share * 0.72;
  }

  /** A fresh endpoint is healthy, and a failure of any kind ends that. */
  lemma FreshIsHealthy(k: RpcKind, kind: FailureKind, now: Instant)
    ensures Healthy(k, Fresh(now), now) && !Healthy(k, AfterFailure(Fresh(now), kind, now), now)
  {
    NoLoad();
    assert Refresh(Fresh(now), now) == Fresh(now);
    FailureCools(Fresh(now), kind, now);
    RefreshTwice(AfterFailure(Fresh(now), kind, now), now);
    hide Refresh, AfterFailure;
  }

  /** An enabled endpoint that is not cooling down is healthy again after as many successes as its largest failure
      count, if the last one saw a block and its reservations leave room for a read. */
  lemma SuccessesRestoreHealth(k: RpcKind, s: State, calls: seq<Success>, n: nat)
    requires calls != [] && forall i, j :: 0 <= i < j < |calls| ==> calls[i].now <= calls[j].now
    requires |calls| >= n && s.failures <= n && s.timeoutFailures <= n && s.rateLimitFailures <= n
    requires s.staleFailures <= n && calls[|calls| - 1].block.Some?
    ensures var r, now := AfterSuccesses(s, calls), calls[|calls| - 1].now;
            Eligible(s, now) && Load(r.bursts, now) < BurstCapacity(k, false) ==> Healthy(k, r, now)
  {
    var last := |calls| - 1;
    var r, now := AfterSuccesses(s, calls), calls[last].now;
    SuccessesHeal(s, calls, now);
    RefreshKeeps(r, now);
    PruneKeepsLoad(r.bursts, now, now);
    var before := AfterSuccesses(s, calls[..last]);
    RefreshKeeps(before, now);
    LastBlockSeen(before, calls[last]);
    hide AfterSuccess, AfterSuccesses, Load, BurstCapacity, Decay;
    assert r == AfterSuccess(before, calls[last].latencySecs, calls[last].block, now) by { LastSuccess(s, calls); }
    assert Load(Refresh(r, now).bursts, now) == Load(r.bursts, now) by { RefreshLoad(r, now); }
    hide Refresh;
  }

  lemma LastSuccess(s: State, calls: seq<Success>)
    requires calls != []
    ensures var last := |calls| - 1;
            AfterSuccesses(s, calls)
            == AfterSuccess(AfterSuccesses(s, calls[..last]), calls[last].latencySecs, calls[last].block,
                            calls[last].now)
  {
    hide AfterSuccess;
  }

  lemma LastBlockSeen(s: State, c: Success)
    requires c.block.Some?
    ensures AfterSuccess(s, c.latencySecs, c.block, c.now).lastBlockAt == Some(c.now)
  {
    hide Refresh;
  }

  lemma RefreshLoad(s: State, now: Instant)
    ensures Load(Refresh(s, now).bursts, now) == Load(s.bursts, now)
  {
    PruneKeepsLoad(s.bursts, now, now);
    hide Load, PruneBursts, Periods;
  }

  /** What ends health: no new block for more than twenty seconds, reservations at the read capacity, or any failure
      count that has not decayed away. */
  lemma HealthEnds(k: RpcKind, s: State, now: Instant)
    requires (s.lastBlockAt.Some? && Since(now, s.lastBlockAt.value) > Secs(20))
             || Load(s.bursts, now) >= BurstCapacity(k, false) || !Eligible(s, now)
             || Refresh(s, now).failures > 0 || Refresh(s, now).timeoutFailures > 0
             || Refresh(s, now).rateLimitFailures > 0 || Refresh(s, now).staleFailures > 0
    ensures !Healthy(k, s, now)
  {
    RefreshLoad(s, now);
    RefreshKeeps(s, now);
    hide Refresh, Load, BurstCapacity;
  }

  /** A success records a first latency as it is and a block with the moment it was seen, and takes exactly one from
      what has not decayed of each failure count. */
  lemma SuccessObserves(s: State, c: Success)
    ensures var r := AfterSuccesses(s, [c]);
            && (s.avgLatencySecs.None? ==> r.avgLatencySecs == Some(c.latencySecs))
            && (var before := Refresh(s, c.now);
                && r.failures == Max(before.failures - 1, 0) && r.timeoutFailures == Max(before.timeoutFailures - 1, 0)
                && r.rateLimitFailures == Max(before.rateLimitFailures - 1, 0)
                && r.staleFailures == Max(before.staleFailures - 1, 0))
            && (r.lastBlock, r.lastBlockAt)
               == (if c.block.Some? then (c.block, Some(c.now)) else (s.lastBlock, s.lastBlockAt))
            && r.lastSelectedAt == s.lastSelectedAt && r.bursts == PruneBursts(s.bursts, c.now)
  {
    assert [c][..0] == [];
    assert AfterSuccesses(s, []) == s;
    hide Periods;
  }

  // ---------------------------------------------------------------- how many sends an endpoint takes at once

  function Reserves(k: RpcKind, s: State, send: bool, now: Instant, n: nat): State {
    if n == 0 then s else AfterReserve(k, Reserves(k, s, send, now, n - 1), BurstCost(k, send), now)
  }

  lemma {:induction false} ReservesLoad(k: RpcKind, send: bool, now: Instant, n: nat)
    ensures Load(Reserves(k, Fresh(now), send, now, n).bursts, now) == n * BurstCost(k, send)
    ensures !Reserves(k, Fresh(now), send, now, n).disabled
    ensures Reserves(k, Fresh(now), send, now, n).cooldownUntil
            == if n * BurstCost(k, send) >= 2 * BurstCapacity(k, true) && n > 0 then Some(now + Millis(900)) else None
  {
    hide Load, BurstCost, BurstCapacity, PruneBursts;
    if n == 0 {
      NoLoad();
    } else {
      var before := Reserves(k, Fresh(now), send, now, n - 1);
      ReservesLoad(k, send, now, n - 1);
      PruneKeepsLoad(before.bursts, now, now);
      LoadAppend(PruneBursts(before.bursts, now), Burst(now, BurstCost(k, send)), now);
      RefreshKeeps(before, now);
      assert (n - 1) * BurstCost(k, send) + BurstCost(k, send) == n * BurstCost(k, send);
      MoreLoad(n, BurstCost(k, send));
    }
  }

  lemma MoreLoad(n: nat, cost: nat)
    requires n > 0
    ensures (n - 1) * cost <= n * cost
  {}

  /** How many calls at one instant send a fresh endpoint into its overload cooldown. */
  function Overloads(k: RpcKind, send: bool): nat {
    match (k, send)
    case (Tenderly, true) => 2
    case (GetBlock, true) => 4
    case (Generic, true) => 4
    case (Alchemy, true) => 6
    case (Infura, true) => 4
    case (Tenderly, false) => 8
    case (GetBlock, false) => 16
    case (Generic, false) => 10
    case (Alchemy, false) => 36
    case (Infura, false) => 24
  }

  /** How many reads at one instant leave a fresh endpoint no longer healthy: its read capacity, or for Infura the
      overload cooldown, which comes first. */
  function Crowds(k: RpcKind): nat {
    match k
    case Tenderly => 5
    case GetBlock => 10
    case Generic => 6
    case Alchemy => 24
    case Infura => 24
  }

  lemma {:induction false} ReservesFresh(k: RpcKind, send: bool, now: Instant, n: nat)
    ensures var r := Reserves(k, Fresh(now), send, now, n);
            r.(bursts := [], cooldownUntil := None, lastSelectedAt := None) == Fresh(now)
  {
    hide Load, BurstCost, BurstCapacity, Periods, PruneBursts;
    if n > 0 {
      ReservesFresh(k, send, now, n - 1);
      assert Periods(now, now) == 0 by { PeriodsNow(now); }
    }
  }

  lemma PeriodsNow(now: Instant)
    ensures Periods(now, now) == 0
  {}

  lemma CrowdedAfter(k: RpcKind, now: Instant, n: nat)
    ensures Healthy(k, Reserves(k, Fresh(now), false, now, n), now) <==> n < Crowds(k)
  {
    var r := Reserves(k, Fresh(now), false, now, n);
    ReservesLoad(k, false, now, n);
    ReservesFresh(k, false, now, n);
    OverloadsAfter(k, false, now, n);
    RefreshLoad(r, now);
    RefreshKeeps(r, now);
    hide Reserves, Load, Refresh, Overloads;
  }

  lemma OverloadsAfter(k: RpcKind, send: bool, now: Instant, n: nat)
    ensures Eligible(Reserves(k, Fresh(now), send, now, n), now) <==> n < Overloads(k, send)
  {
    ReservesLoad(k, send, now, n);
    hide Reserves, Load;
  }

  lemma {:induction false} Pow2Positive(n: nat)
    ensures Pow2(n) >= 1
  {
    if n > 0 { Pow2Positive(n - 1); }
  }

  /** A reservation overwrites the deadline, so it brings a running cooldown forward exactly when the load, with
      the units it adds, reaches twice the send capacity and the cooldown had more than 900 milliseconds left. */
  lemma ReserveShortensExactlyWhen(k: RpcKind, s: State, units: nat, now: Instant)
    requires s.cooldownUntil.Some?
    ensures var after := AfterReserve(k, s, units, now);
            && after.cooldownUntil.Some?
            && (after.cooldownUntil.value < s.cooldownUntil.value
                <==> Load(s.bursts, now) + units >= 2 * BurstCapacity(k, true)
                     && s.cooldownUntil.value > now + Millis(900))
  {
    hide Load, PruneBursts, BurstCapacity;
    var kept := PruneBursts(s.bursts, now);
    PruneKeepsLoad(s.bursts, now, now);
    LoadAppend(kept, Burst(now, units), now);
  }

  /** A run of a fresh Tenderly endpoint that does so: one send reserves its cost, a rate limit cools the endpoint
      for four seconds, and a second send already under way cuts that to less than one. */
  lemma ReserveCanShortenCooldown()
    ensures var send := BurstCost(Tenderly, true);
            var reserved := AfterReserve(Tenderly, Fresh(0), send, 0);
            var cooling := AfterFailure(reserved, RateLimited, Millis(1));
            var again := AfterReserve(Tenderly, cooling, send, Millis(2));
            && cooling.cooldownUntil == Some(Millis(1) + Secs(4))
            && again.cooldownUntil == Some(Millis(2) + Millis(900))
  {
    FirstSend();
    ThenCools();
    SecondSend();
  }

  function Sent(): State { Fresh(0).(bursts := [Burst(0, 8)], lastSelectedAt := Some(0)) }

  function Cooled(): State {
    Sent().(failures := 1, rateLimitFailures := 1, cooldownUntil := Some(Millis(1) + Secs(4)))
  }

  lemma FirstSend()
    ensures AfterReserve(Tenderly, Fresh(0), 8, 0) == Sent()
  {
    LoadAppend([], Burst(0, 8), 0);
    assert [] + [Burst(0, 8)] == [Burst(0, 8)];
    assert Refresh(Fresh(0), 0) == Fresh(0);
    hide Load, Refresh;
  }

  lemma ThenCools()
    ensures AfterFailure(Sent(), RateLimited, Millis(1)) == Cooled()
  {
    assert Refresh(Sent(), Millis(1)) == Sent();
    hide Refresh;
    assert Pow2(Min(1, 4)) == 2;
  }

  lemma SecondSend()
    ensures AfterReserve(Tenderly, Cooled(), 8, Millis(2)).cooldownUntil == Some(Millis(2) + Millis(900))
  {
    assert Refresh(Cooled(), Millis(2)) == Cooled();
    hide Refresh;
    LoadAppend([], Burst(0, 8), Millis(2));
    assert [] + [Burst(0, 8)] == [Burst(0, 8)];
    LoadAppend([Burst(0, 8)], Burst(Millis(2), 8), Millis(2));
    hide Load;
  }
}
