/** The global stop-loss: a loss counter and a freeze, against a specification over the whole history. */
module StopLoss {
  import opened Arithmetic
  import opened Options
  import opened Clock

  /** Configuration parsing keeps the loss limit at one or more. */
  datatype Config = Config(losses: U32, freezeSecs: U64) {
    ghost predicate Valid() { losses >= 1 }
  }

  datatype Guard = Guard(consecutiveLosses: U32, frozenUntil: Option<Instant>)

  const START := Guard(0, None)

  datatype Event = Win(now: Instant) | Loss(now: Instant) | Check(now: Instant)

  function RecordResult(g: Guard, won: bool, now: Instant, cfg: Config): Guard {
    if won then Guard(0, None)
    else
      var losses := SatAdd32(g.consecutiveLosses, 1);
      Guard(losses, if losses >= cfg.losses then Some(now + Secs(cfg.freezeSecs)) else g.frozenUntil)
  }

  predicate Blocked(g: Guard, now: Instant) { g.frozenUntil.Some? && now < g.frozenUntil.value }

  /** The gate check: it clears an expired freeze as it answers. */
  function Snapshot(g: Guard, now: Instant): Guard {
    if g.frozenUntil.Some? && now >= g.frozenUntil.value then Guard(0, None) else g
  }

  function Step(g: Guard, e: Event, cfg: Config): Guard {
    match e
    case Win(now) => RecordResult(g, true, now, cfg)
    case Loss(now) => RecordResult(g, false, now, cfg)
    case Check(now) => Snapshot(g, now)
  }

  function Run(evs: seq<Event>, cfg: Config): Guard {
    if evs == [] then START else Step(Run(evs[..|evs| - 1], cfg), evs[|evs| - 1], cfg)
  }

  // ---------------------------------------------------------------- the history form

  /** The time of the latest loss, if any. */
  function LastLoss(evs: seq<Event>): Option<Instant> {
    if evs == [] then None
    else if evs[|evs| - 1].Loss? then Some(evs[|evs| - 1].now)
    else LastLoss(evs[..|evs| - 1])
  }

  /** A freeze of `freezeSecs` after the latest loss is over by `now`. */
  predicate Over(evs: seq<Event>, now: Instant, cfg: Config) {
    LastLoss(evs).Some? && now >= LastLoss(evs).value + Secs(cfg.freezeSecs)
  }

  /** Losses since the last win, or since the last check that found a full streak's freeze over. */
  function Streak(evs: seq<Event>, cfg: Config): nat {
    if evs == [] then 0
    else
      var before, e := evs[..|evs| - 1], evs[|evs| - 1];
      match e
      case Win(_) => 0
      case Loss(_) => Streak(before, cfg) + 1
      case Check(now) => if Streak(before, cfg) >= cfg.losses && Over(before, now, cfg) then 0 else Streak(before, cfg)
  }

  lemma {:induction false} StreakHasLoss(evs: seq<Event>, cfg: Config)
    ensures Streak(evs, cfg) > 0 ==> LastLoss(evs).Some?
  {
    if evs != [] { StreakHasLoss(evs[..|evs| - 1], cfg); }
  }

  /** In every reachable state the counter is the streak (up to its width), and a freeze is set exactly when
      the streak has reached the limit, ending one freeze length after the latest loss. */
  lemma {:induction false} GuardIsStreak(evs: seq<Event>, cfg: Config)
    requires cfg.Valid()
    ensures Run(evs, cfg).consecutiveLosses == Min(Streak(evs, cfg), MAX_U32)
    ensures Streak(evs, cfg) >= cfg.losses ==> LastLoss(evs).Some?
    ensures Run(evs, cfg).frozenUntil
            == if Streak(evs, cfg) >= cfg.losses then Some(LastLoss(evs).value + Secs(cfg.freezeSecs)) else None
  {
    StreakHasLoss(evs, cfg);
    if evs != [] {
      GuardIsStreak(evs[..|evs| - 1], cfg);
      StreakHasLoss(evs[..|evs| - 1], cfg);
    }
  }

  /** Frozen if and only if the counter has reached the limit: fewer losses than that never freeze. */
  lemma FrozenIffLimitReached(evs: seq<Event>, cfg: Config)
    requires cfg.Valid()
    ensures Run(evs, cfg).frozenUntil.Some? <==> Run(evs, cfg).consecutiveLosses >= cfg.losses
  {
    GuardIsStreak(evs, cfg);
  }

  /** The gate answers from history alone. */
  lemma BlockedExactlyWhen(evs: seq<Event>, now: Instant, cfg: Config)
    requires cfg.Valid()
    ensures Blocked(Run(evs, cfg), now)
            <==> Streak(evs, cfg) >= cfg.losses && LastLoss(evs).Some?
                 && now < LastLoss(evs).value + Secs(cfg.freezeSecs)
  {
    GuardIsStreak(evs, cfg);
  }

  function Losses(evs: seq<Event>): nat {
    if evs == [] then 0 else Losses(evs[..|evs| - 1]) + (if evs[|evs| - 1].Loss? then 1 else 0)
  }

  /** Events that never reset: losses, and checks made before the freeze is over. */
  ghost predicate NoReset(before: seq<Event>, evs: seq<Event>, cfg: Config) {
    forall i :: 0 <= i < |evs| ==>
      !evs[i].Win? && (evs[i].Check? ==> !Over(before + evs[..i], evs[i].now, cfg))
  }

  lemma {:induction false} StreakGrows(before: seq<Event>, evs: seq<Event>, cfg: Config)
    requires NoReset(before, evs, cfg)
    ensures Streak(before + evs, cfg) == Streak(before, cfg) + Losses(evs)
  {
    if evs == [] {
      assert before + evs == before;
    } else {
      var n := |evs| - 1;
      assert (before + evs)[..|before + evs| - 1] == before + evs[..n];
      forall i | 0 <= i < n
        ensures !evs[..n][i].Win? && (evs[..n][i].Check? ==> !Over(before + evs[..n][..i], evs[..n][i].now, cfg))
      {
        assert evs[..n][..i] == evs[..i];
      }
      StreakGrows(before, evs[..n], cfg);
    }
  }

  /** After any history, once as many losses as the limit have come in with no win and no expired check
      between them, every gate check before the latest loss plus the freeze is blocked. */
  lemma EnoughLossesFreeze(before: seq<Event>, evs: seq<Event>, now: Instant, cfg: Config)
    requires cfg.Valid() && NoReset(before, evs, cfg) && Losses(evs) >= cfg.losses
    ensures LastLoss(before + evs).Some?
    ensures now < LastLoss(before + evs).value + Secs(cfg.freezeSecs) ==> Blocked(Run(before + evs, cfg), now)
  {
    StreakGrows(before, evs, cfg);
    StreakHasLoss(before + evs, cfg);
    BlockedExactlyWhen(before + evs, now, cfg);
  }
}
