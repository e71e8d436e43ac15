/** The guard object: both stop-losses behind one lock, each call one atomic step. */
module ExecutionGuard {
  import opened Arithmetic
  import opened Options
  import opened Clock
  import StopLoss
  import Ctx = ContextGuard

  class Guard {
    const global: StopLoss.Config
    const contextual: Ctx.Config
    var consecutiveLosses: U32
    var frozenUntil: Option<Instant>
    var contextGuards: Ctx.Guards

    constructor (global: StopLoss.Config, contextual: Ctx.Config)
      ensures this.global == global && this.contextual == contextual
      ensures Global() == StopLoss.START && contextGuards == map[]
    {
      this.global, this.contextual := global, contextual;
      consecutiveLosses, frozenUntil, contextGuards := 0, None, map[];
    }

    ghost function Global(): StopLoss.Guard
      reads this
    { StopLoss.Guard(consecutiveLosses, frozenUntil) }

    /** A result moves the global guard, then its own context if it names one, then prunes. */
    method RecordResult(success: bool, realizedProfit: real, context: Option<Ctx.Key>,
                        priority: Option<real>, toxicity: Option<real>, now: Instant)
      modifies this
      ensures var won := success && realizedProfit > 0.0;
              && Global() == StopLoss.RecordResult(old(Global()), won, now, global)
              && contextGuards
                 == Ctx.Step(old(contextGuards),
                             match context
                             case None => Ctx.Sweep(now)
                             case Some(key) =>
                               Ctx.Result(key, now, won, if priority.Some? then priority.value else 0.5,
                                          if toxicity.Some? then toxicity.value else 0.5),
                             contextual, true).0
    {
      hide Ctx.Record;
      var won := success && realizedProfit > 0.0;
      if won {
        consecutiveLosses := 0;
        frozenUntil := None;
      } else {
        consecutiveLosses := SatAdd32(consecutiveLosses, 1);
        if consecutiveLosses >= global.losses {
          frozenUntil := Some(now + Secs(global.freezeSecs));
        }
      }
      if context.Some? {
        var key := context.value;
        var state := if key in contextGuards then contextGuards[key] else Ctx.IDLE;
        state := RecordContext(state, now, won, if priority.Some? then priority.value else 0.5,
                               if toxicity.Some? then toxicity.value else 0.5);
        contextGuards := contextGuards[key := state];
      }
      contextGuards := Ctx.Prune(contextGuards, now);
    }

    method RecordContext(start: Ctx.State, now: Instant, won: bool, priority: real, toxicity: real)
      returns (state: Ctx.State)
      ensures state == Ctx.Record(start, now, won, priority, toxicity, contextual)
    {
      hide Ctx.Decay, Ctx.Ewma, Ctx.RegimePressure, Ctx.Threshold, Ctx.FreezeSecs;
      state := Ctx.Decay(start, now, Max(contextual.freezeSecs, 1));
      var pressure := Ctx.RegimePressure(priority, toxicity, won);
      state := state.(pressure := Ctx.Ewma(state.pressure, pressure, 0.35));
      state := state.(lastEventAt := Some(now));
      if won {
        state := state.(consecutiveLosses := 0);
        state := state.(frozenUntil := None);
      } else {
        var lossIncrement: U32 := if state.pressure >= 0.82 then 2 else 1;
        state := state.(consecutiveLosses := SatAdd32(state.consecutiveLosses, lossIncrement));
        if state.consecutiveLosses >= Ctx.Threshold(contextual.losses, state.pressure) {
          state := state.(frozenUntil := Some(now + Secs(Ctx.FreezeSecs(contextual.freezeSecs, state.pressure))));
        }
      }
    }

    /** The global gate check: it reports a freeze, or clears an expired one. */
    method StopLossSnapshot(now: Instant) returns (frozen: Option<(U32, nat)>)
      modifies this
      ensures frozen.Some? <==> StopLoss.Blocked(old(Global()), now)
      ensures frozen.Some? ==> frozen.value == (old(consecutiveLosses), AsSecs(Since(old(frozenUntil).value, now)))
      ensures Global() == StopLoss.Snapshot(old(Global()), now) && contextGuards == old(contextGuards)
    {
      if frozenUntil.None? { return None; }
      if now >= frozenUntil.value {
        frozenUntil := None;
        consecutiveLosses := 0;
        return None;
      }
      return Some((consecutiveLosses, AsSecs(Since(frozenUntil.value, now))));
    }

    /** The context's gate check: it decays first, reports a freeze, and forgets an expired one. */
    method ContextStopLossSnapshot(key: Ctx.Key, now: Instant) returns (frozen: Ctx.Answer)
      modifies this
      ensures (contextGuards, frozen) == Ctx.Check(old(contextGuards), key, now, contextual)
      ensures Global() == old(Global())
    {
      hide Ctx.Decay;
      if key !in contextGuards { return None; }
      var state := Ctx.Decay(contextGuards[key], now, Max(contextual.freezeSecs, 1));
      contextGuards := contextGuards[key := state];
      if state.frozenUntil.None? { return None; }
      if now >= state.frozenUntil.value {
        contextGuards := contextGuards - {key};
        assert contextGuards == old(contextGuards) - {key};
        return None;
      }
      return Some((state.consecutiveLosses, AsSecs(Since(state.frozenUntil.value, now))));
    }
  }
}
