/** The fleet object: endpoints, the half-second score cache in front of them, and selection. Each public
    method is one atomic step on a non-decreasing clock. */
module RpcFleet {
  import opened Arithmetic
  import opened Options
  import opened Clock
  import opened RpcEndpoint
  import opened RpcSelection

  datatype Preference = Auto | PreferGetBlock | PreferAlchemy | PreferInfura

  predicate Matches(k: RpcKind, p: Preference) {
    match p
    case Auto => true
    case PreferGetBlock => k.GetBlock?
    case PreferAlchemy => k.Alchemy?
    case PreferInfura => k.Infura?
  }

  const CACHE_MS: nat := 500

  predicate CacheFresh(updatedAt: Instant, now: Instant) { Since(now, updatedAt) <= Millis(CACHE_MS) }

  /** The simple form of the score: computed from the endpoints themselves. */
  function DirectScores(kinds: seq<RpcKind>, states: seq<State>, now: Instant, send: bool, pow: real -> real): Scores
    requires |kinds| == |states|
  {
    hide Score;
    seq(|states|, i requires 0 <= i < |states| => Score(kinds[i], states[i], now, send, pow))
  }

  function HealthFlags(kinds: seq<RpcKind>, states: seq<State>, now: Instant): seq<bool>
    requires |kinds| == |states|
  {
    hide Healthy;
    seq(|states|, i requires 0 <= i < |states| => Healthy(kinds[i], states[i], now))
  }

  function PreferenceFlags(kinds: seq<RpcKind>, p: Preference): seq<bool> {
    seq(|kinds|, i requires 0 <= i < |kinds| => Matches(kinds[i], p))
  }

  /** Each endpoint is as it was, or has only been looked at. */
  ghost predicate OnlyLooked(before: seq<State>, after: seq<State>, now: Instant) {
    |after| == |before| && forall i :: 0 <= i < |after| ==> after[i] == before[i] || after[i] == Refresh(before[i], now)
  }

  lemma LooksCompose(a: seq<State>, b: seq<State>, c: seq<State>, now: Instant)
    requires OnlyLooked(a, b, now) && OnlyLooked(b, c, now)
    ensures OnlyLooked(a, c, now)
  {
    hide Refresh;
    forall i | 0 <= i < |a| ensures c[i] == a[i] || c[i] == Refresh(a[i], now) { RefreshTwice(a[i], now); }
  }

  /** Looking changes no score, no health and no eligibility. */
  lemma LookingChangesNothing(kinds: seq<RpcKind>, before: seq<State>, after: seq<State>, now: Instant,
                              pow: real -> real)
    requires OnlyLooked(before, after, now) && |kinds| == |before|
    ensures forall send :: DirectScores(kinds, after, now, send, pow) == DirectScores(kinds, before, now, send, pow)
    ensures HealthFlags(kinds, after, now) == HealthFlags(kinds, before, now)
    ensures forall i, t :: 0 <= i < |before| ==> Eligible(after[i], t) == Eligible(before[i], t)
  {
    hide Refresh, ScoreNow, HealthyNow, Eligible;
    forall i | 0 <= i < |before|
      ensures Refresh(after[i], now) == Refresh(before[i], now)
      ensures forall t :: Eligible(after[i], t) == Eligible(before[i], t)
    {
      RefreshTwice(before[i], now);
    }
  }

  /** An eligible endpoint stays eligible as time passes, and only eligible endpoints are scored. */
  lemma ScoredIsEligible(k: RpcKind, s: State, now: Instant, send: bool, pow: real -> real)
    ensures Score(k, s, now, send, pow).Some? <==> Eligible(s, now)
    ensures Eligible(s, now) ==> forall t :: now <= t ==> Eligible(s, t)
  {
    hide Refresh, Load;
    RefreshTwice(s, now);
  }

  /** Reading without rotation and with fresh scores, the first handle is an endpoint that no other of its kind in the
      pool is better than: none is in every respect as good and in one the score can tell better. */
  lemma FirstIsUndominated(kinds: seq<RpcKind>, states: seq<State>, preferred: seq<bool>, rotation: nat, limit: nat,
                           now: Instant, pow: real -> real)
    requires PowerLike(pow) && |kinds| == |states| == |preferred|
    requires exists i :: 0 <= i < |states| && Eligible(states[i], now)
    ensures var scores, healthy := DirectScores(kinds, states, now, false, pow), HealthFlags(kinds, states, now);
            var r := Choose(scores, preferred, healthy, false, 1, rotation, limit);
            && r != [] && r[0] < |states|
            && forall c :: c in Pool(scores, preferred, healthy, false) ==>
                 && c.id < |states|
                 && (kinds[c.id] == kinds[r[0]] ==>
                       !Better(kinds[r[0]], Refresh(states[c.id], now), Refresh(states[r[0]], now), now, false))
  {
    hide Choose, Pool, Healthy, Score, Better, Refresh, PowerLike, Eligible;
    var scores, healthy := DirectScores(kinds, states, now, false, pow), HealthFlags(kinds, states, now);
    var i :| 0 <= i < |states| && Eligible(states[i], now);
    ScoredIsEligible(kinds[i], states[i], now, false, pow);
    assert scores[i].Some?;
    FirstIsBest(scores, preferred, healthy, rotation, limit);
    PoolSound(scores, preferred, healthy, false);
    var r := Choose(scores, preferred, healthy, false, 1, rotation, limit);
    forall c | c in Pool(scores, preferred, healthy, false)
      ensures c.id < |states|
      ensures kinds[c.id] == kinds[r[0]] ==>
                !Better(kinds[r[0]], Refresh(states[c.id], now), Refresh(states[r[0]], now), now, false)
    {
      if kinds[c.id] == kinds[r[0]] {
        BetterScoresLower(kinds[c.id], states[c.id], states[r[0]], now, pow);
      }
    }
  }

  lemma BetterScoresLower(k: RpcKind, a: State, b: State, now: Instant, pow: real -> real)
    requires PowerLike(pow) && Score(k, a, now, false, pow).Some? && Score(k, b, now, false, pow).Some?
    ensures Better(k, Refresh(a, now), Refresh(b, now), now, false) ==>
              Score(k, a, now, false, pow).value < Score(k, b, now, false, pow).value
  {
    hide Refresh, PowerLike, NoWorse, ScoreNow, Eligible;
    ScoredNow(k, Refresh(a, now), now, pow);
    ScoredNow(k, Refresh(b, now), now, pow);
    if Better(k, Refresh(a, now), Refresh(b, now), now, false) {
      ScorePrefersBetter(k, Refresh(a, now), Refresh(b, now), now, false, pow);
    }
  }

  lemma ScoredNow(k: RpcKind, s: State, now: Instant, pow: real -> real)
    requires ScoreNow(k, s, now, false, pow).Some?
    ensures Eligible(s, now)
  {}

  /** Scoring an endpoint just refreshed gives what scoring it before would have given. */
  lemma ScoreAfterLook(k: RpcKind, s: State, now: Instant, send: bool, pow: real -> real)
    ensures Score(k, Refresh(s, now), now, send, pow) == Score(k, s, now, send, pow)
  {
    hide Refresh, ScoreNow;
    RefreshTwice(s, now);
  }

  class Fleet {
    const kinds: seq<RpcKind>
    const readPreference: Preference
    const sendPreference: Preference
    const pow: real -> real
    var states: seq<State>
    var rotation: nat
    var cacheUpdatedAt: Instant
    var readScores: Scores
    var sendScores: Scores
    ghost var clock: Instant

    /** While the cache could still be read, it scores only endpoints that were eligible when it was filled
        and have been neither disabled nor cooled since. */
    ghost predicate Valid()
      reads this
    {
      && |states| == |kinds| == |readScores| == |sendScores|
      && cacheUpdatedAt <= clock
      && (CacheFresh(cacheUpdatedAt, clock) ==>
            forall i :: 0 <= i < |states| && (readScores[i].Some? || sendScores[i].Some?) ==>
              Eligible(states[i], cacheUpdatedAt))
    }

    /** The scores a selection at `now` works with: the cache if fresh, the endpoints otherwise. */
    ghost function Effective(send: bool, now: Instant): Scores
      requires |states| == |kinds|
      reads this
    {
      if CacheFresh(cacheUpdatedAt, now) then (if send then sendScores else readScores)
      else DirectScores(kinds, states, now, send, pow)
    }

    constructor (kinds: seq<RpcKind>, readPreference: Preference, sendPreference: Preference, pow: real -> real,
                 now: Instant)
      requires kinds != []
      ensures Valid() && clock == now && this.kinds == kinds
      ensures |states| == |kinds| && forall i :: 0 <= i < |kinds| ==> states[i] == Fresh(now)
    {
      this.kinds, this.pow := kinds, pow;
      this.readPreference, this.sendPreference := readPreference, sendPreference;
      states := seq(|kinds|, _ => State(0, 0, 0, 0, now, false, None, None, None, None, [], None));
      rotation := 0;
      cacheUpdatedAt := now - Secs(1);
      readScores := seq(|kinds|, _ => None);
      sendScores := seq(|kinds|, _ => None);
      clock := now;
    }

    // ------------------------------------------------------------ methods that change an endpoint

    method InvalidateScoreCache(now: Instant)
      modifies this`cacheUpdatedAt
      ensures cacheUpdatedAt == now - Secs(2) && !CacheFresh(cacheUpdatedAt, now)
    {
      cacheUpdatedAt := now - Secs(2);
    }

    method SetEndpointEnabled(id: nat, enabled: bool, now: Instant) returns (known: bool)
      requires Valid() && clock <= now
      modifies this
      ensures Valid() && clock == now
      ensures known <==> id < |old(states)|
      ensures states == if known then old(states)[id := old(states)[id].(disabled := !enabled)] else old(states)
    {
      clock := now;
      if id >= |states| { return false; }
      states := states[id := states[id].(disabled := !enabled)];
      InvalidateScoreCache(now);
      return true;
    }

    method KeepOnlyGetblockEnabled(now: Instant) returns (disabled: nat)
      requires Valid() && clock <= now
      modifies this
      ensures Valid() && clock == now && |states| == |old(states)|
      ensures forall i :: 0 <= i < |states| ==> states[i] == old(states)[i].(disabled := !kinds[i].GetBlock?)
      ensures disabled == |set i | 0 <= i < |kinds| && !kinds[i].GetBlock? && !old(states)[i].disabled|
    {
      clock := now;
      disabled := 0;
      ghost var done: set<int> := {};
      for i := 0 to |states|
        invariant |states| == |old(states)| && clock == now
        invariant |readScores| == |sendScores| == |kinds|
        invariant forall j :: 0 <= j < i ==> states[j] == old(states)[j].(disabled := !kinds[j].GetBlock?)
        invariant forall j :: i <= j < |states| ==> states[j] == old(states)[j]
        invariant done == set j | 0 <= j < i && !kinds[j].GetBlock? && !old(states)[j].disabled
        invariant disabled == |done|
      {
        if kinds[i].GetBlock? {
          states := states[i := states[i].(disabled := false)];
        } else if !states[i].disabled {
          states := states[i := states[i].(disabled := true)];
          disabled := disabled + 1;
          done := done + {i};
        }
      }
      assert done == set i | 0 <= i < |kinds| && !kinds[i].GetBlock? && !old(states)[i].disabled;
      InvalidateScoreCache(now);
    }

    method RecordSuccess(id: nat, latencySecs: real, block: Option<nat>, now: Instant)
      requires Valid() && clock <= now
      modifies this
      ensures Valid() && clock == now
      ensures states == if id < |old(states)|
                        then old(states)[id := AfterSuccess(old(states)[id], latencySecs, block, now)] else old(states)
    {
      hide AfterSuccess;
      clock := now;
      if id >= |states| { return; }
      states := states[id := AfterSuccess(states[id], latencySecs, block, now)];
      InvalidateScoreCache(now);
    }

    method RecordFailure(id: nat, kind: FailureKind, now: Instant)
      requires Valid() && clock <= now
      modifies this
      ensures Valid() && clock == now
      ensures states == if id < |old(states)|
                        then old(states)[id := AfterFailure(old(states)[id], kind, now)] else old(states)
    {
      hide AfterFailure;
      clock := now;
      if id >= |states| { return; }
      states := states[id := AfterFailure(states[id], kind, now)];
      InvalidateScoreCache(now);
    }

    method ReserveSelection(id: nat, send: bool, now: Instant)
      requires Valid() && clock <= now
      modifies this
      ensures Valid() && clock == now
      ensures states == if id < |old(states)|
                        then old(states)[id := AfterReserve(kinds[id], old(states)[id], BurstCost(kinds[id], send),
                                                            now)]
                        else old(states)
    {
      hide AfterReserve;
      clock := now;
      if id >= |states| { return; }
      states := states[id := AfterReserve(kinds[id], states[id], BurstCost(kinds[id], send), now)];
      InvalidateScoreCache(now);
    }

    // ------------------------------------------------------------ the cache

    method RecomputeScores(now: Instant)
      requires Valid() && clock == now
      modifies this`states, this`cacheUpdatedAt, this`readScores, this`sendScores
      ensures Valid() && OnlyLooked(old(states), states, now)
      ensures cacheUpdatedAt == now
      ensures readScores == DirectScores(kinds, old(states), now, false, pow)
      ensures sendScores == DirectScores(kinds, old(states), now, true, pow)
    {
      hide Score, Refresh, Eligible;
      var forReads: Scores, forSends: Scores := [], [];
      for i := 0 to |states|
        invariant |states| == |old(states)| && |forReads| == |forSends| == i
        invariant OnlyLooked(old(states), states, now)
        invariant forall j :: 0 <= j < i ==> forReads[j] == Score(kinds[j], old(states)[j], now, false, pow)
        invariant forall j :: 0 <= j < i ==> forSends[j] == Score(kinds[j], old(states)[j], now, true, pow)
        invariant forall j :: i <= j < |states| ==> states[j] == old(states)[j]
      {
        forReads := forReads + [Score(kinds[i], states[i], now, false, pow)];
        states := states[i := Refresh(states[i], now)];
        ScoreAfterLook(kinds[i], old(states)[i], now, true, pow);
        forSends := forSends + [Score(kinds[i], states[i], now, true, pow)];
      }
      cacheUpdatedAt := now;
      readScores, sendScores := forReads, forSends;
      forall i | 0 <= i < |states| && (readScores[i].Some? || sendScores[i].Some?)
        ensures Eligible(states[i], now)
      {
        ScoredIsEligible(kinds[i], old(states)[i], now, false, pow);
        ScoredIsEligible(kinds[i], old(states)[i], now, true, pow);
        RefreshTwice(old(states)[i], now);
      }
    }

    /** One cached lookup, refilling a stale cache first. */
    method GetCachedScore(id: nat, send: bool, now: Instant) returns (score: Option<real>)
      requires Valid() && clock == now && id < |states|
      modifies this`states, this`cacheUpdatedAt, this`readScores, this`sendScores
      ensures Valid() && OnlyLooked(old(states), states, now)
      ensures score == old(Effective(send, now))[id]
      ensures forall b :: Effective(b, now) == old(Effective(b, now))
    {
      hide Score, Refresh, Eligible;
      if CacheFresh(cacheUpdatedAt, now) {
        return if send then sendScores[id] else readScores[id];
      }
      RecomputeScores(now);
      score := if send then sendScores[id] else readScores[id];
    }

    method EndpointIsReadHealthy(id: nat, now: Instant) returns (healthy: bool)
      requires Valid() && clock == now && id < |states|
      modifies this`states
      ensures Valid() && OnlyLooked(old(states), states, now)
      ensures healthy == HealthFlags(kinds, old(states), now)[id]
      ensures forall b :: Effective(b, now) == old(Effective(b, now))
    {
      hide Refresh, Eligible, HealthyNow;
      RefreshTwice(states[id], now);
      states := states[id := Refresh(states[id], now)];
      LookingChangesNothing(kinds, old(states), states, now, pow);
      healthy := HealthyNow(kinds[id], states[id], now);
    }

    // ------------------------------------------------------------ selection

    /** The scored endpoints whose flag is set, in id order, each scored through the cache. */
    method CollectScored(flags: seq<bool>, send: bool, now: Instant) returns (candidates: seq<Candidate>)
      requires Valid() && clock == now && |flags| == |states|
      modifies this`states, this`cacheUpdatedAt, this`readScores, this`sendScores
      ensures Valid() && OnlyLooked(old(states), states, now)
      ensures forall b :: Effective(b, now) == old(Effective(b, now))
      ensures |Effective(send, now)| == |flags|
      ensures candidates == Keep(Gather(Effective(send, now), |flags|), flags)
    {
      hide Refresh, Eligible, CacheFresh, DirectScores;
      candidates := [];
      ghost var scores := Effective(send, now);
      EffectiveLength(send, now);
      for id := 0 to |states|
        invariant Valid() && clock == now && OnlyLooked(old(states), states, now)
        invariant forall b :: Effective(b, now) == old(Effective(b, now))
        invariant candidates == Keep(Gather(scores, id), flags)
      {
        KeepNext(scores, flags, id);
        if flags[id] {
          label L:
          var score := GetCachedScore(id, send, now);
          LooksCompose(old(states), old@L(states), states, now);
          if score.Some? { candidates := candidates + [Candidate(id, score.value)]; }
        }
      }
    }

    lemma EffectiveLength(send: bool, now: Instant)
      requires Valid() && clock == now
      ensures |Effective(send, now)| == |states|
    {}

    /** The candidates that pass the health check, which looks at each endpoint in turn. */
    method FilterHealthy(candidates: seq<Candidate>, now: Instant) returns (fit: seq<Candidate>)
      requires Valid() && clock == now && forall c :: c in candidates ==> c.id < |states|
      modifies this`states
      ensures Valid() && OnlyLooked(old(states), states, now)
      ensures forall b :: Effective(b, now) == old(Effective(b, now))
      ensures fit == Keep(candidates, HealthFlags(kinds, old(states), now))
    {
      hide Refresh, Eligible, CacheFresh, DirectScores, Healthy;
      fit := [];
      for i := 0 to |candidates|
        invariant Valid() && clock == now && OnlyLooked(old(states), states, now)
        invariant forall b :: Effective(b, now) == old(Effective(b, now))
        invariant fit == Keep(candidates[..i], HealthFlags(kinds, old(states), now))
      {
        assert candidates[..i + 1][..i] == candidates[..i];
        assert candidates[i] in candidates;
        label L:
        LookingChangesNothing(kinds, old(states), states, now, pow);
        var healthy := EndpointIsReadHealthy(candidates[i].id, now);
        LooksCompose(old(states), old@L(states), states, now);
        if healthy { fit := fit + [candidates[i]]; }
      }
      assert candidates[..|candidates|] == candidates;
    }

    /** The scored endpoints of the preferred kind, or all of them if there are none, best score first. */
    method RankCandidates(preferred: seq<bool>, send: bool, now: Instant) returns (candidates: seq<Candidate>)
      requires Valid() && clock == now && |preferred| == |states|
      modifies this`states, this`cacheUpdatedAt, this`readScores, this`sendScores
      ensures Valid() && OnlyLooked(old(states), states, now)
      ensures forall b :: Effective(b, now) == old(Effective(b, now))
      ensures candidates == Ranked(old(Effective(send, now)), preferred)
    {
      hide Refresh, Eligible, CacheFresh, DirectScores, Gather, Keep, Sort;
      candidates := CollectScored(preferred, send, now);
      if candidates == [] {
        label L:
        candidates := CollectScored(seq(|kinds|, _ => true), send, now);
        LooksCompose(old(states), old@L(states), states, now);
        KeepAll(Effective(send, now), seq(|kinds|, _ => true));
      }
      candidates := Sort(candidates);
    }

    /** Every scored endpoint that passes the health check, best score first. */
    method AnyHealthy(now: Instant) returns (candidates: seq<Candidate>)
      requires Valid() && clock == now
      modifies this`states, this`cacheUpdatedAt, this`readScores, this`sendScores
      ensures Valid() && OnlyLooked(old(states), states, now)
      ensures forall b :: Effective(b, now) == old(Effective(b, now))
      ensures |old(Effective(false, now))| == |kinds|
      ensures candidates == Sort(Keep(Gather(old(Effective(false, now)), |kinds|),
                                      HealthFlags(kinds, old(states), now)))
    {
      hide Refresh, Eligible, CacheFresh, DirectScores, HealthFlags, Gather, Keep, Sort;
      var all := seq(|kinds|, _ => true);
      candidates := CollectScored(all, false, now);
      KeepAll(Effective(false, now), all);
      GatherIds(Effective(false, now));
      label L:
      LookingChangesNothing(kinds, old(states), states, now, pow);
      candidates := FilterHealthy(candidates, now);
      LooksCompose(old(states), old@L(states), states, now);
      candidates := Sort(candidates);
    }

    /** The list the handles come from. */
    method PickPool(preferred: seq<bool>, send: bool, now: Instant) returns (candidates: seq<Candidate>)
      requires Valid() && clock == now && |preferred| == |states|
      modifies this`states, this`cacheUpdatedAt, this`readScores, this`sendScores
      ensures Valid() && OnlyLooked(old(states), states, now)
      ensures forall b :: Effective(b, now) == old(Effective(b, now))
      ensures candidates == Pool(old(Effective(send, now)), preferred, HealthFlags(kinds, old(states), now), send)
    {
      hide Refresh, Eligible, CacheFresh, DirectScores, HealthFlags, Ranked, Gather, Keep, Sort;
      candidates := RankCandidates(preferred, send, now);
      if !send {
        EffectiveLength(false, now);
        RankedIds(Effective(false, now), preferred);
        label L:
        LookingChangesNothing(kinds, old(states), states, now, pow);
        var fit := FilterHealthy(candidates, now);
        LooksCompose(old(states), old@L(states), states, now);
        if fit != [] {
          candidates := fit;
        } else {
          label M:
          LookingChangesNothing(kinds, old(states), states, now, pow);
          var anyFit := AnyHealthy(now);
          LooksCompose(old(states), old@M(states), states, now);
          if anyFit != [] { candidates := anyFit; }
        }
      }
    }

    /** Selection through the cache gives exactly the choice over the effective scores, and it is sound: no
        handle belongs to an endpoint that is disabled or cooling down, none repeats, there are at most
        max(limit, 1), and in read mode all are healthy whenever any scored endpoint is healthy. */
    method SelectCandidates(send: bool, limit: nat, rotateTopN: nat, now: Instant) returns (handles: seq<nat>)
      requires Valid() && clock <= now
      modifies this
      ensures Valid() && clock == now && OnlyLooked(old(states), states, now)
      ensures |old(Effective(send, now))| == |kinds|
      ensures handles == Choose(old(Effective(send, now)),
                                PreferenceFlags(kinds, if send then sendPreference else readPreference),
                                HealthFlags(kinds, old(states), now), send, rotateTopN, old(rotation), limit)
      ensures forall h :: h in handles ==> h < |states| && Eligible(states[h], now)
      ensures Distinct(handles) && |handles| <= Max(limit, 1)
      ensures !send && (exists i :: 0 <= i < |kinds| && old(Effective(send, now))[i].Some?
                                    && HealthFlags(kinds, old(states), now)[i]) ==>
                forall h :: h in handles ==> h < |kinds| && HealthFlags(kinds, old(states), now)[h]
    {
      hide Refresh, Eligible, CacheFresh, DirectScores, HealthFlags, OnlyLooked, Pool, Rotated;
      FreshnessFades(now);
      clock := now;
      EffectiveLength(send, now);
      ghost var scores := Effective(send, now);
      var preferred := PreferenceFlags(kinds, if send then sendPreference else readPreference);
      var candidates := PickPool(preferred, send, now);
      var topN := TopN(|candidates|, send, rotateTopN);
      var turned := Rotated(candidates, topN, rotation);
      if topN > 1 { rotation := rotation + 1; }
      handles := Ids(turned[..Min(Max(limit, 1), |turned|)]);
      HandlesSound(old(states), scores, preferred, HealthFlags(kinds, old(states), now), send, rotateTopN,
                   old(rotation), limit, now);
    }

    lemma FreshnessFades(now: Instant)
      requires Valid() && clock <= now
      ensures CacheFresh(cacheUpdatedAt, now) ==> CacheFresh(cacheUpdatedAt, clock)
    {}

    /** The chosen handles, judged by the endpoints' own state. */
    lemma HandlesSound(before: seq<State>, scores: Scores, preferred: seq<bool>, healthy: seq<bool>, send: bool,
                       rotateTopN: nat, rotation: nat, limit: nat, now: Instant)
      requires Valid() && clock == now && OnlyLooked(before, states, now)
      requires scores == Effective(send, now)
      requires healthy == HealthFlags(kinds, before, now) && |preferred| == |kinds|
      ensures var r := Choose(scores, preferred, healthy, send, rotateTopN, rotation, limit);
              && (forall h :: h in r ==> h < |states| && Eligible(states[h], now))
              && Distinct(r) && |r| <= Max(limit, 1)
              && (!send && (exists i :: 0 <= i < |scores| && scores[i].Some? && healthy[i]) ==>
                    forall h :: h in r ==> h < |kinds| && healthy[h])
    {
      hide Choose, Refresh, Score, Healthy;
      ChoiceSound(scores, preferred, healthy, send, rotateTopN, rotation, limit);
      var r := Choose(scores, preferred, healthy, send, rotateTopN, rotation, limit);
      forall h | h in r ensures h < |states| && Eligible(states[h], now) {
        if !CacheFresh(cacheUpdatedAt, now) { ScoredIsEligible(kinds[h], states[h], now, send, pow); }
      }
    }
  }

  lemma KeepNext(scores: Scores, flags: seq<bool>, id: nat)
    requires id < |scores| == |flags|
    ensures Keep(Gather(scores, id + 1), flags)
            == Keep(Gather(scores, id), flags)
               + (if flags[id] && scores[id].Some? then [Candidate(id, scores[id].value)] else [])
  {
    var g := Gather(scores, id);
    if scores[id].Some? {
      assert (g + [Candidate(id, scores[id].value)])[..|g|] == g;
    } else {
      assert g + [] == g;
    }
  }

  lemma KeepAll(scores: Scores, all: seq<bool>)
    requires |all| == |scores| && forall i :: 0 <= i < |all| ==> all[i]
    ensures Keep(Gather(scores, |scores|), all) == Gather(scores, |scores|)
  {
    GatherIds(scores);
    KeepEvery(Gather(scores, |scores|), all);
  }

  lemma {:induction false} KeepEvery(cs: seq<Candidate>, all: seq<bool>)
    requires forall c :: c in cs ==> c.id < |all| && all[c.id]
    ensures Keep(cs, all) == cs
  {
    if cs != [] {
      assert cs[|cs| - 1] in cs;
      KeepEvery(cs[..|cs| - 1], all);
    }
  }

  lemma GatherIds(scores: Scores)
    ensures forall c :: c in Gather(scores, |scores|) ==> c.id < |scores|
  {
    GatherSane(scores, |scores|);
  }

  lemma RankedIds(scores: Scores, preferred: seq<bool>)
    ensures forall c :: c in Ranked(scores, preferred) ==> c.id < |scores|
  {
    RankedSane(scores, preferred);
  }
}
