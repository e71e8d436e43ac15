/** Training and filtering over whole runs: when the model stays a model, when it collapses, how many rounds
    training takes, and what a model that starts even-handed can learn. */
module HiddenMarkovProofs {
  import Arithmetic
  import opened Reals
  import opened Vectors
  import opened HiddenMarkov

  /** A model every state of which can emit exactly the symbols in `support`. */
  predicate Proper(m: Model, support: set<nat>) {
    && m.Shaped()
    && Positive(m.initial) && Sum(m.initial) == 1.0
    && (forall i :: 0 <= i < |m.transition| ==> Positive(m.transition[i]) && Sum(m.transition[i]) == 1.0)
    && (forall i :: 0 <= i < |m.emission| ==> Distribution(m.emission[i]))
    && (forall i, o :: 0 <= i < |m.emission| && 0 <= o < |m.emission[i]| ==> (m.emission[i][o] > 0.0 <==> o in support))
  }

  /** A model with no mass left anywhere. */
  predicate Dead(m: Model) {
    && m.Shaped()
    && Zero(m.initial)
    && (forall i :: 0 <= i < |m.transition| ==> Zero(m.transition[i]))
    && (forall i :: 0 <= i < |m.emission| ==> Zero(m.emission[i]))
  }

  /** No proper model, whatever symbols one has in mind. */
  ghost predicate Improper(m: Model) { forall support: set<nat> :: !Proper(m, support) }

  lemma DeadIsImproper(m: Model)
    requires Dead(m)
    ensures Improper(m)
  {
    assert m.initial[0] == 0.0;
  }

  /** The symbols of an observation sequence, for a model with n symbols. */
  function Seen(n: nat, obs: seq<nat>): set<nat>
    requires n > 0
  {
    set t | 0 <= t < |obs| :: Capped(n, obs[t])
  }

  function Capped(n: nat, observation: nat): nat
    requires n > 0
  {
    if observation < n - 1 then observation else n - 1
  }

  // ---------------------------------------------------------------- rows that stay positive

  lemma PriorTimesLikelihood(prior: seq<real>, likely: seq<real>)
    requires |prior| == |likely| > 0 && Positive(prior) && Positive(likely)
    ensures Positive(Normalized(Times(prior, likely))) && Sum(Normalized(Times(prior, likely))) == 1.0
  {
    hide Normalized;
    forall i | 0 <= i < |prior| ensures Times(prior, likely)[i] > 0.0 {
      ProductPositive(prior[i], likely[i]);
    }
    NormalizedPositive(Times(prior, likely));
  }

  lemma PushedPositive(m: Model, support: set<nat>, belief: seq<real>, k: nat)
    requires Proper(m, support) && |belief| == m.States() && NonNegative(belief) && k < |belief| && belief[k] > 0.0
    ensures Positive(Pushed(m, belief))
  {
    forall j | 0 <= j < m.States() ensures Pushed(m, belief)[j] > 0.0 {
      assert m.Column(j)[k] == m.transition[k][j];
      DotPositiveAt(belief, m.Column(j), k);
    }
  }

  lemma PulledPositive(m: Model, support: set<nat>, value: seq<real>)
    requires Proper(m, support) && |value| == m.States() && Positive(value)
    ensures Positive(Pulled(m, value))
  {
    forall i | 0 <= i < m.States() ensures Pulled(m, value)[i] > 0.0 {
      DotPositiveAt(m.transition[i], value, 0);
    }
  }

  lemma LikelihoodsPositive(m: Model, support: set<nat>, observation: nat)
    requires Proper(m, support) && Capped(m.Symbols(), observation) in support
    ensures Positive(m.Likelihoods(observation))
  {}

  lemma LikelihoodsZero(m: Model, support: set<nat>, observation: nat)
    requires Proper(m, support) && Capped(m.Symbols(), observation) !in support
    ensures Zero(m.Likelihoods(observation))
  {
    forall i | 0 <= i < m.States() ensures m.Likelihoods(observation)[i] == 0.0 {
      assert NonNegative(m.emission[i]);
    }
  }

  lemma {:induction false} AlphaPositive(m: Model, support: set<nat>, obs: seq<nat>, t: nat)
    requires Proper(m, support) && Seen(m.Symbols(), obs) <= support && t < |obs|
    ensures Positive(Alpha(m, obs, t)) && Sum(Alpha(m, obs, t)) == 1.0
  {
    hide Alpha, Normalized, Times, Pushed, Model.Likelihoods, Model.Shaped, Proper;
    InitialPositive(m, support);
    assert Capped(m.Symbols(), obs[t]) in Seen(m.Symbols(), obs);
    LikelihoodsPositive(m, support, obs[t]);
    if t == 0 {
      AlphaFirst(m, obs);
      PriorTimesLikelihood(m.initial, m.Likelihoods(obs[0]));
    } else {
      AlphaNext(m, obs, t);
      AlphaPositive(m, support, obs, t - 1);
      PushedPositive(m, support, Alpha(m, obs, t - 1), 0);
      PriorTimesLikelihood(Pushed(m, Alpha(m, obs, t - 1)), m.Likelihoods(obs[t]));
    }
  }

  lemma InitialPositive(m: Model, support: set<nat>)
    requires Proper(m, support)
    ensures m.Shaped() && |m.initial| == m.States() && Positive(m.initial)
  {}

  lemma {:induction false} BetaPositive(m: Model, support: set<nat>, obs: seq<nat>, t: nat)
    requires Proper(m, support) && Seen(m.Symbols(), obs) <= support && t < |obs|
    ensures Positive(Beta(m, obs, t))
    ensures t < |obs| - 1 ==> Sum(Beta(m, obs, t)) == 1.0
    decreases |obs| - t
  {
    hide Normalized, Pulled, Model.Likelihoods, Model.Shaped, Proper;
    InitialPositive(m, support);
    if t < |obs| - 1 {
      BetaPositive(m, support, obs, t + 1);
      assert Capped(m.Symbols(), obs[t + 1]) in Seen(m.Symbols(), obs);
      LikelihoodsPositive(m, support, obs[t + 1]);
      var ahead := Times(m.Likelihoods(obs[t + 1]), Beta(m, obs, t + 1));
      forall i | 0 <= i < |ahead| ensures ahead[i] > 0.0 {
        ProductPositive(m.Likelihoods(obs[t + 1])[i], Beta(m, obs, t + 1)[i]);
      }
      PulledPositive(m, support, ahead);
      NormalizedPositive(Pulled(m, ahead));
    }
  }

  lemma GammaPositive(m: Model, support: set<nat>, obs: seq<nat>, t: nat)
    requires Proper(m, support) && Seen(m.Symbols(), obs) <= support && t < |obs|
    ensures Positive(Gamma(m, obs, t))
  {
    hide Alpha, Beta, Proper, Seen;
    InitialPositive(m, support);
    AlphaPositive(m, support, obs, t);
    BetaPositive(m, support, obs, t);
    var a, b := Alpha(m, obs, t), Beta(m, obs, t);
    var mass := MaxReal(Dot(a, b), MIN_GAMMA_MASS);
    forall i | 0 <= i < |a| ensures Gamma(m, obs, t)[i] > 0.0 {
      ProductPositive(a[i], b[i]);
      QuotientPositive(Times(a, b)[i], mass);
    }
  }

  lemma {:induction false} StepMassPositive(m: Model, support: set<nat>, obs: seq<nat>, t: nat, i: nat, j: nat)
    requires Proper(m, support) && Seen(m.Symbols(), obs) <= support
    requires 0 < t < |obs| && i < m.States() && j < m.States()
    ensures StepMass(m, obs, t, i, j) > 0.0
  {
    hide Gamma, Model.Likelihoods;
    GammaPositive(m, support, obs, t - 1);
    assert Capped(m.Symbols(), obs[t]) in Seen(m.Symbols(), obs);
    LikelihoodsPositive(m, support, obs[t]);
    ProductPositive(Gamma(m, obs, t - 1)[i], m.transition[i][j]);
    ProductPositive(Gamma(m, obs, t - 1)[i] * m.transition[i][j], m.Likelihoods(obs[t])[j]);
    if t > 1 {
      StepMassPositive(m, support, obs, t - 1, i, j);
    }
  }

  lemma {:induction false} EmissionMassSign(m: Model, support: set<nat>, obs: seq<nat>, t: nat, i: nat, o: nat)
    requires Proper(m, support) && Seen(m.Symbols(), obs) <= support
    requires t <= |obs| && i < m.States() && o < m.Symbols()
    ensures EmissionMass(m, obs, t, i, o) >= 0.0
    ensures EmissionMass(m, obs, t, i, o) > 0.0 <==> o in Seen(m.Symbols(), obs[..t])
  {
    hide Gamma, Proper;
    InitialPositive(m, support);
    if t > 0 {
      EmissionMassSign(m, support, obs, t - 1, i, o);
      GammaPositive(m, support, obs, t - 1);
      SeenNext(m.Symbols(), obs, t - 1);
    }
  }

  lemma SeenNext(n: nat, obs: seq<nat>, t: nat)
    requires n > 0 && t < |obs|
    ensures Seen(n, obs[..t + 1]) == Seen(n, obs[..t]) + {Capped(n, obs[t])}
  {
    forall x | x in Seen(n, obs[..t + 1])
      ensures x in Seen(n, obs[..t]) + {Capped(n, obs[t])}
    {
      var u :| 0 <= u < t + 1 && x == Capped(n, obs[..t + 1][u]);
      if u < t {
        assert obs[..t][u] == obs[u];
      }
    }
    forall x | x in Seen(n, obs[..t])
      ensures x in Seen(n, obs[..t + 1])
    {
      var u :| 0 <= u < t && x == Capped(n, obs[..t][u]);
      assert obs[..t + 1][u] == obs[u];
    }
    assert obs[..t + 1][t] == obs[t];
  }

  /** One iteration on supported observations gives a proper model again, which emits exactly what it saw. */
  lemma ReestimatedProper(m: Model, support: set<nat>, obs: seq<nat>)
    requires Proper(m, support) && |obs| >= 2 && Seen(m.Symbols(), obs) <= support
    ensures Proper(Reestimated(m, obs), Seen(m.Symbols(), obs))
  {
    var r, n, seen := Reestimated(m, obs), m.States(), Seen(m.Symbols(), obs);
    hide StepMasses, EmissionMasses, Normalized, Gamma, Seen, Sum, Positive, Distribution;
    GammaPositive(m, support, obs, 0);
    assert Gamma(m, obs, 0) != [];
    NormalizedPositive(Gamma(m, obs, 0));
    DistributionSum(r.initial);
    forall i | 0 <= i < n
      ensures Positive(r.transition[i]) && Sum(r.transition[i]) == 1.0
    {
      TransitionRowProper(m, support, obs, i);
    }
    forall i | 0 <= i < n
      ensures Distribution(r.emission[i])
      ensures forall o :: 0 <= o < m.Symbols() ==> (r.emission[i][o] > 0.0 <==> o in seen)
    {
      EmissionRowProper(m, support, obs, i);
    }
  }

  lemma DistributionSum(v: seq<real>)
    requires Distribution(v)
    ensures Sum(v) == 1.0
  {}

  lemma TransitionRowProper(m: Model, support: set<nat>, obs: seq<nat>, i: nat)
    requires Proper(m, support) && |obs| >= 2 && Seen(m.Symbols(), obs) <= support && i < m.States()
    ensures var row := Normalized(StepMasses(m, obs, |obs| - 1, i)); Positive(row) && Sum(row) == 1.0
  {
    hide Normalized, StepMass, Proper, Seen;
    InitialPositive(m, support);
    var last := |obs| - 1;
    forall j | 0 <= j < m.States() ensures StepMasses(m, obs, last, i)[j] > 0.0 {
      StepMassPositive(m, support, obs, last, i, j);
    }
    NormalizedPositive(StepMasses(m, obs, last, i));
  }

  lemma EmissionRowProper(m: Model, support: set<nat>, obs: seq<nat>, i: nat)
    requires Proper(m, support) && |obs| >= 2 && Seen(m.Symbols(), obs) <= support && i < m.States()
    ensures var row := Normalized(EmissionMasses(m, obs, |obs|, i));
            && Distribution(row)
            && forall o :: 0 <= o < m.Symbols() ==> (row[o] > 0.0 <==> o in Seen(m.Symbols(), obs))
  {
    hide Normalized, EmissionMass, Proper;
    InitialPositive(m, support);
    assert obs[..|obs|] == obs;
    var masses, first := EmissionMasses(m, obs, |obs|, i), Capped(m.Symbols(), obs[0]);
    forall o | 0 <= o < m.Symbols()
      ensures masses[o] >= 0.0 && (masses[o] > 0.0 <==> o in Seen(m.Symbols(), obs))
    {
      EmissionMassSign(m, support, obs, |obs|, i, o);
    }
    assert first in Seen(m.Symbols(), obs);
    NormalizedDistribution(masses, first);
  }

  // ---------------------------------------------------------------- rows that die

  lemma DeadTimes(a: seq<real>, b: seq<real>)
    requires |a| == |b| && (Zero(a) || Zero(b))
    ensures Zero(Times(a, b)) && Zero(Normalized(Times(a, b)))
  {
    NormalizedZero(Times(a, b));
  }

  lemma PushedZero(m: Model, belief: seq<real>)
    requires m.Shaped() && |belief| == m.States() && Zero(belief)
    ensures Zero(Pushed(m, belief))
  {
    forall j | 0 <= j < m.States() ensures Pushed(m, belief)[j] == 0.0 {
      DotZero(belief, m.Column(j));
    }
  }

  lemma PulledZero(m: Model, value: seq<real>)
    requires m.Shaped() && |value| == m.States() && Zero(value)
    ensures Zero(Pulled(m, value))
  {
    forall i | 0 <= i < m.States() ensures Pulled(m, value)[i] == 0.0 {
      DotZero(m.transition[i], value);
    }
  }

  lemma InitialLength(m: Model)
    requires m.Shaped()
    ensures |m.initial| == m.States()
  {}

  /** From an observation no state can emit, the forward rows are zero. */
  lemma {:induction false} AlphaDies(m: Model, obs: seq<nat>, u: nat, t: nat)
    requires m.Shaped() && u <= t < |obs| && Zero(m.Likelihoods(obs[u]))
    ensures Zero(Alpha(m, obs, t))
  {
    hide Alpha, Normalized, Times, Pushed, Model.Likelihoods, Model.Shaped;
    if t == 0 {
      AlphaFirst(m, obs);
      InitialLength(m);
      DeadTimes(m.initial, m.Likelihoods(obs[0]));
    } else {
      AlphaNext(m, obs, t);
      if u < t {
        AlphaDies(m, obs, u, t - 1);
        PushedZero(m, Alpha(m, obs, t - 1));
      }
      DeadTimes(Pushed(m, Alpha(m, obs, t - 1)), m.Likelihoods(obs[t]));
    }
  }

  /** Before it, the backward rows are zero. */
  lemma {:induction false} BetaDies(m: Model, obs: seq<nat>, u: nat, t: nat)
    requires m.Shaped() && t < u < |obs| && Zero(m.Likelihoods(obs[u]))
    ensures Zero(Beta(m, obs, t))
    decreases u - t
  {
    hide Normalized, Times, Pulled, Model.Likelihoods;
    if t + 1 < u {
      BetaDies(m, obs, u, t + 1);
    }
    DeadTimes(m.Likelihoods(obs[t + 1]), Beta(m, obs, t + 1));
    var ahead := Times(m.Likelihoods(obs[t + 1]), Beta(m, obs, t + 1));
    PulledZero(m, ahead);
    NormalizedZero(Pulled(m, ahead));
  }

  lemma GammaZero(m: Model, obs: seq<nat>, t: nat)
    requires m.Shaped() && t < |obs| && (Zero(Alpha(m, obs, t)) || Zero(Beta(m, obs, t)))
    ensures Zero(Gamma(m, obs, t))
  {
    hide Alpha, Beta;
    DeadTimes(Alpha(m, obs, t), Beta(m, obs, t));
  }

  lemma {:induction false} StepMassZero(m: Model, obs: seq<nat>, t: nat, i: nat, j: nat)
    requires m.Shaped() && t < |obs| && i < m.States() && j < m.States()
    requires forall u :: 0 <= u < |obs| ==> Zero(Gamma(m, obs, u))
    ensures StepMass(m, obs, t, i, j) == 0.0
  {
    hide Gamma;
    if t > 0 {
      StepMassZero(m, obs, t - 1, i, j);
      assert Gamma(m, obs, t - 1)[i] == 0.0;
    }
  }

  lemma {:induction false} EmissionMassZero(m: Model, obs: seq<nat>, t: nat, i: nat, o: nat)
    requires m.Shaped() && t <= |obs| && i < m.States() && o < m.Symbols()
    requires forall u :: 0 <= u < |obs| ==> Zero(Gamma(m, obs, u))
    ensures EmissionMass(m, obs, t, i, o) == 0.0
  {
    hide Gamma;
    if t > 0 {
      EmissionMassZero(m, obs, t - 1, i, o);
      assert Gamma(m, obs, t - 1)[i] == 0.0;
    }
  }

  lemma MasslessDies(m: Model, obs: seq<nat>)
    requires m.Shaped() && |obs| >= 2 && forall u :: 0 <= u < |obs| ==> Zero(Gamma(m, obs, u))
    ensures Dead(Reestimated(m, obs))
  {
    hide Gamma, StepMass, EmissionMass, Normalized;
    NormalizedZero(Gamma(m, obs, 0));
    var r, last := Reestimated(m, obs), |obs| - 1;
    forall i | 0 <= i < m.States() ensures Zero(r.transition[i]) && Zero(r.emission[i]) {
      forall j | 0 <= j < m.States() ensures StepMass(m, obs, last, i, j) == 0.0 {
        StepMassZero(m, obs, last, i, j);
      }
      NormalizedZero(StepMasses(m, obs, last, i));
      forall o | 0 <= o < m.Symbols() ensures EmissionMass(m, obs, |obs|, i, o) == 0.0 {
        EmissionMassZero(m, obs, |obs|, i, o);
      }
      NormalizedZero(EmissionMasses(m, obs, |obs|, i));
    }
  }

  /** A single observation the model cannot emit wipes out every parameter. */
  lemma UnsupportedKills(m: Model, support: set<nat>, obs: seq<nat>)
    requires Proper(m, support) && |obs| >= 2 && !(Seen(m.Symbols(), obs) <= support)
    ensures Dead(Reestimated(m, obs))
  {
    hide Gamma, Alpha, Beta, Model.Likelihoods, Reestimated, Proper;
    InitialPositive(m, support);
    var u :| 0 <= u < |obs| && Capped(m.Symbols(), obs[u]) !in support;
    LikelihoodsZero(m, support, obs[u]);
    forall t | 0 <= t < |obs| ensures Zero(Gamma(m, obs, t)) {
      if u <= t {
        AlphaDies(m, obs, u, t);
      } else {
        BetaDies(m, obs, u, t);
      }
      GammaZero(m, obs, t);
    }
    MasslessDies(m, obs);
  }

  lemma DeadLikelihoods(m: Model, observation: nat)
    requires Dead(m)
    ensures Zero(m.Likelihoods(observation))
  {}

  lemma DeadStaysDead(m: Model, obs: seq<nat>)
    requires Dead(m) && |obs| >= 2
    ensures Dead(Reestimated(m, obs))
  {
    hide Gamma, Alpha, Model.Likelihoods, Reestimated, Dead;
    assert m.Shaped() by { DeadShaped(m); }
    forall t | 0 <= t < |obs| ensures Zero(Gamma(m, obs, t)) {
      DeadLikelihoods(m, obs[t]);
      AlphaDies(m, obs, t, t);
      GammaZero(m, obs, t);
    }
    MasslessDies(m, obs);
  }

  lemma DeadShaped(m: Model)
    requires Dead(m)
    ensures m.Shaped()
  {}

  // ---------------------------------------------------------------- whole trainings

  function Iterated(m: Model, obs: seq<nat>, n: nat): (r: Model)
    requires m.Shaped() && |obs| >= 2
    ensures r.Shaped() && r.States() == m.States() && r.Symbols() == m.Symbols()
    decreases n
  {
    if n == 0 then m else Iterated(Reestimated(m, obs), obs, n - 1)
  }

  lemma {:induction false} DeadIterated(m: Model, obs: seq<nat>, n: nat)
    requires Dead(m) && |obs| >= 2
    ensures Dead(Iterated(m, obs, n))
    decreases n
  {
    hide Reestimated, Dead;
    DeadShaped(m);
    if n > 0 {
      DeadStaysDead(m, obs);
      DeadIterated(Reestimated(m, obs), obs, n - 1);
    }
  }

  lemma {:induction false} ProperIterated(m: Model, support: set<nat>, obs: seq<nat>, n: nat)
    requires Proper(m, support) && |obs| >= 2 && Seen(m.Symbols(), obs) <= support && n > 0
    ensures Proper(Iterated(m, obs, n), Seen(m.Symbols(), obs))
    decreases n
  {
    hide Reestimated, Proper, Seen;
    InitialPositive(m, support);
    ReestimatedProper(m, support, obs);
    if n > 1 {
      ProperIterated(Reestimated(m, obs), Seen(m.Symbols(), obs), obs, n - 1);
    }
  }

  /** The forward pass of a proper model always ends at likelihood 1 (each row is renormalised), of a dead
      one at 0: it does not measure fit. */
  lemma ForwardIsConstant(m: Model, obs: seq<nat>)
    requires m.Shaped() && obs != []
    ensures Proper(m, Seen(m.Symbols(), obs)) ==> Forward(m, obs) == 1.0
    ensures Dead(m) ==> Forward(m, obs) == 0.0
  {
    hide Alpha, Proper, Dead, Seen, Model.Likelihoods;
    var last := |obs| - 1;
    if Proper(m, Seen(m.Symbols(), obs)) {
      AlphaPositive(m, Seen(m.Symbols(), obs), obs, last);
    }
    if Dead(m) {
      DeadLikelihoods(m, obs[last]);
      AlphaDies(m, obs, last, last);
      NormalizedZero(Alpha(m, obs, last));
    }
  }

  /** Which of the two a model is, with the likelihood it reports. */
  predicate Steady(m: Model, obs: seq<nat>, likelihood: real) {
    && m.Shaped()
    && (if likelihood == 1.0 then Proper(m, Seen(m.Symbols(), obs)) else likelihood == 0.0 && Dead(m))
  }

  lemma SteadyNext(m: Model, obs: seq<nat>, likelihood: real)
    requires Steady(m, obs, likelihood) && |obs| >= 2
    ensures Steady(Reestimated(m, obs), obs, likelihood) && Forward(Reestimated(m, obs), obs) == likelihood
  {
    hide Reestimated, Proper, Dead, Seen, Forward;
    if likelihood == 1.0 {
      ReestimatedProper(m, Seen(m.Symbols(), obs), obs);
    } else {
      DeadStaysDead(m, obs);
    }
    ForwardIsConstant(Reestimated(m, obs), obs);
  }

  lemma {:induction false} SteadyRounds(m: Model, obs: seq<nat>, rounds: nat, tol: real, likelihood: real)
    requires Steady(m, obs, likelihood) && |obs| >= 2
    ensures Trained(m, obs, rounds, tol, [likelihood])
            == Iterated(m, obs, if tol > 0.0 && rounds > 1 then 1 else rounds)
    decreases rounds
  {
    hide Reestimated, Forward, Proper, Dead, Seen;
    if rounds > 0 {
      SteadyNext(m, obs, likelihood);
      if tol <= 0.0 {
        SteadyRounds(Reestimated(m, obs), obs, rounds - 1, tol, likelihood);
      }
    }
  }

  lemma FirstRound(m: Model, support: set<nat>, obs: seq<nat>)
    requires Proper(m, support) && |obs| >= 2
    ensures Steady(Reestimated(m, obs), obs, if Seen(m.Symbols(), obs) <= support then 1.0 else 0.0)
  {
    hide Reestimated, Proper, Dead, Seen;
    InitialPositive(m, support);
    if Seen(m.Symbols(), obs) <= support {
      ReestimatedProper(m, support, obs);
    } else {
      UnsupportedKills(m, support, obs);
    }
  }

  /** With a positive tolerance training stops after two iterations whatever `rounds` allows, and without
      one it uses them all. */
  lemma TrainedRounds(m: Model, support: set<nat>, obs: seq<nat>, rounds: nat, tol: real)
    requires Proper(m, support) && |obs| >= 2
    ensures Trained(m, obs, rounds, tol, []) == Iterated(m, obs, if tol > 0.0 && rounds > 2 then 2 else rounds)
  {
    hide Reestimated, Proper, Dead, Seen, Forward, Steady, Model.Shaped;
    InitialPositive(m, support);
    if rounds > 0 {
      FirstRound(m, support, obs);
      var r, likelihood := Reestimated(m, obs), if Seen(m.Symbols(), obs) <= support then 1.0 else 0.0;
      SteadyForward(r, obs, likelihood);
      assert Trained(m, obs, rounds, tol, []) == Trained(r, obs, rounds - 1, tol, [likelihood]);
      SteadyRounds(r, obs, rounds - 1, tol, likelihood);
    }
  }

  lemma SteadyForward(m: Model, obs: seq<nat>, likelihood: real)
    requires Steady(m, obs, likelihood) && obs != []
    ensures m.Shaped() && Forward(m, obs) == likelihood
  {
    hide Proper, Dead, Seen, Forward;
    ForwardIsConstant(m, obs);
  }

  /** What BaumWelch makes of the parameters. */
  function TrainedOn(m: Model, obs: seq<nat>, rounds: nat, tol: real): (r: Model)
    requires m.Shaped()
    ensures r.Shaped() && r.States() == m.States() && r.Symbols() == m.Symbols()
  {
    if |obs| < 2 then m else Trained(m, obs, rounds, tol, [])
  }

  /** The symbols a model can emit after training, if it survives. */
  function Narrowed(n: nat, support: set<nat>, obs: seq<nat>): set<nat>
    requires n > 0
  {
    if |obs| < 2 then support else Seen(n, obs)
  }

  /** Training keeps a proper model exactly when it could already emit every observation. */
  lemma TrainingKeepsModel(m: Model, support: set<nat>, obs: seq<nat>, rounds: nat, tol: real)
    requires Proper(m, support) && rounds > 0
    ensures if |obs| < 2 || Seen(m.Symbols(), obs) <= support
            then Proper(TrainedOn(m, obs, rounds, tol), Narrowed(m.Symbols(), support, obs))
            else Dead(TrainedOn(m, obs, rounds, tol)) && Improper(TrainedOn(m, obs, rounds, tol))
  {
    hide Reestimated, Proper, Improper, Dead, Seen, Trained;
    InitialPositive(m, support);
    if |obs| >= 2 {
      var n := if tol > 0.0 && rounds > 2 then 2 else rounds;
      TrainedRounds(m, support, obs, rounds, tol);
      if Seen(m.Symbols(), obs) <= support {
        ProperIterated(m, support, obs, n);
      } else {
        UnsupportedKills(m, support, obs);
        DeadIterated(Reestimated(m, obs), obs, n - 1);
        DeadIsImproper(TrainedOn(m, obs, rounds, tol));
      }
    }
  }

  lemma {:induction false} TrainingCannotRevive(m: Model, obs: seq<nat>, rounds: nat, tol: real, previous: seq<real>)
    requires Dead(m) && |obs| >= 2
    ensures Dead(Trained(m, obs, rounds, tol, previous))
    decreases rounds
  {
    hide Reestimated, Dead, Forward;
    DeadShaped(m);
    if rounds > 0 {
      DeadStaysDead(m, obs);
      TrainingCannotRevive(Reestimated(m, obs), obs, rounds - 1, tol, [Forward(Reestimated(m, obs), obs)]);
    }
  }

  /** Training on one observation sequence after another. */
  function Retrained(m: Model, batches: seq<seq<nat>>, rounds: nat, tol: real): (r: Model)
    requires m.Shaped()
    ensures r.Shaped() && r.Symbols() == m.Symbols()
    decreases |batches|
  {
    if batches == [] then m else Retrained(TrainedOn(m, batches[0], rounds, tol), batches[1..], rounds, tol)
  }

  /** Every batch that trains at all shows only symbols the batch before it showed. */
  predicate Narrowing(n: nat, support: set<nat>, batches: seq<seq<nat>>)
    requires n > 0
    decreases |batches|
  {
    batches == [] ||
    ((|batches[0]| < 2 || Seen(n, batches[0]) <= support)
     && Narrowing(n, Narrowed(n, support, batches[0]), batches[1..]))
  }

  function LastSupport(n: nat, support: set<nat>, batches: seq<seq<nat>>): set<nat>
    requires n > 0
    decreases |batches|
  {
    if batches == [] then support else LastSupport(n, Narrowed(n, support, batches[0]), batches[1..])
  }

  lemma {:induction false} RetrainingCannotRevive(m: Model, batches: seq<seq<nat>>, rounds: nat, tol: real)
    requires Dead(m)
    ensures Dead(Retrained(m, batches, rounds, tol))
    decreases |batches|
  {
    hide Trained, Dead;
    DeadShaped(m);
    if batches != [] {
      if |batches[0]| >= 2 {
        TrainingCannotRevive(m, batches[0], rounds, tol, []);
      }
      RetrainingCannotRevive(TrainedOn(m, batches[0], rounds, tol), batches[1..], rounds, tol);
    }
  }

  /** Over any sequence of trainings the model survives exactly when the batches narrow; otherwise every
      parameter is zero from then on. */
  lemma {:induction false} SurvivesExactlyWhenNarrowing(m: Model, support: set<nat>, batches: seq<seq<nat>>,
                                                        rounds: nat, tol: real)
    requires Proper(m, support) && rounds > 0
    ensures if Narrowing(m.Symbols(), support, batches)
            then Proper(Retrained(m, batches, rounds, tol), LastSupport(m.Symbols(), support, batches))
            else Dead(Retrained(m, batches, rounds, tol)) && Improper(Retrained(m, batches, rounds, tol))
    decreases |batches|
  {
    hide TrainedOn, Proper, Improper, Dead, Seen, Narrowed;
    InitialPositive(m, support);
    if batches != [] {
      var first := batches[0];
      var r := TrainedOn(m, first, rounds, tol);
      TrainingKeepsModel(m, support, first, rounds, tol);
      if |first| < 2 || Seen(m.Symbols(), first) <= support {
        SurvivesExactlyWhenNarrowing(r, Narrowed(m.Symbols(), support, first), batches[1..], rounds, tol);
      } else {
        RetrainingCannotRevive(r, batches[1..], rounds, tol);
        DeadIsImproper(Retrained(m, batches, rounds, tol));
      }
    }
  }

  function AllSymbols(n: nat): (s: set<nat>)
    ensures forall o: nat :: o in s <==> o < n
  {
    if n == 0 then {} else AllSymbols(n - 1) + {n - 1}
  }

  lemma SeenIsSymbols(n: nat, obs: seq<nat>)
    requires n > 0
    ensures Seen(n, obs) <= AllSymbols(n)
  {}

  lemma EvenIsDistribution(n: nat)
    requires n > 0
    ensures Positive(Even(n)) && Distribution(Even(n))
  {
    QuotientPositive(1.0, n as real);
    SumLevel(Even(n), 1.0 / n as real);
  }

  lemma NewIsProper(states: nat, symbols: nat)
    ensures Proper(NewModel(states, symbols), AllSymbols(Arithmetic.Max(symbols, 1)))
  {
    hide Sum, AllSymbols;
    var s, o := Arithmetic.Max(states, 1), Arithmetic.Max(symbols, 1);
    EvenIsDistribution(s);
    EvenIsDistribution(o);
  }

  /** From a new model, training on any one sequence of two or more observations keeps a proper model. */
  lemma NewModelTrains(states: nat, symbols: nat, obs: seq<nat>, rounds: nat, tol: real)
    requires rounds > 0 && |obs| >= 2
    ensures Proper(TrainedOn(NewModel(states, symbols), obs, rounds, tol), Seen(Arithmetic.Max(symbols, 1), obs))
  {
    hide TrainedOn, Proper, Dead, NewModel, Seen, AllSymbols;
    NewIsProper(states, symbols);
    SeenIsSymbols(Arithmetic.Max(symbols, 1), obs);
    TrainingKeepsModel(NewModel(states, symbols), AllSymbols(Arithmetic.Max(symbols, 1)), obs, rounds, tol);
  }

  // ---------------------------------------------------------------- filtering

  function FilterRun(m: Model, belief: seq<real>, obs: seq<nat>): (b: seq<real>)
    requires m.Shaped() && |belief| == m.States()
    ensures |b| == m.States()
  {
    if obs == [] then belief else Filtered(m, FilterRun(m, belief, obs[..|obs| - 1]), obs[|obs| - 1])
  }

  /** The belief stays a distribution exactly as long as the model can emit what it sees; after one
      observation it cannot emit, the belief is zero for good. */
  lemma {:induction false} BeliefSurvives(m: Model, support: set<nat>, belief: seq<real>, obs: seq<nat>)
    requires Proper(m, support) && |belief| == m.States() && Distribution(belief)
    ensures var b := FilterRun(m, belief, obs);
            if Seen(m.Symbols(), obs) <= support then Distribution(b) else Zero(b)
  {
    hide Normalized, Times, Pushed, Model.Likelihoods, Proper;
    InitialPositive(m, support);
    if obs != [] {
      var n := |obs| - 1;
      var b := FilterRun(m, belief, obs[..n]);
      BeliefSurvives(m, support, belief, obs[..n]);
      assert obs[..n + 1] == obs;
      SeenNext(m.Symbols(), obs, n);
      if !(Seen(m.Symbols(), obs[..n]) <= support) {
        PushedZero(m, b);
        DeadTimes(Pushed(m, b), m.Likelihoods(obs[n]));
      } else if Capped(m.Symbols(), obs[n]) !in support {
        LikelihoodsZero(m, support, obs[n]);
        DeadTimes(Pushed(m, b), m.Likelihoods(obs[n]));
      } else {
        var k := SomePositive(b);
        PushedPositive(m, support, b, k);
        LikelihoodsPositive(m, support, obs[n]);
        PriorTimesLikelihood(Pushed(m, b), m.Likelihoods(obs[n]));
      }
    }
  }

  lemma SomePositive(v: seq<real>) returns (k: nat)
    requires Distribution(v)
    ensures k < |v| && v[k] > 0.0
  {
    if i :| 0 <= i < |v| && v[i] > 0.0 {
      k := i;
    } else {
      assert Zero(v);
      NormalizedZero(v);
    }
  }

  // ---------------------------------------------------------------- what an even-handed start can learn

  predicate Flat(v: seq<real>) { v != [] && Level(v, v[0]) }

  /** No state differs from any other. */
  predicate Blind(m: Model) {
    && m.Shaped() && Flat(m.initial)
    && (forall i :: 0 <= i < |m.transition| ==> Level(m.transition[i], m.transition[0][0]))
    && (forall i :: 0 <= i < |m.emission| ==> m.emission[i] == m.emission[0])
  }

  lemma FlatTimes(a: seq<real>, b: seq<real>)
    requires Flat(a) && Flat(b) && |a| == |b|
    ensures Flat(Times(a, b)) && Flat(Normalized(Times(a, b)))
  {
    FlatNormalized(Times(a, b));
  }

  lemma FlatNormalized(v: seq<real>)
    requires Flat(v)
    ensures Flat(Normalized(v))
  {
    NormalizedLevel(v, v[0]);
  }

  lemma BlindPushed(m: Model, value: seq<real>)
    requires Blind(m) && |value| == m.States()
    ensures Flat(Pushed(m, value))
  {
    hide Dot;
    forall j | 0 <= j < m.States() ensures m.Column(j) == m.Column(0) {
      assert forall i :: 0 <= i < m.States() ==> m.transition[i][j] == m.transition[i][0];
    }
  }

  lemma BlindPulled(m: Model, value: seq<real>)
    requires Blind(m) && |value| == m.States()
    ensures Flat(Pulled(m, value))
  {
    hide Dot;
    forall i | 0 <= i < m.States() ensures m.transition[i] == m.transition[0] {
    }
  }

  lemma BlindLikelihoods(m: Model, observation: nat)
    requires Blind(m)
    ensures Flat(m.initial) && Flat(m.Likelihoods(observation))
  {}

  lemma {:induction false} AlphaFlat(m: Model, obs: seq<nat>, t: nat)
    requires Blind(m) && t < |obs|
    ensures Flat(Alpha(m, obs, t))
  {
    hide Alpha, Normalized, Times, Pushed, Model.Likelihoods, Model.Shaped, Flat, Blind;
    BlindShaped(m);
    BlindLikelihoods(m, obs[t]);
    if t == 0 {
      AlphaFirst(m, obs);
      InitialLength(m);
      FlatTimes(m.initial, m.Likelihoods(obs[0]));
    } else {
      AlphaNext(m, obs, t);
      AlphaFlat(m, obs, t - 1);
      BlindPushed(m, Alpha(m, obs, t - 1));
      FlatTimes(Pushed(m, Alpha(m, obs, t - 1)), m.Likelihoods(obs[t]));
    }
  }

  lemma BetaFlat(m: Model, obs: seq<nat>, t: nat)
    requires Blind(m) && t < |obs|
    ensures Flat(Beta(m, obs, t))
  {
    hide Normalized, Times, Pulled, Pushed, Model.Likelihoods;
    if t < |obs| - 1 {
      var ahead := Times(m.Likelihoods(obs[t + 1]), Beta(m, obs, t + 1));
      BlindPulled(m, ahead);
      FlatNormalized(Pulled(m, ahead));
    }
  }

  lemma GammaFlat(m: Model, obs: seq<nat>, t: nat)
    requires Blind(m) && t < |obs|
    ensures Flat(Gamma(m, obs, t))
  {
    hide Alpha, Beta, Blind, Dot;
    BlindShaped(m);
    AlphaFlat(m, obs, t);
    BetaFlat(m, obs, t);
    FlatTimes(Alpha(m, obs, t), Beta(m, obs, t));
  }

  lemma {:induction false} StepMassFlat(m: Model, obs: seq<nat>, t: nat, i: nat, j: nat)
    requires Blind(m) && t < |obs| && i < m.States() && j < m.States()
    ensures StepMass(m, obs, t, i, j) == StepMass(m, obs, t, 0, 0)
  {
    hide Gamma;
    if t > 0 {
      StepMassFlat(m, obs, t - 1, i, j);
      GammaFlat(m, obs, t - 1);
      assert m.transition[i][j] == m.transition[0][0];
      assert m.Likelihoods(obs[t])[j] == m.Likelihoods(obs[t])[0];
    }
  }

  lemma {:induction false} EmissionMassFlat(m: Model, obs: seq<nat>, t: nat, i: nat, o: nat)
    requires Blind(m) && t <= |obs| && i < m.States() && o < m.Symbols()
    ensures EmissionMass(m, obs, t, i, o) == EmissionMass(m, obs, t, 0, o)
  {
    hide Gamma;
    if t > 0 {
      EmissionMassFlat(m, obs, t - 1, i, o);
      GammaFlat(m, obs, t - 1);
    }
  }

  /** Re-estimation cannot tell apart states that start out the same. */
  lemma ReestimatedBlind(m: Model, obs: seq<nat>)
    requires Blind(m) && |obs| >= 2
    ensures Blind(Reestimated(m, obs))
  {
    hide Gamma, StepMass, EmissionMass, Normalized;
    var r, last := Reestimated(m, obs), |obs| - 1;
    GammaFlat(m, obs, 0);
    FlatNormalized(Gamma(m, obs, 0));
    forall i | 0 <= i < m.States()
      ensures Level(r.transition[i], r.transition[0][0]) && r.emission[i] == r.emission[0]
    {
      forall j | 0 <= j < m.States() ensures StepMass(m, obs, last, i, j) == StepMass(m, obs, last, 0, 0)
                                     ensures StepMass(m, obs, last, 0, j) == StepMass(m, obs, last, 0, 0) {
        StepMassFlat(m, obs, last, i, j);
        StepMassFlat(m, obs, last, 0, j);
      }
      assert StepMasses(m, obs, last, i) == StepMasses(m, obs, last, 0);
      FlatNormalized(StepMasses(m, obs, last, i));
      forall o | 0 <= o < m.Symbols() ensures EmissionMass(m, obs, |obs|, i, o) == EmissionMass(m, obs, |obs|, 0, o) {
        EmissionMassFlat(m, obs, |obs|, i, o);
      }
      assert EmissionMasses(m, obs, |obs|, i) == EmissionMasses(m, obs, |obs|, 0);
    }
  }

  lemma {:induction false} TrainedBlind(m: Model, obs: seq<nat>, rounds: nat, tol: real, previous: seq<real>)
    requires Blind(m) && |obs| >= 2
    ensures Blind(Trained(m, obs, rounds, tol, previous))
    decreases rounds
  {
    hide Reestimated, Forward, Blind;
    assert m.Shaped() by { BlindShaped(m); }
    if rounds > 0 {
      ReestimatedBlind(m, obs);
      TrainedBlind(Reestimated(m, obs), obs, rounds - 1, tol, [Forward(Reestimated(m, obs), obs)]);
    }
  }

  lemma BlindShaped(m: Model)
    requires Blind(m)
    ensures m.Shaped()
  {}

  /** After any sequence of trainings from a new model, the hidden states are all alike. */
  lemma {:induction false} RetrainedBlind(m: Model, batches: seq<seq<nat>>, rounds: nat, tol: real)
    requires Blind(m)
    ensures Blind(Retrained(m, batches, rounds, tol))
    decreases |batches|
  {
    hide Trained, Blind;
    BlindShaped(m);
    if batches != [] {
      if |batches[0]| >= 2 {
        TrainedBlind(m, batches[0], rounds, tol, []);
      }
      RetrainedBlind(TrainedOn(m, batches[0], rounds, tol), batches[1..], rounds, tol);
    }
  }

  lemma NewIsBlind(states: nat, symbols: nat)
    ensures Blind(NewModel(states, symbols))
  {}

  /** So the filter never moves the belief: from a new model, after any surviving sequence of trainings, an
      observation the model can emit leaves the even belief even. */
  lemma FilterLearnsNothing(states: nat, symbols: nat, batches: seq<seq<nat>>, rounds: nat, tol: real, observation: nat)
    requires rounds > 0 && Narrowing(Arithmetic.Max(symbols, 1), AllSymbols(Arithmetic.Max(symbols, 1)), batches)
    requires var o := Arithmetic.Max(symbols, 1);
             Capped(o, observation) in LastSupport(o, AllSymbols(o), batches)
    ensures var r := Retrained(NewModel(states, symbols), batches, rounds, tol);
            var even := Even(Arithmetic.Max(states, 1));
            |r.transition| == |even| && Filtered(r, even, observation) == even
  {
    hide Retrained, Proper, Blind, Narrowing, LastSupport, AllSymbols, NewModel, Filtered;
    var m, support := NewModel(states, symbols), AllSymbols(Arithmetic.Max(symbols, 1));
    NewIsProper(states, symbols);
    NewIsBlind(states, symbols);
    RetrainedBlind(m, batches, rounds, tol);
    SurvivesExactlyWhenNarrowing(m, support, batches, rounds, tol);
    RetrainedStates(m, batches, rounds, tol);
    EvenStaysEven(Retrained(m, batches, rounds, tol), LastSupport(Arithmetic.Max(symbols, 1), support, batches),
                  observation);
  }

  lemma {:induction false} RetrainedStates(m: Model, batches: seq<seq<nat>>, rounds: nat, tol: real)
    requires m.Shaped()
    ensures Retrained(m, batches, rounds, tol).States() == m.States()
    decreases |batches|
  {
    hide TrainedOn;
    if batches != [] {
      RetrainedStates(TrainedOn(m, batches[0], rounds, tol), batches[1..], rounds, tol);
    }
  }

  lemma EvenStaysEven(m: Model, support: set<nat>, observation: nat)
    requires Proper(m, support) && Blind(m) && Capped(m.Symbols(), observation) in support
    ensures Filtered(m, Even(m.States()), observation) == Even(m.States())
  {
    hide Normalized, Times, Pushed, Model.Likelihoods, Model.Shaped, Proper, Blind;
    InitialPositive(m, support);
    var n := m.States();
    var b := Even(n);
    BlindPushed(m, b);
    BlindLikelihoods(m, observation);
    LikelihoodsPositive(m, support, observation);
    PushedPositive(m, support, b, 0);
    FlatTimes(Pushed(m, b), m.Likelihoods(observation));
    PriorTimesLikelihood(Pushed(m, b), m.Likelihoods(observation));
    var next := Filtered(m, b, observation);
    LevelDistribution(next, next[0]);
    assert next == b;
  }

  // ---------------------------------------------------------------- and what it does learn

  function Occurrences(n: nat, obs: seq<nat>, o: nat): nat
    requires n > 0
  {
    if obs == [] then 0
    else Occurrences(n, obs[..|obs| - 1], o) + (if Capped(n, obs[|obs| - 1]) == o then 1 else 0)
  }

  /** What each of n like states gets of the last moment, and of every moment before it: an even share, unless an
      even share is below the smallest mass the update divides by. */
  function LastShare(n: nat): real
    requires n > 0
  {
    1.0 / n as real
  }

  function EarlyShare(n: nat): real
    requires n > 0
  {
    LastShare(n) * LastShare(n) / MaxReal(LastShare(n), MIN_GAMMA_MASS)
  }

  lemma SharesPositive(n: nat)
    requires n > 0
    ensures LastShare(n) > 0.0 && EarlyShare(n) > 0.0
  {
    QuotientPositive(1.0, n as real);
    var x := LastShare(n);
    ProductPositive(x, x);
    QuotientPositive(x * x, MaxReal(x, MIN_GAMMA_MASS));
  }

  lemma SharesAgree(n: nat)
    requires n > 0
    ensures EarlyShare(n) == LastShare(n) <==> n <= 1000000000000
  {
    SharesPositive(n);
    var x := LastShare(n);
    if n <= 1000000000000 {
      if n < 1000000000000 { ReciprocalFalls(n as real, 1000000000000.0); }
      Cancel(n as real, x, x);
    } else {
      ReciprocalFalls(1000000000000.0, n as real);
      SmallSquare(x, MIN_GAMMA_MASS);
    }
  }

  lemma ReciprocalFalls(n: real, m: real)
    requires 0.0 < n < m
    ensures 1.0 / m < 1.0 / n
  {
    var x, y := 1.0 / n, 1.0 / m;
    assert x * n == 1.0 && y * m == 1.0;
    if x <= y {
      ProductMonotone(x, y, n);
      QuotientPositive(1.0, m);
      ProductPositive(y, m - n);
    }
  }

  lemma SmallSquare(x: real, d: real)
    requires 0.0 < x < d
    ensures x * x / d < x
  {
    ProductPositive(d - x, x);
    QuotientStrict(x * x, d * x, d);
    assert d * x / d == x;
  }

  lemma Cancel(n: real, x: real, y: real)
    requires n > 0.0 && x == 1.0 / n && y > 0.0
    ensures n * (x * y) == y && x * y / y == x
  {
    assert n * x == 1.0;
    assert n * (x * y) == (n * x) * y;
  }

  /** States that are alike share every moment evenly. */
  lemma GammaEven(m: Model, support: set<nat>, obs: seq<nat>, t: nat)
    requires Proper(m, support) && Blind(m) && Seen(m.Symbols(), obs) <= support && t < |obs|
    ensures Level(Gamma(m, obs, t), if t < |obs| - 1 then EarlyShare(m.States()) else LastShare(m.States()))
  {
    hide Alpha, Proper, Blind, Seen, Model.Shaped, Dot, Times;
    InitialPositive(m, support);
    AlphaPositive(m, support, obs, t);
    AlphaFlat(m, obs, t);
    var a, b := Alpha(m, obs, t), Beta(m, obs, t);
    LevelDistribution(a, a[0]);
    if t == |obs| - 1 {
      EvenShare(a, b, 1.0);
    } else {
      BetaPositive(m, support, obs, t);
      BetaFlat(m, obs, t);
      hide Beta;
      LevelDistribution(b, b[0]);
      EvenShare(a, b, b[0]);
    }
  }

  lemma EvenShare(a: seq<real>, b: seq<real>, y: real)
    requires |a| == |b| > 0 && Level(a, LastShare(|a|)) && Level(b, y) && (y == 1.0 || y == LastShare(|a|))
    ensures Level(GammaOf(a, b), if y == 1.0 then LastShare(|a|) else EarlyShare(|a|))
  {
    hide Dot;
    var x := LastShare(|a|);
    DotLevel(a, b, x, y);
    QuotientPositive(1.0, |a| as real);
    Cancel(|a| as real, x, y);
    assert Dot(a, b) == y;
    forall i | 0 <= i < |a| ensures GammaOf(a, b)[i] == x * y / MaxReal(y, MIN_GAMMA_MASS) {
      assert Times(a, b)[i] == x * y;
    }
    if y != 1.0 { assert x * y / MaxReal(y, MIN_GAMMA_MASS) == EarlyShare(|a|); }
  }

  lemma {:induction false} EmissionMassCounts(m: Model, support: set<nat>, obs: seq<nat>, t: nat, i: nat, o: nat)
    requires Proper(m, support) && Blind(m) && Seen(m.Symbols(), obs) <= support
    requires t < |obs| && i < m.States() && o < m.Symbols()
    ensures EmissionMass(m, obs, t, i, o) == Occurrences(m.Symbols(), obs[..t], o) as real * EarlyShare(m.States())
  {
    hide Gamma, Proper, Blind, Seen, Model.Shaped, EarlyShare, LastShare;
    InitialPositive(m, support);
    if t > 0 {
      EmissionMassCounts(m, support, obs, t - 1, i, o);
      GammaEven(m, support, obs, t - 1);
      assert obs[..t][..t - 1] == obs[..t - 1];
      OneMore(Occurrences(m.Symbols(), obs[..t - 1], o), EarlyShare(m.States()));
    }
  }

  lemma OneMore(c: nat, e: real)
    ensures (c + 1) as real * e == c as real * e + e
  {}

  lemma {:induction false} EmissionMassTotal(m: Model, support: set<nat>, obs: seq<nat>, t: nat, i: nat)
    requires Proper(m, support) && Blind(m) && Seen(m.Symbols(), obs) <= support
    requires obs != [] && t <= |obs| && i < m.States()
    ensures Sum(EmissionMasses(m, obs, t, i))
            == if t < |obs| then t as real * EarlyShare(m.States())
               else (t - 1) as real * EarlyShare(m.States()) + LastShare(m.States())
    decreases t
  {
    hide Gamma, EmissionMass, Proper, Blind, Seen, Sum, EarlyShare, LastShare;
    InitialPositive(m, support);
    if t == 0 {
      forall o | 0 <= o < m.Symbols() ensures EmissionMass(m, obs, 0, i, o) == 0.0 {
        EmissionMassStart(m, obs, i, o);
      }
      SumLevel(EmissionMasses(m, obs, 0, i), 0.0);
    } else {
      EmissionMassTotal(m, support, obs, t - 1, i);
      GammaEven(m, support, obs, t - 1);
      EmissionNext(m, obs, t - 1, i);
      SumRaised(EmissionMasses(m, obs, t - 1, i), m.Symbol(obs[t - 1]), Gamma(m, obs, t - 1)[i]);
      OneMore(t - 1, EarlyShare(m.States()));
    }
  }

  lemma EmissionMassStart(m: Model, obs: seq<nat>, i: nat, o: nat)
    requires m.Shaped() && i < m.States() && o < m.Symbols()
    ensures EmissionMass(m, obs, 0, i, o) == 0.0
  {}

  /** A weighted share of the whole is the plain share exactly when the weights agree or one symbol is all there is. */
  lemma WeightedShare(c: real, last: real, n: real, e: real, x: real)
    requires n > 0.0 && e > 0.0 && x > 0.0
    ensures n * e + x > 0.0
    ensures (c * e + last * x) / (n * e + x) == (c + last) / (n + 1.0) <==> e == x || c == last * n
  {
    ProductPositive(n, e);
    var d, k := n * e + x, n + 1.0;
    var p, q := c * e + last * x, c + last;
    var u, v := p / d, q / k;
    assert u * d == p && v * k == q;
    ProductPositive(d, k);
    assert p * k - q * d == (c - last * n) * (e - x);
    assert p * k - q * d == (u - v) * (d * k);
    if u == v {
      assert (c - last * n) * (e - x) == 0.0;
    } else if e == x || c == last * n {
      assert (u - v) * (d * k) == 0.0;
      if u > v { ProductPositive(u - v, d * k); } else { ProductPositive(v - u, d * k); }
    }
  }

  /** Every state emits every symbol as often as it was seen. */
  predicate Frequencies(r: Model, obs: seq<nat>) {
    && r.Shaped() && obs != []
    && (forall i, o :: 0 <= i < |r.emission| && 0 <= o < |r.emission[i]| ==>
          r.emission[i][o] == Occurrences(r.Symbols(), obs, o) as real / |obs| as real)
  }

  /** Every state and every step equally likely. */
  predicate EvenHanded(r: Model) {
    && r.Shaped()
    && Level(r.initial, 1.0 / r.States() as real)
    && (forall i :: 0 <= i < |r.transition| ==> Level(r.transition[i], 1.0 / r.States() as real))
  }

  /** One symbol throughout. */
  predicate Monotonous(n: nat, obs: seq<nat>)
    requires n > 0
  {
    forall t :: 0 <= t < |obs| ==> Capped(n, obs[t]) == Capped(n, obs[|obs| - 1])
  }

  lemma {:induction false} OccurrencesBound(n: nat, obs: seq<nat>, o: nat)
    requires n > 0
    ensures Occurrences(n, obs, o) <= |obs|
    ensures Occurrences(n, obs, o) == |obs| <==> forall t :: 0 <= t < |obs| ==> Capped(n, obs[t]) == o
  {
    hide Capped;
    if obs != [] {
      var m := |obs| - 1;
      OccurrencesBound(n, obs[..m], o);
      assert forall t :: 0 <= t < m ==> obs[..m][t] == obs[t];
    }
  }

  lemma {:induction false} NeverOccurs(n: nat, obs: seq<nat>, o: nat)
    requires n > 0 && forall t :: 0 <= t < |obs| ==> Capped(n, obs[t]) != o
    ensures Occurrences(n, obs, o) == 0
  {
    if obs != [] { NeverOccurs(n, obs[..|obs| - 1], o); }
  }

  lemma EmissionShare(m: Model, support: set<nat>, obs: seq<nat>, i: nat, o: nat)
    requires Proper(m, support) && Blind(m) && |obs| >= 2 && Seen(m.Symbols(), obs) <= support
    requires i < m.States() && o < m.Symbols()
    ensures var n, before := m.Symbols(), obs[..|obs| - 1];
            var c, last := Occurrences(n, before, o) as real, if Capped(n, obs[|obs| - 1]) == o then 1.0 else 0.0;
            var total := (|obs| - 1) as real * EarlyShare(m.States()) + LastShare(m.States());
            total > 0.0
            && Normalized(EmissionMasses(m, obs, |obs|, i))[o]
               == (c * EarlyShare(m.States()) + last * LastShare(m.States())) / total
  {
    hide Proper, Blind, Seen, EmissionMass, EmissionMasses, Gamma, Occurrences, Sum, Normalized, EarlyShare, LastShare,
         Capped, Model.Shaped;
    InitialPositive(m, support);
    SharesPositive(m.States());
    ProductPositive((|obs| - 1) as real, EarlyShare(m.States()));
    EmissionMassCounts(m, support, obs, |obs| - 1, i, o);
    EmissionMassTotal(m, support, obs, |obs|, i);
    GammaEven(m, support, obs, |obs| - 1);
    LastEmission(m, obs, i, o);
    NormalizedAt(EmissionMasses(m, obs, |obs|, i), o);
  }

  lemma LastEmission(m: Model, obs: seq<nat>, i: nat, o: nat)
    requires m.Shaped() && obs != [] && i < m.States() && o < m.Symbols()
    ensures EmissionMass(m, obs, |obs|, i, o)
            == EmissionMass(m, obs, |obs| - 1, i, o)
               + (if Capped(m.Symbols(), obs[|obs| - 1]) == o then Gamma(m, obs, |obs| - 1)[i] else 0.0)
  {
    hide Gamma;
  }

  /** The symbol occurs before the last moment always or never, as it does at the last. */
  predicate FollowsLast(n: nat, obs: seq<nat>, o: nat)
    requires n > 0 && obs != []
  {
    Occurrences(n, obs[..|obs| - 1], o) == if Capped(n, obs[|obs| - 1]) == o then |obs| - 1 else 0
  }

  lemma EmissionFrequency(m: Model, support: set<nat>, obs: seq<nat>, i: nat, o: nat)
    requires Proper(m, support) && Blind(m) && |obs| >= 2 && Seen(m.Symbols(), obs) <= support
    requires i < m.States() && o < m.Symbols()
    ensures Normalized(EmissionMasses(m, obs, |obs|, i))[o] == Occurrences(m.Symbols(), obs, o) as real / |obs| as real
            <==> m.States() <= 1000000000000 || FollowsLast(m.Symbols(), obs, o)
  {
    hide Proper, Blind, Seen, EmissionMasses, EarlyShare, LastShare, Normalized, Occurrences, Capped, Model.Shaped;
    InitialPositive(m, support);
    var n, before := m.Symbols(), obs[..|obs| - 1];
    var c, last := Occurrences(n, before, o) as real, if Capped(n, obs[|obs| - 1]) == o then 1.0 else 0.0;
    EmissionShare(m, support, obs, i, o);
    SharesPositive(m.States());
    SharesAgree(m.States());
    OccurrencesNext(n, obs, o);
    WeightedShare(c, last, (|obs| - 1) as real, EarlyShare(m.States()), LastShare(m.States()));
  }

  lemma OccurrencesNext(n: nat, obs: seq<nat>, o: nat)
    requires n > 0 && obs != []
    ensures Occurrences(n, obs, o) as real
            == Occurrences(n, obs[..|obs| - 1], o) as real + (if Capped(n, obs[|obs| - 1]) == o then 1.0 else 0.0)
  {}

  /** One iteration from like states leaves frequencies exactly when the states are not too many, or there is
      only one symbol. */
  lemma ReestimatedFrequencies(m: Model, support: set<nat>, obs: seq<nat>)
    requires Proper(m, support) && Blind(m) && |obs| >= 2 && Seen(m.Symbols(), obs) <= support
    ensures EvenHanded(Reestimated(m, obs))
    ensures Frequencies(Reestimated(m, obs), obs) <==> m.States() <= 1000000000000 || Monotonous(m.Symbols(), obs)
  {
    hide Reestimated, Proper, Blind, Seen, Monotonous, Frequencies, EvenHanded;
    InitialPositive(m, support);
    ReestimatedProper(m, support, obs);
    ReestimatedBlind(m, obs);
    BlindLevels(Reestimated(m, obs), Seen(m.Symbols(), obs));
    FrequenciesByRow(m, support, obs);
    OneSymbol(m.Symbols(), obs);
    var last := Capped(m.Symbols(), obs[|obs| - 1]);
    assert last < m.Symbols();
    hide FollowsLast;
  }

  lemma FrequenciesByRow(m: Model, support: set<nat>, obs: seq<nat>)
    requires Proper(m, support) && Blind(m) && |obs| >= 2 && Seen(m.Symbols(), obs) <= support
    ensures Frequencies(Reestimated(m, obs), obs)
            <==> forall o: nat :: o < m.Symbols() ==> m.States() <= 1000000000000 || FollowsLast(m.Symbols(), obs, o)
  {
    var r, n := Reestimated(m, obs), m.Symbols();
    hide Proper, Blind, Seen, EmissionMasses, StepMasses, Gamma, Normalized, Occurrences, FollowsLast, Capped;
    forall i, o | 0 <= i < m.States() && 0 <= o < n
      ensures r.emission[i][o] == Occurrences(n, obs, o) as real / |obs| as real
              <==> m.States() <= 1000000000000 || FollowsLast(n, obs, o)
    {
      EmissionFrequency(m, support, obs, i, o);
    }
    hide Reestimated;
    assert |r.emission| > 0 && forall i :: 0 <= i < |r.emission| ==> |r.emission[i]| == n;
  }

  lemma OneSymbol(n: nat, obs: seq<nat>)
    requires n > 0 && obs != []
    ensures Monotonous(n, obs) <==> FollowsLast(n, obs, Capped(n, obs[|obs| - 1]))
    ensures Monotonous(n, obs) ==> forall o: nat :: FollowsLast(n, obs, o)
  {
    hide Occurrences, Capped;
    var last := |obs| - 1;
    OccurrencesBound(n, obs[..last], Capped(n, obs[last]));
    assert forall t :: 0 <= t < last ==> obs[..last][t] == obs[t];
    if Monotonous(n, obs) {
      forall o: nat | o != Capped(n, obs[last]) ensures Occurrences(n, obs[..last], o) == 0 {
        NeverOccurs(n, obs[..last], o);
      }
    }
  }

  lemma BlindLevels(r: Model, support: set<nat>)
    requires Proper(r, support) && Blind(r)
    ensures EvenHanded(r)
  {
    LevelDistribution(r.initial, r.initial[0]);
    forall i | 0 <= i < |r.transition| ensures Level(r.transition[i], 1.0 / r.States() as real) {
      LevelDistribution(r.transition[i], r.transition[0][0]);
    }
  }

  lemma {:induction false} IteratedFrequencies(m: Model, support: set<nat>, obs: seq<nat>, n: nat)
    requires Proper(m, support) && Blind(m) && |obs| >= 2 && Seen(m.Symbols(), obs) <= support && n > 0
    ensures EvenHanded(Iterated(m, obs, n))
    ensures Frequencies(Iterated(m, obs, n), obs) <==> m.States() <= 1000000000000 || Monotonous(m.Symbols(), obs)
    decreases n
  {
    hide Reestimated, Proper, Blind, Seen, Frequencies, Monotonous, EvenHanded;
    InitialPositive(m, support);
    if n == 1 {
      ReestimatedFrequencies(m, support, obs);
    } else {
      ReestimatedProper(m, support, obs);
      ReestimatedBlind(m, obs);
      IteratedFrequencies(Reestimated(m, obs), Seen(m.Symbols(), obs), obs, n - 1);
    }
  }

  /** All a new model learns from a sequence is its symbols: every state and every step stays equally likely, and
      every state emits each symbol as often as it occurred, unless there are more than 10^12 states and more
      than one symbol. */
  lemma NewModelLearnsFrequencies(states: nat, symbols: nat, obs: seq<nat>, rounds: nat, tol: real)
    requires rounds > 0 && |obs| >= 2
    ensures var r := TrainedOn(NewModel(states, symbols), obs, rounds, tol);
            && EvenHanded(r)
            && (Frequencies(r, obs) <==> states <= 1000000000000 || Monotonous(Arithmetic.Max(symbols, 1), obs))
  {
    hide Trained, Proper, Blind, Frequencies, NewModel, Seen, AllSymbols, Iterated, Monotonous, EvenHanded;
    SeenIsSymbols(Arithmetic.Max(symbols, 1), obs);
    var m, support := NewModel(states, symbols), AllSymbols(Arithmetic.Max(symbols, 1));
    NewIsProper(states, symbols);
    NewIsBlind(states, symbols);
    TrainedRounds(m, support, obs, rounds, tol);
    IteratedFrequencies(m, support, obs, if tol > 0.0 && rounds > 2 then 2 else rounds);
  }
}
