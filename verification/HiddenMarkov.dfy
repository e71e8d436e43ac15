/** The hidden Markov model of market states: forward pass, Baum-Welch re-estimation and belief filter, over
    exact reals. The functions say what one pass computes; the class runs the passes as loops. */
module HiddenMarkov {
  import Arithmetic
  import opened Reals
  import opened Vectors

  datatype Model = Model(initial: seq<real>, transition: seq<seq<real>>, emission: seq<seq<real>>) {
    predicate Shaped() {
      && 0 < |transition| == |initial| == |emission|
      && |emission[0]| > 0
      && (forall i :: 0 <= i < |transition| ==> |transition[i]| == |transition|)
      && (forall i :: 0 <= i < |emission| ==> |emission[i]| == |emission[0]|)
    }

    function States(): (n: nat)
      requires Shaped()
      ensures n > 0
    {
      |transition|
    }

    function Symbols(): (n: nat)
      requires Shaped()
      ensures n > 0
    {
      |emission[0]|
    }

    /** Observations past the last symbol count as the last. */
    function Symbol(observation: nat): (o: nat)
      requires Shaped()
      ensures o < Symbols()
    {
      if observation < Symbols() - 1 then observation else Symbols() - 1
    }

    /** How likely each state emits the observation. */
    function Likelihoods(observation: nat): (v: seq<real>)
      requires Shaped()
      ensures |v| == States()
      ensures forall i :: 0 <= i < States() ==> v[i] == emission[i][Symbol(observation)]
    {
      seq(States(), i requires 0 <= i < States() => emission[i][Symbol(observation)])
    }

    function Column(j: nat): (v: seq<real>)
      requires Shaped() && j < States()
      ensures |v| == States()
      ensures forall i :: 0 <= i < States() ==> v[i] == transition[i][j]
    {
      seq(States(), i requires 0 <= i < States() => transition[i][j])
    }
  }

  const MIN_GAMMA_MASS: real := 0.000000000001

  function Times(a: seq<real>, b: seq<real>): (v: seq<real>)
    requires |a| == |b|
    ensures |v| == |a| && forall i :: 0 <= i < |a| ==> v[i] == a[i] * b[i]
  {
    seq(|a|, i requires 0 <= i < |a| => a[i] * b[i])
  }

  /** The mass each state receives in one step from a belief. */
  function Pushed(m: Model, belief: seq<real>): (v: seq<real>)
    requires m.Shaped() && |belief| == m.States()
    ensures |v| == m.States()
    ensures forall j :: 0 <= j < m.States() ==> v[j] == Dot(belief, m.Column(j))
  {
    seq(m.States(), j requires 0 <= j < m.States() => Dot(belief, m.Column(j)))
  }

  /** What each state expects of a value one step ahead. */
  function Pulled(m: Model, value: seq<real>): (v: seq<real>)
    requires m.Shaped() && |value| == m.States()
    ensures |v| == m.States()
    ensures forall i :: 0 <= i < m.States() ==> v[i] == Dot(m.transition[i], value)
  {
    seq(m.States(), i requires 0 <= i < m.States() => Dot(m.transition[i], value))
  }

  function Alpha(m: Model, obs: seq<nat>, t: nat): (v: seq<real>)
    requires m.Shaped() && t < |obs|
    ensures |v| == m.States()
  {
    var prior := if t == 0 then m.initial else Pushed(m, Alpha(m, obs, t - 1));
    Normalized(Times(prior, m.Likelihoods(obs[t])))
  }

  function Beta(m: Model, obs: seq<nat>, t: nat): (v: seq<real>)
    requires m.Shaped() && t < |obs|
    ensures |v| == m.States()
    decreases |obs| - t
  {
    if t == |obs| - 1 then Ones(m.States())
    else Normalized(Pulled(m, Times(m.Likelihoods(obs[t + 1]), Beta(m, obs, t + 1))))
  }

  function Ones(n: nat): (v: seq<real>)
    ensures |v| == n && forall i :: 0 <= i < n ==> v[i] == 1.0
  {
    seq(n, i => 1.0)
  }

  /** The state probabilities at time t; all zero where alpha and beta leave no mass in common. */
  function Gamma(m: Model, obs: seq<nat>, t: nat): (v: seq<real>)
    requires m.Shaped() && t < |obs|
    ensures |v| == m.States()
  {
    GammaOf(Alpha(m, obs, t), Beta(m, obs, t))
  }

  function GammaOf(alpha: seq<real>, beta: seq<real>): (v: seq<real>)
    requires |alpha| == |beta|
    ensures |v| == |alpha|
  {
    Divided(Times(alpha, beta), MaxReal(Dot(alpha, beta), MIN_GAMMA_MASS))
  }

  /** The expected uses of the step i to j over the first t steps, as the re-estimation weighs them. */
  function StepMass(m: Model, obs: seq<nat>, t: nat, i: nat, j: nat): real
    requires m.Shaped() && t < |obs| && i < m.States() && j < m.States()
  {
    if t == 0 then 0.0
    else StepMass(m, obs, t - 1, i, j) + Gamma(m, obs, t - 1)[i] * m.transition[i][j] * m.Likelihoods(obs[t])[j]
  }

  /** The time state i is expected to have emitted symbol o over the first t observations. */
  function EmissionMass(m: Model, obs: seq<nat>, t: nat, i: nat, o: nat): real
    requires m.Shaped() && t <= |obs| && i < m.States() && o < m.Symbols()
  {
    if t == 0 then 0.0
    else EmissionMass(m, obs, t - 1, i, o) + (if m.Symbol(obs[t - 1]) == o then Gamma(m, obs, t - 1)[i] else 0.0)
  }

  function StepMasses(m: Model, obs: seq<nat>, t: nat, i: nat): (v: seq<real>)
    requires m.Shaped() && t < |obs| && i < m.States()
    ensures |v| == m.States() && forall j :: 0 <= j < m.States() ==> v[j] == StepMass(m, obs, t, i, j)
  {
    seq(m.States(), j requires 0 <= j < m.States() => StepMass(m, obs, t, i, j))
  }

  function EmissionMasses(m: Model, obs: seq<nat>, t: nat, i: nat): (v: seq<real>)
    requires m.Shaped() && t <= |obs| && i < m.States()
    ensures |v| == m.Symbols() && forall o :: 0 <= o < m.Symbols() ==> v[o] == EmissionMass(m, obs, t, i, o)
  {
    seq(m.Symbols(), o requires 0 <= o < m.Symbols() => EmissionMass(m, obs, t, i, o))
  }

  /** One Baum-Welch iteration. */
  function Reestimated(m: Model, obs: seq<nat>): (r: Model)
    requires m.Shaped() && |obs| >= 2
    ensures r.Shaped() && r.States() == m.States() && r.Symbols() == m.Symbols()
    ensures forall i :: 0 <= i < m.States() ==> r.transition[i] == Normalized(StepMasses(m, obs, |obs| - 1, i))
    ensures forall i :: 0 <= i < m.States() ==> r.emission[i] == Normalized(EmissionMasses(m, obs, |obs|, i))
  {
    hide StepMasses, EmissionMasses, Normalized, Gamma;
    Model(
      Normalized(Gamma(m, obs, 0)),
      seq(m.States(), i requires 0 <= i < m.States() => Normalized(StepMasses(m, obs, |obs| - 1, i))),
      seq(m.States(), i requires 0 <= i < m.States() => Normalized(EmissionMasses(m, obs, |obs|, i))))
  }

  function Forward(m: Model, obs: seq<nat>): real
    requires m.Shaped()
  {
    if obs == [] then 1.0 else Clamp(Sum(Alpha(m, obs, |obs| - 1)), 0.0, 1.0)
  }

  /** Up to `rounds` iterations, stopping once two likelihoods in a row differ by less than `tol`. */
  function Trained(m: Model, obs: seq<nat>, rounds: nat, tol: real, previous: seq<real>): (r: Model)
    requires m.Shaped() && |obs| >= 2
    ensures r.Shaped() && r.States() == m.States() && r.Symbols() == m.Symbols()
    decreases rounds
  {
    if rounds == 0 then m
    else
      var r := Reestimated(m, obs);
      var likelihood := Forward(r, obs);
      if Settled(likelihood, previous, tol) then r else Trained(r, obs, rounds - 1, tol, [likelihood])
  }

  /** `previous` holds the last likelihood, and nothing in the first round. */
  predicate Settled(likelihood: real, previous: seq<real>, tol: real) {
    previous != [] && AbsReal(likelihood - previous[0]) < tol
  }

  function AbsReal(x: real): real { if x < 0.0 then -x else x }

  function NewModel(states: nat, symbols: nat): (m: Model)
    ensures m.Shaped() && m.States() == Arithmetic.Max(states, 1) && m.Symbols() == Arithmetic.Max(symbols, 1)
  {
    var s, o := Arithmetic.Max(states, 1), Arithmetic.Max(symbols, 1);
    Model(Even(s), seq(s, i => Even(s)), seq(s, i => Even(o)))
  }

  function Even(n: nat): (v: seq<real>)
    requires n > 0
    ensures |v| == n && Level(v, 1.0 / n as real)
  {
    seq(n, i => 1.0 / n as real)
  }

  /** The belief after one observation. */
  function Filtered(m: Model, belief: seq<real>, observation: nat): (v: seq<real>)
    requires m.Shaped() && |belief| == m.States()
    ensures |v| == m.States()
  {
    Normalized(Times(Pushed(m, belief), m.Likelihoods(observation)))
  }

  /** State i's counts over the first t observations; the last observation starts no step. */
  predicate Counted(m: Model, obs: seq<nat>, t: nat, i: nat, steps: seq<real>, emissions: seq<real>)
    requires m.Shaped() && obs != [] && t <= |obs| && i < m.States()
  {
    steps == StepMasses(m, obs, Arithmetic.Min(t, |obs| - 1), i) && emissions == EmissionMasses(m, obs, t, i)
  }

  // ---------------------------------------------------------------- one step of each recursion

  lemma AlphaFirst(m: Model, obs: seq<nat>)
    requires m.Shaped() && obs != []
    ensures Alpha(m, obs, 0) == Normalized(Times(m.initial, m.Likelihoods(obs[0])))
  {}

  lemma AlphaNext(m: Model, obs: seq<nat>, t: nat)
    requires m.Shaped() && 0 < t < |obs|
    ensures Alpha(m, obs, t) == Normalized(Times(Pushed(m, Alpha(m, obs, t - 1)), m.Likelihoods(obs[t])))
  {}

  lemma EmissionNext(m: Model, obs: seq<nat>, t: nat, i: nat)
    requires m.Shaped() && t < |obs| && i < m.States()
    ensures var row, o := EmissionMasses(m, obs, t, i), m.Symbol(obs[t]);
            EmissionMasses(m, obs, t + 1, i) == row[o := row[o] + Gamma(m, obs, t)[i]]
  {
    hide Gamma, Model.Symbol;
  }

  lemma StepNext(m: Model, obs: seq<nat>, t: nat, i: nat, row: seq<real>)
    requires m.Shaped() && t + 1 < |obs| && i < m.States() && |row| == m.States()
    requires forall j :: 0 <= j < |row| ==>
               row[j] == StepMasses(m, obs, t, i)[j]
                         + Gamma(m, obs, t)[i] * m.transition[i][j] * m.Likelihoods(obs[t + 1])[j]
    ensures row == StepMasses(m, obs, t + 1, i)
  {
    hide Gamma, Model.Likelihoods;
  }

  class HiddenMarkovModel {
    var transitionMatrix: seq<seq<real>>
    var emissionMatrix: seq<seq<real>>
    var initialDistribution: seq<real>
    var currentBelief: seq<real>

    function Params(): Model
      reads this
    {
      Model(initialDistribution, transitionMatrix, emissionMatrix)
    }

    predicate Valid()
      reads this
    {
      Params().Shaped() && |currentBelief| == Params().States()
    }

    constructor (numStates: nat, numObservations: nat)
      ensures Valid()
      ensures Params() == NewModel(numStates, numObservations) && currentBelief == Even(Arithmetic.Max(numStates, 1))
    {
      var states, observations := Arithmetic.Max(numStates, 1), Arithmetic.Max(numObservations, 1);
      transitionMatrix := seq(states, i => Even(states));
      emissionMatrix := seq(states, i => Even(observations));
      initialDistribution := Even(states);
      currentBelief := Even(states);
    }

    /** One forward row: the prior mass times the likelihoods, normalised. */
    method ForwardRow(prior: seq<real>, observation: nat) returns (row: seq<real>)
      requires Valid() && |prior| == Params().States()
      ensures row == Normalized(Times(prior, Params().Likelihoods(observation)))
    {
      hide Model.Symbol, Normalized;
      var obs := Params().Symbol(observation);
      ghost var products := Times(prior, Params().Likelihoods(observation));
      row := [];
      for i := 0 to |transitionMatrix|
        invariant |row| == i
        invariant forall k :: 0 <= k < i ==> row[k] == products[k]
      {
        assert emissionMatrix[i][obs] == Params().Likelihoods(observation)[i];
        row := row + [prior[i] * emissionMatrix[i][obs]];
      }
      assert row == products;
      row := Normalize(row);
    }

    method Push(belief: seq<real>) returns (row: seq<real>)
      requires Valid() && |belief| == Params().States()
      ensures row == Pushed(Params(), belief)
    {
      row := [];
      for j := 0 to |transitionMatrix|
        invariant |row| == j
        invariant forall k :: 0 <= k < j ==> row[k] == Dot(belief, Params().Column(k))
      {
        row := row + [Dot(belief, Params().Column(j))];
      }
    }

    /** The forward rows of every time step. */
    method ForwardRows(observations: seq<nat>) returns (alpha: seq<seq<real>>)
      requires Valid() && observations != []
      ensures |alpha| == |observations|
      ensures forall t :: 0 <= t < |alpha| ==> alpha[t] == Alpha(Params(), observations, t)
    {
      hide Alpha;
      hide Normalized, Times, Pushed, Model.Likelihoods;
      AlphaFirst(Params(), observations);
      var first := ForwardRow(initialDistribution, observations[0]);
      alpha := [first];
      for t := 1 to |observations|
        invariant |alpha| == t
        invariant forall u :: 0 <= u < t ==> alpha[u] == Alpha(Params(), observations, u)
      {
        AlphaNext(Params(), observations, t);
        var prior := Push(alpha[t - 1]);
        var row := ForwardRow(prior, observations[t]);
        alpha := alpha + [row];
      }
    }

    method BackwardRow(observation: nat, next: seq<real>) returns (row: seq<real>)
      requires Valid() && |next| == Params().States()
      ensures row == Normalized(Pulled(Params(), Times(Params().Likelihoods(observation), next)))
    {
      var ahead := Times(Params().Likelihoods(observation), next);
      row := [];
      for i := 0 to |transitionMatrix|
        invariant |row| == i
        invariant forall k :: 0 <= k < i ==> row[k] == Dot(transitionMatrix[k], ahead)
      {
        row := row + [Dot(transitionMatrix[i], ahead)];
      }
      assert row == Pulled(Params(), ahead);
      row := Normalize(row);
    }

    /** The backward rows, filled from the last time step to the first. */
    method BackwardRows(observations: seq<nat>) returns (beta: seq<seq<real>>)
      requires Valid() && observations != []
      ensures |beta| == |observations|
      ensures forall t :: 0 <= t < |beta| ==> beta[t] == Beta(Params(), observations, t)
    {
      hide Normalized, Times, Pulled, Model.Likelihoods, Ones;
      var states, last := |transitionMatrix|, |observations| - 1;
      beta := seq(|observations|, t => Ones(states));
      for t := last downto 0
        invariant |beta| == |observations|
        invariant forall u :: t <= u < |beta| ==> beta[u] == Beta(Params(), observations, u)
      {
        var row := BackwardRow(observations[t + 1], beta[t + 1]);
        beta := beta[t := row];
      }
    }

    method ForwardAlgorithm(observations: seq<nat>) returns (likelihood: real)
      requires Valid()
      ensures likelihood == Forward(Params(), observations)
    {
      if observations == [] {
        return 1.0;
      }
      var alpha := ForwardRows(observations);
      likelihood := Clamp(Sum(alpha[|observations| - 1]), 0.0, 1.0);
    }

    /** Adds one time step's expected uses of the steps out of state i. */
    method AddSteps(row: seq<real>, gamma: real, i: nat, next: nat) returns (added: seq<real>)
      requires Valid() && i < Params().States() && |row| == Params().States()
      ensures |added| == |row|
      ensures forall j :: 0 <= j < |row| ==>
                added[j] == row[j] + gamma * transitionMatrix[i][j] * Params().Likelihoods(next)[j]
    {
      var obs := Params().Symbol(next);
      added := row;
      for j := 0 to |transitionMatrix|
        invariant |added| == |row|
        invariant forall k :: 0 <= k < j ==>
                    added[k] == row[k] + gamma * transitionMatrix[i][k] * emissionMatrix[k][obs]
        invariant forall k :: j <= k < |row| ==> added[k] == row[k]
      {
        added := added[j := added[j] + gamma * transitionMatrix[i][j] * emissionMatrix[j][obs]];
      }
    }

    /** Adds state i's probability at time t to its counts. */
    method AddState(observations: seq<nat>, t: nat, i: nat, gamma: real, steps: seq<real>, emissions: seq<real>)
      returns (newSteps: seq<real>, newEmissions: seq<real>)
      requires Valid() && t < |observations| && i < Params().States()
      requires gamma == Gamma(Params(), observations, t)[i]
      requires Counted(Params(), observations, t, i, steps, emissions)
      ensures Counted(Params(), observations, t + 1, i, newSteps, newEmissions)
    {
      hide Gamma, EmissionMasses, StepMasses, Model.Symbol, Model.Likelihoods;
      ghost var m := Params();
      var obs := Params().Symbol(observations[t]);
      EmissionNext(m, observations, t, i);
      newEmissions := emissions[obs := emissions[obs] + gamma];
      newSteps := steps;
      if t + 1 < |observations| {
        newSteps := AddSteps(steps, gamma, i, observations[t + 1]);
        StepNext(m, observations, t, i, newSteps);
      }
    }

    /** Adds the state probabilities at time t to the counts, state by state. */
    method AddTime(observations: seq<nat>, t: nat, alpha: seq<real>, beta: seq<real>, steps: seq<seq<real>>,
                   emissions: seq<seq<real>>, initial: seq<real>)
      returns (newSteps: seq<seq<real>>, newEmissions: seq<seq<real>>, newInitial: seq<real>)
      requires Valid() && t < |observations|
      requires alpha == Alpha(Params(), observations, t) && beta == Beta(Params(), observations, t)
      requires |steps| == |emissions| == |initial| == Params().States()
      requires forall i :: 0 <= i < |steps| ==> Counted(Params(), observations, t, i, steps[i], emissions[i])
      ensures |newSteps| == |newEmissions| == |newInitial| == Params().States()
      ensures newInitial == if t == 0 then Gamma(Params(), observations, 0) else initial
      ensures forall i :: 0 <= i < |newSteps| ==>
                Counted(Params(), observations, t + 1, i, newSteps[i], newEmissions[i])
    {
      hide Alpha, Beta, Counted, Dot;
      ghost var m := Params();
      var mass := MaxReal(Dot(alpha, beta), MIN_GAMMA_MASS);
      newSteps, newEmissions, newInitial := steps, emissions, initial;
      for i := 0 to |transitionMatrix|
        invariant |newSteps| == |newEmissions| == |newInitial| == |steps|
        invariant t != 0 ==> newInitial == initial
        invariant t == 0 ==> forall k :: 0 <= k < i ==> newInitial[k] == Gamma(m, observations, 0)[k]
        invariant forall k :: 0 <= k < i ==> Counted(m, observations, t + 1, k, newSteps[k], newEmissions[k])
        invariant forall k :: i <= k < |steps| ==> newSteps[k] == steps[k] && newEmissions[k] == emissions[k]
      {
        var gamma := alpha[i] * beta[i] / mass;
        assert gamma == Gamma(m, observations, t)[i];
        var stepRow, emissionRow := AddState(observations, t, i, gamma, newSteps[i], newEmissions[i]);
        if t == 0 {
          newInitial := newInitial[i := gamma];
        }
        newSteps, newEmissions := newSteps[i := stepRow], newEmissions[i := emissionRow];
      }
    }

    /** The expected counts of every step and emission, accumulated over time. */
    method Accumulate(observations: seq<nat>, alpha: seq<seq<real>>, beta: seq<seq<real>>)
      returns (steps: seq<seq<real>>, emissions: seq<seq<real>>, initial: seq<real>)
      requires Valid() && |observations| >= 2 && |alpha| == |beta| == |observations|
      requires forall t :: 0 <= t < |alpha| ==> alpha[t] == Alpha(Params(), observations, t)
      requires forall t :: 0 <= t < |beta| ==> beta[t] == Beta(Params(), observations, t)
      ensures |steps| == |emissions| == Params().States() && initial == Gamma(Params(), observations, 0)
      ensures forall i :: 0 <= i < |steps| ==>
                Counted(Params(), observations, |observations|, i, steps[i], emissions[i])
    {
      hide Alpha, Beta, Gamma;
      var states, symbols := |transitionMatrix|, |emissionMatrix[0]|;
      ghost var m := Params();
      steps := seq(states, i => seq(states, j => 0.0));
      emissions := seq(states, i => seq(symbols, o => 0.0));
      initial := seq(states, i => 0.0);
      assert forall i :: 0 <= i < states ==> Counted(m, observations, 0, i, steps[i], emissions[i]);
      hide Counted;
      for t := 0 to |observations|
        invariant |steps| == |emissions| == |initial| == states
        invariant t > 0 ==> initial == Gamma(m, observations, 0)
        invariant forall i :: 0 <= i < states ==> Counted(m, observations, t, i, steps[i], emissions[i])
      {
        steps, emissions, initial := AddTime(observations, t, alpha[t], beta[t], steps, emissions, initial);
      }
    }

    /** One iteration's new parameters. */
    method Reestimate(observations: seq<nat>)
      requires Valid() && |observations| >= 2
      modifies this
      ensures Valid() && Params() == Reestimated(old(Params()), observations) && currentBelief == old(currentBelief)
    {
      hide StepMasses, EmissionMasses, Normalized, Gamma, Alpha, Beta;
      ghost var m := Params();
      var alpha := ForwardRows(observations);
      var beta := BackwardRows(observations);
      var newTransition, newEmission, newInitial := Accumulate(observations, alpha, beta);
      newTransition := NormalizeMatrixRows(newTransition);
      newEmission := NormalizeMatrixRows(newEmission);
      newInitial := Normalize(newInitial);
      transitionMatrix, emissionMatrix, initialDistribution := newTransition, newEmission, newInitial;
      ghost var r := Reestimated(m, observations);
      assert transitionMatrix == r.transition;
      assert emissionMatrix == r.emission;
    }

    static method NormalizeMatrixRows(matrix: seq<seq<real>>) returns (rows: seq<seq<real>>)
      ensures |rows| == |matrix| && forall i :: 0 <= i < |rows| ==> rows[i] == Normalized(matrix[i])
    {
      rows := matrix;
      for i := 0 to |matrix|
        invariant |rows| == |matrix|
        invariant forall k :: 0 <= k < i ==> rows[k] == Normalized(matrix[k])
        invariant forall k :: i <= k < |matrix| ==> rows[k] == matrix[k]
      {
        var row := Normalize(rows[i]);
        rows := rows[i := row];
      }
    }

    /** Trains on one observation sequence; shorter than two observations, nothing happens. */
    method BaumWelch(observations: seq<nat>, maxIter: nat, tol: real)
      requires Valid()
      modifies this
      ensures Valid() && currentBelief == old(currentBelief)
      ensures Params() == if |observations| < 2 then old(Params())
                          else Trained(old(Params()), observations, maxIter, tol, [])
    {
      hide Reestimated, Forward, Settled;
      if |observations| < 2 {
        return;
      }
      var previous: seq<real> := [];
      var left := maxIter;
      ghost var target := Trained(Params(), observations, maxIter, tol, []);
      while left > 0
        invariant Valid() && currentBelief == old(currentBelief)
        invariant Trained(Params(), observations, left, tol, previous) == target
      {
        Reestimate(observations);
        var likelihood := ForwardAlgorithm(observations);
        if Settled(likelihood, previous, tol) {
          return;
        }
        previous := [likelihood];
        left := left - 1;
      }
    }

    method Filter(observation: nat) returns (next: seq<real>)
      requires Valid()
      modifies this`currentBelief
      ensures Valid() && next == currentBelief == Filtered(Params(), old(currentBelief), observation)
    {
      var pushed := Push(currentBelief);
      next := ForwardRow(pushed, observation);
      currentBelief := next;
    }
  }
}
