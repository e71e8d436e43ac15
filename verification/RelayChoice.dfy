/** The choice among relays: one quote per relay, folded with a comparison that treats near-equal margins as ties. */
module RelayChoice {
  import Arithmetic
  import opened Options
  import opened Reals
  import opened AdaptiveGate

  function Margin(q: Quote): real { q.evUsd - q.thresholdUsd }

  function Distance(x: real, y: real): real { if x <= y then y - x else x - y }

  predicate IsBetter(candidate: Quote, current: Quote) {
    if candidate.shouldExecute != current.shouldExecute then candidate.shouldExecute
    else if Distance(Margin(candidate), Margin(current)) > EPSILON then Margin(candidate) > Margin(current)
    else if Distance(candidate.probability, current.probability) > EPSILON then
      candidate.probability > current.probability
    else candidate.builder < current.builder
  }

  function RelayQuote(p: Policy, i: Input, pressure: real, c: Curves): Quote
    requires p.maxImpactBps > 0
  {
    MakeQuote(p, i.(relayPressure := Some(pressure)), c)
  }

  ghost predicate Usable(readings: seq<Policy>, pressures: seq<real>) {
    && |readings| == Arithmetic.Max(|pressures|, 1)
    && forall k :: 0 <= k < |readings| ==> readings[k].maxImpactBps > 0
  }

  /** The quote of every relay, in rank order; without relays the one quote on the policy's own pressure.
      Every quote reads the clock again, so each has its own reading of the recent flows. */
  function Quotes(readings: seq<Policy>, i: Input, pressures: seq<real>, c: Curves): (quotes: seq<Quote>)
    requires Usable(readings, pressures)
    ensures |quotes| == |readings|
  {
    if pressures == [] then [MakeQuote(readings[0], i.(relayPressure := None), c)]
    else seq(|pressures|, k requires 0 <= k < |pressures| => RelayQuote(readings[k], i, pressures[k], c))
  }

  /** The index the left-to-right fold ends on. */
  function Chosen(quotes: seq<Quote>): (k: nat)
    requires quotes != []
    ensures k < |quotes|
  {
    var n := |quotes| - 1;
    if n == 0 then 0
    else
      var k := Chosen(quotes[..n]);
      if IsBetter(quotes[n], quotes[k]) then n else k
  }

  method QuoteForRelays(readings: seq<Policy>, i: Input, pressures: seq<real>, c: Curves)
    returns (best: Quote, selected: Option<nat>)
    requires Usable(readings, pressures)
    ensures var quotes := Quotes(readings, i, pressures, c);
            best == quotes[Chosen(quotes)] && selected == if pressures == [] then None else Some(Chosen(quotes))
  {
    hide MakeQuote;
    ghost var quotes := Quotes(readings, i, pressures, c);
    best := MakeQuote(readings[0], i.(relayPressure := if |pressures| > 0 then Some(pressures[0]) else None), c);
    selected := if |pressures| > 0 then Some(0) else None;
    var k := 1;
    while k < |pressures|
      invariant 1 <= k <= |quotes|
      invariant best == quotes[Chosen(quotes[..k])]
      invariant selected == if pressures == [] then None else Some(Chosen(quotes[..k]))
    {
      var candidate := RelayQuote(readings[k], i, pressures[k], c);
      assert quotes[..k + 1][..k] == quotes[..k];
      if IsBetter(candidate, best) {
        best := candidate;
        selected := Some(k);
      }
      k := k + 1;
    }
    assert quotes[..k] == quotes;
  }

  // ---------------------------------------------------------------- what the fold guarantees, whatever the quotes

  /** The chosen quote executes exactly when some quote does. */
  lemma {:induction false} ChosenExecutes(quotes: seq<Quote>)
    requires quotes != []
    ensures quotes[Chosen(quotes)].shouldExecute <==> exists k :: 0 <= k < |quotes| && quotes[k].shouldExecute
  {
    var n := |quotes| - 1;
    if n > 0 {
      ChosenExecutes(quotes[..n]);
      if k :| 0 <= k < |quotes| && quotes[k].shouldExecute {
        if k < n {
          assert quotes[..n][k].shouldExecute;
        }
      }
    }
  }

  /** Every tie given away costs at most EPSILON of margin, so the chosen margin is within n - 1 of them of
      the best in its class. */
  lemma {:induction false} ChosenMargin(quotes: seq<Quote>, k: nat)
    requires k < |quotes| && quotes[k].shouldExecute == quotes[Chosen(quotes)].shouldExecute
    ensures Margin(quotes[Chosen(quotes)]) >= Margin(quotes[k]) - (|quotes| - 1) as real * EPSILON
  {
    var n := |quotes| - 1;
    if n > 0 {
      var rest := quotes[..n];
      ChosenExecutes(rest);
      if k < n {
        assert rest[k] == quotes[k];
        if rest[k].shouldExecute == rest[Chosen(rest)].shouldExecute {
          ChosenMargin(rest, k);
        }
      }
    }
  }

  /** Margins of one class further apart than EPSILON. */
  predicate Separated(quotes: seq<Quote>) {
    forall j, k :: 0 <= j < k < |quotes| && quotes[j].shouldExecute == quotes[k].shouldExecute ==>
      Distance(Margin(quotes[j]), Margin(quotes[k])) > EPSILON
  }

  /** Without ties the choice is the best of its class exactly. */
  lemma {:induction false} ChosenIsBest(quotes: seq<Quote>, k: nat)
    requires k < |quotes| && Separated(quotes)
    requires quotes[k].shouldExecute == quotes[Chosen(quotes)].shouldExecute
    ensures Margin(quotes[Chosen(quotes)]) >= Margin(quotes[k])
  {
    var n := |quotes| - 1;
    if n > 0 {
      var rest := quotes[..n];
      ChosenExecutes(rest);
      assert quotes[Chosen(rest)] == rest[Chosen(rest)];
      if k < n {
        assert rest[k] == quotes[k];
        if rest[k].shouldExecute == rest[Chosen(rest)].shouldExecute {
          ChosenIsBest(rest, k);
        }
      }
    }
  }

  // ---------------------------------------------------------------- one reading of the flows: the least pressure wins

  /** The builder pressure a relay's quote reports. */
  function Reported(p: Policy, pressure: real): real {
    Unit(Weathered(pressure, HistoricalPressure(p.history), Confidence(p.history)))
  }

  lemma ReportedByQuote(p: Policy, i: Input, pressure: real, c: Curves)
    requires p.maxImpactBps > 0
    ensures RelayQuote(p, i, pressure, c).builder == Reported(p, pressure)
  {
    hide Competition, Risk, Blended, BaseProbability, CompetitionShare, RiskShare, Threshold, MarketRegime,
         Recalibrated, RegimeShift, Share, Gain, PathStress, GasPressure, SizePressure, LatencyPenalty, Usd, Weathered,
         Unit;
  }

  lemma ReportedRises(p: Policy, low: real, high: real)
    requires low <= high
    ensures Reported(p, low) <= Reported(p, high)
  {
    hide HistoricalPressure, Confidence, Weathered;
    ConfidenceUnit(p.history);
    WeatheredRises(low, high, HistoricalPressure(p.history), Confidence(p.history));
  }

  /** The quote depends on the relay only through the pressure it reports. */
  lemma SameReportSameQuote(p: Policy, i: Input, x: real, y: real, c: Curves)
    requires p.maxImpactBps > 0 && Reported(p, x) == Reported(p, y)
    ensures RelayQuote(p, i, x, c) == RelayQuote(p, i, y, c)
  {
    hide Decide, GasPressure, SizePressure, LatencyPenalty, Usd, HistoricalPressure, Confidence, Weathered, Unit;
  }

  lemma LowerPressureIsNoWorse(p: Policy, i: Input, low: real, high: real, c: Curves)
    requires SanePolicy(p) && c.Valid() && low <= high
    ensures var a, b := RelayQuote(p, i, low, c), RelayQuote(p, i, high, c);
            && (b.shouldExecute ==> a.shouldExecute) && Margin(b) <= Margin(a) && b.probability <= a.probability
  {
    hide MakeQuote, Curves.Valid, Rank;
    QuoteAntitone(p, i.(relayPressure := Some(low)), p, i.(relayPressure := Some(high)), c);
  }

  /** Under one reading the comparison of relay quotes is a plain order: the one that reports the lower builder
      pressure is better, and ties, near-ties and margins never say otherwise. */
  lemma BetterMeansLowerPressure(p: Policy, i: Input, x: real, y: real, c: Curves)
    requires SanePolicy(p) && c.Valid()
    ensures IsBetter(RelayQuote(p, i, x, c), RelayQuote(p, i, y, c))
            <==> RelayQuote(p, i, x, c).builder < RelayQuote(p, i, y, c).builder
  {
    hide RelayQuote, Curves.Valid, Reported, Margin;
    ReportedByQuote(p, i, x, c);
    ReportedByQuote(p, i, y, c);
    if Reported(p, x) == Reported(p, y) {
      SameReportSameQuote(p, i, x, y, c);
    } else if x <= y {
      ReportedRises(p, x, y);
      LowerPressureIsNoWorse(p, i, x, y, c);
    } else {
      ReportedRises(p, y, x);
      LowerPressureIsNoWorse(p, i, y, x, c);
    }
  }

  /** All quotes of one call under the same reading. */
  ghost predicate Still(readings: seq<Policy>, p: Policy) { forall k :: 0 <= k < |readings| ==> readings[k] == p }

  /** So under one reading the fold ends on the first relay that reports the least builder pressure. */
  lemma {:induction false} ChosenIsFirstLeast(readings: seq<Policy>, p: Policy, i: Input, pressures: seq<real>,
                                              c: Curves, n: nat, k: nat)
    requires SanePolicy(p) && c.Valid() && Usable(readings, pressures) && Still(readings, p)
    requires pressures != [] && k < n <= |pressures|
    ensures var quotes := Quotes(readings, i, pressures, c);
            var chosen := Chosen(quotes[..n]);
            && quotes[chosen].builder <= quotes[k].builder
            && (k < chosen ==> quotes[chosen].builder < quotes[k].builder)
  {
    hide RelayQuote, Curves.Valid, SanePolicy, IsBetter;
    var quotes := Quotes(readings, i, pressures, c);
    assert quotes[..n][..n - 1] == quotes[..n - 1];
    if n > 1 {
      var before := Chosen(quotes[..n - 1]);
      BetterMeansLowerPressure(p, i, pressures[n - 1], pressures[before], c);
      ChosenIsFirstLeast(readings, p, i, pressures, c, n - 1, if k < n - 1 then k else before);
    }
  }

  /** Asking every relay under one reading gives exactly the quote of the relay with the least pressure: nothing
      is lost to ties, and it executes exactly when any relay would. */
  lemma LeastPressureDecides(readings: seq<Policy>, p: Policy, i: Input, pressures: seq<real>, c: Curves, least: nat)
    requires SanePolicy(p) && c.Valid() && Usable(readings, pressures) && Still(readings, p)
    requires least < |pressures| && forall j :: 0 <= j < |pressures| ==> pressures[least] <= pressures[j]
    ensures var quotes := Quotes(readings, i, pressures, c);
            quotes[Chosen(quotes)] == RelayQuote(p, i, pressures[least], c)
  {
    hide RelayQuote, Curves.Valid, SanePolicy, IsBetter, Reported, Chosen;
    var quotes := Quotes(readings, i, pressures, c);
    var chosen := Chosen(quotes);
    assert quotes[..|pressures|] == quotes;
    ChosenIsFirstLeast(readings, p, i, pressures, c, |pressures|, least);
    ReportedByQuote(p, i, pressures[least], c);
    ReportedByQuote(p, i, pressures[chosen], c);
    ReportedRises(p, pressures[least], pressures[chosen]);
    SameReportSameQuote(p, i, pressures[chosen], pressures[least], c);
  }

  // ---------------------------------------------------------------- exactly when the comparison is transitive

  /** Ranked by class, margin or probability, before builder pressure is looked at. */
  predicate Outranks(a: Quote, b: Quote) {
    if a.shouldExecute != b.shouldExecute then a.shouldExecute
    else if Distance(Margin(a), Margin(b)) > EPSILON then Margin(a) > Margin(b)
    else Distance(a.probability, b.probability) > EPSILON && a.probability > b.probability
  }

  /** Whenever one quote outranks another, every third outranks the loser or is outranked by the winner: no chain
      of near-ties leads from one to the other. */
  predicate Settled(quotes: seq<Quote>) {
    forall i, j, k :: 0 <= i < |quotes| && 0 <= j < |quotes| && 0 <= k < |quotes| && Outranks(quotes[i], quotes[k]) ==>
      Outranks(quotes[i], quotes[j]) || Outranks(quotes[j], quotes[k])
  }

  predicate Transitive(quotes: seq<Quote>) {
    forall i, j, k :: 0 <= i < |quotes| && 0 <= j < |quotes| && 0 <= k < |quotes|
                      && IsBetter(quotes[i], quotes[j]) && IsBetter(quotes[j], quotes[k]) ==>
      IsBetter(quotes[i], quotes[k])
  }

  function WithPressures(quotes: seq<Quote>, builders: seq<real>): (r: seq<Quote>)
    requires |builders| == |quotes|
    ensures |r| == |quotes| && forall k :: 0 <= k < |r| ==> r[k] == quotes[k].(builder := builders[k])
  {
    seq(|quotes|, k requires 0 <= k < |quotes| => quotes[k].(builder := builders[k]))
  }

  lemma SettledIsTransitive(quotes: seq<Quote>, builders: seq<real>)
    requires Settled(quotes) && |builders| == |quotes|
    ensures Transitive(WithPressures(quotes, builders))
  {
    var r := WithPressures(quotes, builders);
    forall i, j | 0 <= i < |r| && 0 <= j < |r|
      ensures Outranks(r[i], r[j]) == Outranks(quotes[i], quotes[j])
      ensures IsBetter(r[i], r[j])
              <==> Outranks(quotes[i], quotes[j]) || (!Outranks(quotes[j], quotes[i]) && builders[i] < builders[j])
    {}
    hide IsBetter, Outranks, WithPressures;
  }

  lemma UnsettledIsNot(quotes: seq<Quote>, i: nat, j: nat, k: nat) returns (builders: seq<real>)
    requires i < |quotes| && j < |quotes| && k < |quotes| && Outranks(quotes[i], quotes[k])
    requires !Outranks(quotes[i], quotes[j]) && !Outranks(quotes[j], quotes[k])
    ensures |builders| == |quotes| && !Transitive(WithPressures(quotes, builders))
  {
    builders := seq(|quotes|, m => if m == k then 0.0 else if m == j then 1.0 else 2.0);
    var r := WithPressures(quotes, builders);
    assert IsBetter(r[k], r[j]) && IsBetter(r[j], r[i]) && !IsBetter(r[k], r[i]);
  }

  /** For quotes with given classes, margins and probabilities, the comparison is transitive whatever builder
      pressures they report if and only if they are settled. */
  lemma TransitiveExactlyWhenSettled(quotes: seq<Quote>)
    ensures Settled(quotes)
            <==> forall builders: seq<real> :: |builders| == |quotes| ==> Transitive(WithPressures(quotes, builders))
  {
    hide Transitive, WithPressures, Outranks;
    if Settled(quotes) {
      forall builders: seq<real> | |builders| == |quotes| ensures Transitive(WithPressures(quotes, builders)) {
        SettledIsTransitive(quotes, builders);
      }
    } else {
      var i, j, k :| 0 <= i < |quotes| && 0 <= j < |quotes| && 0 <= k < |quotes| && Outranks(quotes[i], quotes[k])
                     && !(Outranks(quotes[i], quotes[j]) || Outranks(quotes[j], quotes[k]));
      var builders := UnsettledIsNot(quotes, i, j, k);
    }
  }

  // ---------------------------------------------------------------- readings that change within a call

  /** How often a reading differs from the one before it. */
  function Changes(readings: seq<Policy>): nat {
    if |readings| < 2 then 0
    else
      var n := |readings| - 1;
      Changes(readings[..n]) + (if readings[n] != readings[n - 1] then 1 else 0)
  }

  lemma {:induction false} ChangesBetween(readings: seq<Policy>, j: nat, k: nat)
    requires j <= k < |readings|
    ensures Changes(readings[..j + 1]) <= Changes(readings[..k + 1])
    ensures readings[j] != readings[k] ==> Changes(readings[..j + 1]) < Changes(readings[..k + 1])
  {
    if j < k {
      ChangesBetween(readings, j, k - 1);
      assert readings[..k + 1][..k] == readings[..k];
    }
  }

  /** In nothing the choice looks at is the first quote worse than the second. */
  predicate NoWorse(a: Quote, b: Quote) {
    (b.shouldExecute ==> a.shouldExecute) && Margin(b) <= Margin(a) && b.probability <= a.probability
    && a.builder <= b.builder
  }

  lemma NoWorseBeatsAsMuch(a: Quote, b: Quote, other: Quote)
    requires NoWorse(a, b) && IsBetter(b, other)
    ensures IsBetter(a, other)
  {}

  lemma OneReadingOrders(p: Policy, i: Input, x: real, y: real, c: Curves)
    requires SanePolicy(p) && c.Valid() && !IsBetter(RelayQuote(p, i, y, c), RelayQuote(p, i, x, c))
    ensures NoWorse(RelayQuote(p, i, x, c), RelayQuote(p, i, y, c))
  {
    hide RelayQuote, Curves.Valid, Reported, Margin, IsBetter;
    BetterMeansLowerPressure(p, i, y, x, c);
    ReportedByQuote(p, i, x, c);
    ReportedByQuote(p, i, y, c);
    if Reported(p, x) == Reported(p, y) {
      SameReportSameQuote(p, i, x, y, c);
    } else if x <= y {
      LowerPressureIsNoWorse(p, i, x, y, c);
    } else {
      ReportedRises(p, y, x);
    }
  }

  /** Within one class, the first margin is at most the given number of EPSILONs below the second. */
  predicate Within(best: Quote, other: Quote, changes: nat) {
    best.shouldExecute == other.shouldExecute ==> Margin(best) >= Margin(other) - changes as real * EPSILON
  }

  lemma NotBetterIsWithin(best: Quote, other: Quote)
    requires !IsBetter(other, best)
    ensures Within(best, other, 1)
  {}

  lemma WithinAdds(a: Quote, b: Quote, other: Quote, m: nat, n: nat, total: nat)
    requires Within(a, b, m) && Within(b, other, n) && m + n <= total && a.shouldExecute == b.shouldExecute
    ensures Within(a, other, total)
  {
    ProductMonotone((m + n) as real, total as real, EPSILON);
    assert (m + n) as real * EPSILON == m as real * EPSILON + n as real * EPSILON;
  }

  lemma WithinMore(a: Quote, b: Quote, m: nat, n: nat)
    requires Within(a, b, m) && m <= n
    ensures Within(a, b, n)
  {
    ProductMonotone(m as real, n as real, EPSILON);
  }

  ghost predicate AllSane(readings: seq<Policy>) { forall k :: 0 <= k < |readings| ==> SanePolicy(readings[k]) }

  /** What the fold does with one more quote. */
  lemma ChosenStep(quotes: seq<Quote>, n: nat)
    requires 0 < n < |quotes|
    ensures var before := Chosen(quotes[..n]);
            Chosen(quotes[..n + 1]) == if IsBetter(quotes[n], quotes[before]) then n else before
  {
    hide IsBetter;
    assert quotes[..n + 1][..n] == quotes[..n];
  }

  /** What holds of the best quote so far against every earlier quote: those before it are within the changes up to
      it, and those after it have been compared with it directly. */
  lemma {:induction false} ChosenSoFar(readings: seq<Policy>, i: Input, pressures: seq<real>, c: Curves, n: nat, k: nat)
    requires AllSane(readings) && c.Valid() && Usable(readings, pressures) && pressures != []
    requires k < n <= |pressures|
    ensures var quotes := Quotes(readings, i, pressures, c);
            var best := Chosen(quotes[..n]);
            && (k <= best ==> Within(quotes[best], quotes[k], Changes(readings[..best + 1])))
            && (k > best ==> !IsBetter(quotes[k], quotes[best]))
    decreases n
  {
    hide RelayQuote, Curves.Valid, SanePolicy, IsBetter, Within, Changes, Quotes, Chosen;
    var quotes := Quotes(readings, i, pressures, c);
    if n == 1 {
      WithinItself(quotes[0], Changes(readings[..1]));
    } else {
      var last, before := n - 1, Chosen(quotes[..n - 1]);
      ChosenStep(quotes, last);
      if k < last { ChosenSoFar(readings, i, pressures, c, n - 1, k); }
      if IsBetter(quotes[last], quotes[before]) {
        if k == last {
          WithinItself(quotes[last], Changes(readings[..n]));
        } else if quotes[last].shouldExecute == quotes[k].shouldExecute {
          ReplacedWithin(readings, i, pressures, c, before, k, last);
        } else {
          OtherClass(quotes[last], quotes[k], Changes(readings[..n]));
        }
      }
    }
  }

  lemma WithinItself(q: Quote, changes: nat)
    ensures Within(q, q, changes)
  {
    ProductMonotone(0.0, changes as real, EPSILON);
  }

  lemma OtherClass(a: Quote, b: Quote, changes: nat)
    requires a.shouldExecute != b.shouldExecute
    ensures Within(a, b, changes)
  {}

  /** When a later quote takes over, every earlier quote of its class stays within the changes up to it. */
  lemma ReplacedWithin(readings: seq<Policy>, i: Input, pressures: seq<real>, c: Curves, before: nat, k: nat, last: nat)
    requires AllSane(readings) && c.Valid() && Usable(readings, pressures) && pressures != []
    requires last < |pressures| && k < last && before < last
    requires before == Chosen(Quotes(readings, i, pressures, c)[..last])
    requires var quotes := Quotes(readings, i, pressures, c);
             && IsBetter(quotes[last], quotes[before]) && quotes[last].shouldExecute == quotes[k].shouldExecute
             && (k <= before ==> Within(quotes[before], quotes[k], Changes(readings[..before + 1])))
             && (k > before ==> !IsBetter(quotes[k], quotes[before]))
    ensures Within(Quotes(readings, i, pressures, c)[last], Quotes(readings, i, pressures, c)[k],
                   Changes(readings[..last + 1]))
  {
    hide RelayQuote, Curves.Valid, SanePolicy, IsBetter, Within, Changes, NoWorse;
    var quotes := Quotes(readings, i, pressures, c);
    var a, b, q := quotes[last], quotes[before], quotes[k];
    SameClass(quotes[..last], a, k);
    ChangesBetween(readings, before, last);
    ChangesBetween(readings, k, last);
    var lost := if readings[last] == readings[before] then 0 else 1;
    TakesOver(readings, i, pressures, c, before, last);
    if k <= before {
      WithinAdds(a, b, q, lost, Changes(readings[..before + 1]), Changes(readings[..last + 1]));
    } else if readings[k] == readings[last] {
      if IsBetter(q, a) {
        OneReadingStrict(readings[last], i, pressures[k], pressures[last], c);
        NoWorseBeatsAsMuch(q, a, b);
      }
      OneReadingOrders(readings[last], i, pressures[last], pressures[k], c);
      NoWorseIsWithin(a, q, Changes(readings[..last + 1]));
    } else {
      ChangesBetween(readings, before, k);
      if readings[k] == readings[before] {
        OneReadingOrders(readings[k], i, pressures[before], pressures[k], c);
        NoWorseIsWithin(b, q, 0);
        WithinAdds(a, b, q, lost, 0, Changes(readings[..last + 1]));
      } else {
        NotBetterIsWithin(b, q);
        WithinAdds(a, b, q, lost, 1, Changes(readings[..last + 1]));
      }
    }
  }

  lemma NoWorseIsWithin(a: Quote, b: Quote, changes: nat)
    requires NoWorse(a, b)
    ensures Within(a, b, changes)
  {
    ProductMonotone(0.0, changes as real, EPSILON);
  }

  lemma OneReadingStrict(p: Policy, i: Input, x: real, y: real, c: Curves)
    requires SanePolicy(p) && c.Valid() && IsBetter(RelayQuote(p, i, x, c), RelayQuote(p, i, y, c))
    ensures NoWorse(RelayQuote(p, i, x, c), RelayQuote(p, i, y, c))
  {
    hide RelayQuote, Curves.Valid, IsBetter;
    BetterMeansLowerPressure(p, i, x, y, c);
    BetterMeansLowerPressure(p, i, y, x, c);
    OneReadingOrders(p, i, x, y, c);
  }

  /** The quote that takes over loses nothing under the same reading, and at most EPSILON otherwise. */
  lemma TakesOver(readings: seq<Policy>, i: Input, pressures: seq<real>, c: Curves, before: nat, last: nat)
    requires AllSane(readings) && c.Valid() && Usable(readings, pressures) && pressures != []
    requires before < last < |pressures|
    requires IsBetter(Quotes(readings, i, pressures, c)[last], Quotes(readings, i, pressures, c)[before])
    ensures Within(Quotes(readings, i, pressures, c)[last], Quotes(readings, i, pressures, c)[before],
                   if readings[last] == readings[before] then 0 else 1)
  {
    hide RelayQuote, Curves.Valid, SanePolicy;
    if readings[last] == readings[before] {
      hide IsBetter, Within;
      OneReadingStrict(readings[last], i, pressures[last], pressures[before], c);
      NoWorseIsWithin(RelayQuote(readings[last], i, pressures[last], c),
                      RelayQuote(readings[last], i, pressures[before], c), 0);
    }
  }

  /** A quote that takes over from the best so far, in the class of an earlier quote, is in the class of that best. */
  lemma SameClass(quotes: seq<Quote>, next: Quote, k: nat)
    requires k < |quotes| && IsBetter(next, quotes[Chosen(quotes)]) && next.shouldExecute == quotes[k].shouldExecute
    ensures next.shouldExecute == quotes[Chosen(quotes)].shouldExecute
  {
    hide Chosen;
    ChosenExecutes(quotes);
  }

  /** A quote compared with the best and not taken is no further above it than the readings differ. */
  lemma ComparedWithin(readings: seq<Policy>, i: Input, pressures: seq<real>, c: Curves, best: nat, k: nat)
    requires AllSane(readings) && c.Valid() && Usable(readings, pressures) && pressures != []
    requires best < |pressures| && k < |pressures|
    requires !IsBetter(Quotes(readings, i, pressures, c)[k], Quotes(readings, i, pressures, c)[best])
    ensures Within(Quotes(readings, i, pressures, c)[best], Quotes(readings, i, pressures, c)[k],
                   if readings[k] == readings[best] then 0 else 1)
  {
    hide RelayQuote, Curves.Valid, SanePolicy, IsBetter, Within;
    var quotes := Quotes(readings, i, pressures, c);
    if readings[k] == readings[best] {
      OneReadingOrders(readings[k], i, pressures[best], pressures[k], c);
      NoWorseIsWithin(quotes[best], quotes[k], 0);
    } else {
      NotBetterIsWithin(quotes[best], quotes[k]);
    }
  }

  lemma LaterWithin(readings: seq<Policy>, i: Input, pressures: seq<real>, c: Curves, best: nat, k: nat)
    requires AllSane(readings) && c.Valid() && Usable(readings, pressures) && pressures != []
    requires best < k < |pressures|
    requires !IsBetter(Quotes(readings, i, pressures, c)[k], Quotes(readings, i, pressures, c)[best])
    ensures Within(Quotes(readings, i, pressures, c)[best], Quotes(readings, i, pressures, c)[k], Changes(readings))
  {
    hide RelayQuote, Curves.Valid, SanePolicy, IsBetter, Changes, Within, Quotes;
    var q := Quotes(readings, i, pressures, c)[best];
    var other := Quotes(readings, i, pressures, c)[k];
    assert readings[..|pressures| - 1 + 1] == readings;
    ComparedWithin(readings, i, pressures, c, best, k);
    ChangesBetween(readings, best, k);
    ChangesBetween(readings, k, |pressures| - 1);
    WithinItself(q, 0);
    WithinAdds(q, q, other, 0, if readings[k] == readings[best] then 0 else 1, Changes(readings));
  }

  /** However the readings change, the chosen margin is within EPSILON per change of the best in its class: ties are
      given away only to quotes taken under another reading. */
  lemma ChosenWithinChanges(readings: seq<Policy>, i: Input, pressures: seq<real>, c: Curves, k: nat)
    requires AllSane(readings) && c.Valid() && Usable(readings, pressures) && k < |readings|
    requires var quotes := Quotes(readings, i, pressures, c);
             quotes[k].shouldExecute == quotes[Chosen(quotes)].shouldExecute
    ensures var quotes := Quotes(readings, i, pressures, c);
            Margin(quotes[Chosen(quotes)]) >= Margin(quotes[k]) - Changes(readings) as real * EPSILON
  {
    hide RelayQuote, MakeQuote, Curves.Valid, SanePolicy, IsBetter, Changes, Margin, Chosen;
    var quotes := Quotes(readings, i, pressures, c);
    var best := Chosen(quotes);
    if pressures == [] {
      WithinItself(quotes[0], Changes(readings));
    } else {
      var n := |pressures|;
      assert quotes[..n] == quotes && readings[..n - 1 + 1] == readings;
      ChosenSoFar(readings, i, pressures, c, n, k);
      ChangesBetween(readings, best, n - 1);
      if k <= best {
        WithinMore(quotes[best], quotes[k], Changes(readings[..best + 1]), Changes(readings));
      } else {
        LaterWithin(readings, i, pressures, c, best, k);
      }
    }
  }
}
