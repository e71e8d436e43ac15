/** The queue of recent flows and the two readings the gate takes from it: how dense the flow is, and how much of it
    belongs to one cluster. */
module RecentFlows {
  import opened AdaptiveGate
  import opened Clock
  import opened Reals

  const FLOW_CAPACITY: nat := 2048
  const FLOW_HORIZON_SECS: nat := 12

  datatype Flow = Flow(cluster: nat, observedAt: Instant, gasGwei: real, notionalEth: real)

  /** What the readings need to know of e to the power of minus x. */
  ghost predicate Fading(fading: real -> real) {
    && (forall x :: 0.0 <= x ==> 1.0 - x <= fading(x) <= 1.0 && fading(x) > 0.0)
    && (forall x, y :: 0.0 <= x && 0.0 <= y ==> Composes(fading, x, y))
  }

  predicate Composes(fading: real -> real, x: real, y: real) { fading(x + y) == fading(x) * fading(y) }

  // ---------------------------------------------------------------- the queue

  function Observe(q: seq<Flow>, f: Flow): seq<Flow> { (if |q| == FLOW_CAPACITY then q[1..] else q) + [f] }

  predicate Live(f: Flow, now: Instant) { Since(now, f.observedAt) <= Secs(FLOW_HORIZON_SECS) }

  function Prune(q: seq<Flow>, now: Instant): (live: seq<Flow>)
    ensures |live| <= |q|
  {
    if q != [] && !Live(q[0], now) then Prune(q[1..], now) else q
  }

  /** Oldest first, none from the future, never more than the capacity. */
  predicate Sane(q: seq<Flow>, now: Instant) {
    && |q| <= FLOW_CAPACITY
    && (forall i :: 0 <= i < |q| ==> q[i].observedAt <= now)
    && (forall i, j :: 0 <= i < j < |q| ==> q[i].observedAt <= q[j].observedAt)
  }

  lemma ObserveKeepsSane(q: seq<Flow>, f: Flow, now: Instant)
    requires Sane(q, now) && f.observedAt == now
    ensures Sane(Observe(q, f), now)
  {}

  lemma {:induction false} PruneKeepsLive(q: seq<Flow>, now: Instant)
    requires Sane(q, now)
    ensures Sane(Prune(q, now), now) && forall i :: 0 <= i < |Prune(q, now)| ==> Live(Prune(q, now)[i], now)
  {
    if q != [] && !Live(q[0], now) {
      PruneKeepsLive(q[1..], now);
    }
  }

  lemma {:induction false} PruneTwice(q: seq<Flow>, now: Instant, later: Instant)
    requires Sane(q, now) && now <= later
    ensures Prune(Prune(q, now), later) == Prune(q, later)
  {
    if q != [] && !Live(q[0], now) {
      PruneTwice(q[1..], now, later);
    }
  }

  // ---------------------------------------------------------------- density and heat

  function Density(q: seq<Flow>): real { Unit(|q| as real / FLOW_CAPACITY as real) }

  function AgeSecs(f: Flow, now: Instant): real { Since(now, f.observedAt) as real / NANOS_PER_SEC as real }

  function Recency(f: Flow, now: Instant, fading: real -> real): real { fading(AgeSecs(f, now) / 4.0) }

  /** The weight a flow has beyond its recency, by size and by gas price. */
  function Bulk(f: Flow, gasEwma: real, c: Curves): real {
    (1.0 + Clamp(c.ln1p(MaxReal(f.notionalEth, 0.0)) / 8.0, 0.0, 0.5))
    * (1.0 + Clamp(f.gasGwei / MaxReal(gasEwma, 1.0), 0.0, 2.0) * 0.10)
  }

  predicate Aggressive(f: Flow, gasEwma: real) { gasEwma > EPSILON && f.gasGwei > gasEwma * 1.18 }

  datatype Tally = Tally(total: real, ofCluster: real, recent: real, recentOfCluster: real,
                         aggressive: real, aggressiveOfCluster: real)

  function By(x: real, r: real): real { x * r }

  function If(condition: bool, x: real): real { if condition then x else 0.0 }

  function Added(t: Tally, mine: bool, fierce: bool, weight: real, recency: real): Tally {
    Tally(t.total + weight, t.ofCluster + If(mine, weight), t.recent + recency, t.recentOfCluster + If(mine, recency),
          t.aggressive + If(fierce, recency), t.aggressiveOfCluster + If(mine && fierce, recency))
  }

  function Counted(t: Tally, f: Flow, key: nat, recency: real, gasEwma: real, c: Curves): Tally {
    Added(t, f.cluster == key, Aggressive(f, gasEwma), By(recency, Bulk(f, gasEwma, c)), recency)
  }

  function TallyOf(q: seq<Flow>, key: nat, now: Instant, gasEwma: real, fading: real -> real, c: Curves): Tally {
    if q == [] then Tally(0.0, 0.0, 0.0, 0.0, 0.0, 0.0)
    else
      var f := q[|q| - 1];
      Counted(TallyOf(q[..|q| - 1], key, now, gasEwma, fading, c), f, key, Recency(f, now, fading), gasEwma, c)
  }

  function ShareOf(part: real, whole: real): real {
    if whole <= EPSILON then 0.0 else Unit(part / whole)
  }

  function Dominance(local: real, burst: real): real {
    if local > 0.24 && burst > 0.20 then Unit((local - 0.24) * 1.8 + (burst - 0.20) * 1.4) else 0.0
  }

  function HeatOf(t: Tally): real {
    if t.total <= EPSILON then 0.0
    else
      var local, burst := ShareOf(t.ofCluster, t.total), ShareOf(t.recentOfCluster, t.recent);
      Unit(local * 0.42 + burst * 0.28 + ShareOf(t.aggressiveOfCluster, t.aggressive) * 0.15
           + Dominance(local, burst) * 0.15)
  }

  function Heat(q: seq<Flow>, key: nat, now: Instant, gasEwma: real, fading: real -> real, c: Curves): real {
    if q == [] then 0.0 else HeatOf(TallyOf(q, key, now, gasEwma, fading, c))
  }

  const NO_TALLY := Tally(0.0, 0.0, 0.0, 0.0, 0.0, 0.0)

  lemma TallyOfTwo(a: Flow, b: Flow, key: nat, now: Instant, gasEwma: real, fading: real -> real, c: Curves)
    ensures TallyOf([a, b], key, now, gasEwma, fading, c)
            == Counted(Counted(NO_TALLY, a, key, Recency(a, now, fading), gasEwma, c),
                       b, key, Recency(b, now, fading), gasEwma, c)
  {
    hide Counted, Recency;
    assert [a, b][..1] == [a] && [a][..0] == [];
    assert TallyOf([], key, now, gasEwma, fading, c) == NO_TALLY;
    assert TallyOf([a], key, now, gasEwma, fading, c)
           == Counted(NO_TALLY, a, key, Recency(a, now, fading), gasEwma, c);
  }

  lemma JustSeen(f: Flow, fading: real -> real)
    requires Fading(fading)
    ensures Recency(f, f.observedAt, fading) == 1.0
  {}

  /** Two flows just seen, ours bidding half above the usual gas price and theirs half below it: what the weights come
      to when the size term gives its half. */
  lemma WorkedHeat(fading: real -> real, c: Curves)
    requires Fading(fading) && c.ln1p(1.0) == 4.0
    ensures var q := [Flow(0, 0, 10.0, 1.0), Flow(1, 0, 30.0, 1.0)];
            var local := 23.0 / 44.0;
            Heat(q, 1, 0, 20.0, fading, c)
            == local * 0.42 + 0.5 * 0.28 + 0.15 + ((local - 0.24) * 1.8 + 0.42) * 0.15
  {
    var theirs, ours := Flow(0, 0, 10.0, 1.0), Flow(1, 0, 30.0, 1.0);
    TallyOfTwo(theirs, ours, 1, 0, 20.0, fading, c);
    JustSeen(theirs, fading);
    JustSeen(ours, fading);
    assert Bulk(theirs, 20.0, c) == 1.575 && Bulk(ours, 20.0, c) == 1.725;
    hide TallyOf, Bulk, Recency, HeatOf, Fading;
    var t := TallyOf([theirs, ours], 1, 0, 20.0, fading, c);
    assert t == Tally(3.3, 1.725, 2.0, 1.0, 1.0, 1.0);
    WorkedShares(t);
  }

  lemma WorkedShares(t: Tally)
    requires t == Tally(3.3, 1.725, 2.0, 1.0, 1.0, 1.0)
    ensures var local := 23.0 / 44.0;
            HeatOf(t) == local * 0.42 + 0.5 * 0.28 + 0.15 + ((local - 0.24) * 1.8 + 0.42) * 0.15
  {
    assert 1.725 / 3.3 == 23.0 / 44.0;
  }

  method ClusterHeat(q: seq<Flow>, key: nat, now: Instant, gasEwma: real, fading: real -> real, c: Curves)
    returns (heat: real)
    ensures heat == Heat(q, key, now, gasEwma, fading, c)
  {
    hide HeatOf, Counted, Recency;
    if q == [] {
      return 0.0;
    }
    var t := Tally(0.0, 0.0, 0.0, 0.0, 0.0, 0.0);
    for i := 0 to |q|
      invariant t == TallyOf(q[..i], key, now, gasEwma, fading, c)
    {
      assert q[..i + 1][..i] == q[..i];
      t := Counted(t, q[i], key, Recency(q[i], now, fading), gasEwma, c);
    }
    assert q[..|q|] == q;
    heat := HeatOf(t);
  }

  /** The policy as it reads the flows alive at `now`. */
  function Read(p: Policy, q: seq<Flow>, key: nat, now: Instant, fading: real -> real, c: Curves): Policy {
    var live := Prune(q, now);
    p.(density := Density(live), clusterHeat := Heat(live, key, now, p.gasEwmaGwei, fading, c))
  }

  // ---------------------------------------------------------------- the clock alone changes no reading

  lemma FadingFalls(fading: real -> real, x: real, y: real)
    requires Fading(fading) && 0.0 <= x <= y
    ensures fading(y) <= fading(x)
  {
    assert Composes(fading, x, y - x);
    AtMostWhole(fading(x), fading(y - x), fading(x + (y - x)));
  }

  lemma AtMostWhole(whole: real, rest: real, product: real)
    requires whole > 0.0 && rest <= 1.0 && product == whole * rest
    ensures product <= whole
  {
    ProductMonotone(rest, 1.0, whole);
  }

  lemma FadingDoubles(fading: real -> real, x: real, y: real)
    requires Fading(fading) && 0.0 <= x && 0.0 <= y <= fading(x)
    ensures fading(x + x) >= y * y
  {
    assert Composes(fading, x, x);
    ProductsGrow(y, fading(x), y, fading(x));
  }

  lemma FadingFloor(fading: real -> real, x: real)
    requires Fading(fading) && 0.0 <= x <= 3.0
    ensures fading(x) >= 0.015625
  {
    assert fading(0.5) >= 0.5;
    FadingDoubles(fading, 0.5, 0.5);
    assert 0.5 + 0.5 == 1.0 && fading(1.0) >= 0.25;
    FadingDoubles(fading, 1.0, 0.25);
    assert 1.0 + 1.0 == 2.0 && fading(2.0) >= 0.0625;
    assert Composes(fading, 2.0, 1.0);
    assert 2.0 + 1.0 == 3.0 && fading(3.0) == fading(2.0) * fading(1.0);
    ProductsGrow(0.0625, fading(2.0), 0.25, fading(1.0));
    assert fading(3.0) >= 0.0625 * 0.25;
    FadingFalls(fading, x, 3.0);
  }

  lemma RecencyFloor(f: Flow, now: Instant, fading: real -> real)
    requires Fading(fading) && f.observedAt <= now && Live(f, now)
    ensures 0.015625 <= Recency(f, now, fading) <= 1.0
  {
    FadingFloor(fading, AgeSecs(f, now) / 4.0);
  }

  lemma FadingComposes(fading: real -> real, x: real, y: real)
    requires Fading(fading) && 0.0 <= x && 0.0 <= y
    ensures fading(x + y) == fading(x) * fading(y)
  {
    assert Composes(fading, x, y);
  }

  lemma AgesAdd(f: Flow, now: Instant, later: Instant)
    requires f.observedAt <= now <= later
    ensures var x, y := AgeSecs(f, now) / 4.0, AgeSecs(f.(observedAt := now), later) / 4.0;
            AgeSecs(f, later) / 4.0 == x + y && 0.0 <= x && 0.0 <= y
  {}

  /** Between two instants every recency fades by the same factor. */
  lemma RecencyFades(f: Flow, now: Instant, later: Instant, fading: real -> real)
    requires Fading(fading) && f.observedAt <= now <= later
    ensures Recency(f, later, fading) == Recency(f, now, fading) * fading(AgeSecs(f.(observedAt := now), later) / 4.0)
  {
    var x, y := AgeSecs(f, now) / 4.0, AgeSecs(f.(observedAt := now), later) / 4.0;
    hide AgeSecs, Fading;
    AgesAdd(f, now, later);
    FadingComposes(fading, x, y);
  }

  function Scaled(t: Tally, r: real): Tally {
    Tally(By(t.total, r), By(t.ofCluster, r), By(t.recent, r), By(t.recentOfCluster, r), By(t.aggressive, r),
          By(t.aggressiveOfCluster, r))
  }

  function Factor(now: Instant, later: Instant, fading: real -> real): real {
    fading(Since(later, now) as real / NANOS_PER_SEC as real / 4.0)
  }

  lemma {:induction false} TallyFades(q: seq<Flow>, key: nat, now: Instant, later: Instant, gasEwma: real,
                                      fading: real -> real, c: Curves)
    requires Fading(fading) && Sane(q, now) && now <= later
    ensures TallyOf(q, key, later, gasEwma, fading, c)
            == Scaled(TallyOf(q, key, now, gasEwma, fading, c), Factor(now, later, fading))
  {
    hide Bulk, Recency, Fading, Factor, Counted, Scaled, Aggressive;
    if q == [] {
      NothingScales(Factor(now, later, fading));
    } else {
      var n, r := |q| - 1, Factor(now, later, fading);
      TallyFades(q[..n], key, now, later, gasEwma, fading, c);
      var before := TallyOf(q[..n], key, now, gasEwma, fading, c);
      var seen, seen' := Recency(q[n], now, fading), Recency(q[n], later, fading);
      assert seen' == By(seen, r) by {
        RecencyFades(q[n], now, later, fading);
        FactorIs(q[n], now, later, fading);
      }
      hide By;
      calc {
        TallyOf(q, key, later, gasEwma, fading, c);
        Counted(TallyOf(q[..n], key, later, gasEwma, fading, c), q[n], key, seen', gasEwma, c);
        Counted(Scaled(before, r), q[n], key, seen', gasEwma, c);
      == { CountedScales(before, q[n], key, seen, seen', r, gasEwma, c); }
        Scaled(Counted(before, q[n], key, seen, gasEwma, c), r);
        Scaled(TallyOf(q, key, now, gasEwma, fading, c), r);
      }
    }
  }

  lemma NothingScales(r: real)
    ensures Tally(0.0, 0.0, 0.0, 0.0, 0.0, 0.0) == Scaled(Tally(0.0, 0.0, 0.0, 0.0, 0.0, 0.0), r)
  {}

  lemma FactorIs(f: Flow, now: Instant, later: Instant, fading: real -> real)
    ensures Factor(now, later, fading) == fading(AgeSecs(f.(observedAt := now), later) / 4.0)
  {}

  lemma SumScales(sum: real, x: real, x': real, r: real)
    requires x' == By(x, r)
    ensures By(sum, r) + x' == By(sum + x, r)
  {}

  lemma IfScales(condition: bool, x: real, x': real, r: real)
    requires x' == By(x, r)
    ensures If(condition, x') == By(If(condition, x), r)
  {}

  lemma AddedScales(t: Tally, mine: bool, fierce: bool, weight: real, recency: real, weight': real, recency': real,
                    r: real)
    requires weight' == By(weight, r) && recency' == By(recency, r)
    ensures Added(Scaled(t, r), mine, fierce, weight', recency') == Scaled(Added(t, mine, fierce, weight, recency), r)
  {
    hide If, By;
    IfScales(mine, weight, weight', r);
    IfScales(mine, recency, recency', r);
    IfScales(fierce, recency, recency', r);
    IfScales(mine && fierce, recency, recency', r);
    SumScales(t.total, weight, weight', r);
    SumScales(t.ofCluster, If(mine, weight), If(mine, weight'), r);
    SumScales(t.recent, recency, recency', r);
    SumScales(t.recentOfCluster, If(mine, recency), If(mine, recency'), r);
    SumScales(t.aggressive, If(fierce, recency), If(fierce, recency'), r);
    SumScales(t.aggressiveOfCluster, If(mine && fierce, recency), If(mine && fierce, recency'), r);
  }

  lemma WeightScales(recency: real, recency': real, r: real, bulk: real)
    requires recency' == By(recency, r)
    ensures By(recency', bulk) == By(By(recency, bulk), r)
  {}

  lemma CountedScales(t: Tally, f: Flow, key: nat, recency: real, recency': real, r: real, gasEwma: real, c: Curves)
    requires recency' == By(recency, r)
    ensures Counted(Scaled(t, r), f, key, recency', gasEwma, c) == Scaled(Counted(t, f, key, recency, gasEwma, c), r)
  {
    hide Bulk, Added, Scaled, Aggressive, By;
    var bulk := Bulk(f, gasEwma, c);
    WeightScales(recency, recency', r, bulk);
    AddedScales(t, f.cluster == key, Aggressive(f, gasEwma), By(recency, bulk), recency, By(recency', bulk), recency',
                r);
  }

  lemma ShareScales(part: real, whole: real, part': real, whole': real, r: real)
    requires r > 0.0 && part' == part * r && whole' == whole * r && (whole <= EPSILON <==> whole' <= EPSILON)
    ensures ShareOf(part', whole') == ShareOf(part, whole)
  {
    if whole > EPSILON { QuotientCancels(part, whole, r); }
  }

  lemma HeatScales(t: Tally, u: Tally, r: real)
    requires r > 0.0 && u == Scaled(t, r)
    requires (t.total <= EPSILON <==> u.total <= EPSILON) && (t.recent <= EPSILON <==> u.recent <= EPSILON)
    requires t.aggressive <= EPSILON <==> u.aggressive <= EPSILON
    ensures HeatOf(u) == HeatOf(t)
  {
    hide ShareOf, Dominance, Unit;
    ShareScales(t.ofCluster, t.total, u.ofCluster, u.total, r);
    ShareScales(t.recentOfCluster, t.recent, u.recentOfCluster, u.recent, r);
    ShareScales(t.aggressiveOfCluster, t.aggressive, u.aggressiveOfCluster, u.aggressive, r);
    hide Scaled;
  }

  lemma BulkFloor(f: Flow, gasEwma: real, c: Curves)
    ensures Bulk(f, gasEwma, c) >= 1.0
  {
    ProductsGrow(1.0, 1.0 + Clamp(c.ln1p(MaxReal(f.notionalEth, 0.0)) / 8.0, 0.0, 0.5),
                 1.0, 1.0 + Clamp(f.gasGwei / MaxReal(gasEwma, 1.0), 0.0, 2.0) * 0.10);
  }

  predicate Substantial(x: real) { x == 0.0 || x >= 0.015625 }

  /** Live flows weigh far more than EPSILON. */
  lemma {:induction false} TallyFloor(q: seq<Flow>, key: nat, now: Instant, gasEwma: real, fading: real -> real,
                                      c: Curves)
    requires Fading(fading) && Sane(q, now) && forall i :: 0 <= i < |q| ==> Live(q[i], now)
    ensures var t := TallyOf(q, key, now, gasEwma, fading, c);
            Substantial(t.total) && Substantial(t.recent) && Substantial(t.aggressive)
  {
    hide Bulk, Recency, Fading, Aggressive, Live, Counted;
    if q != [] {
      var n := |q| - 1;
      TallyFloor(q[..n], key, now, gasEwma, fading, c);
      RecencyFloor(q[n], now, fading);
      CountedFloor(TallyOf(q[..n], key, now, gasEwma, fading, c), q[n], key, Recency(q[n], now, fading), gasEwma, c);
    }
  }

  lemma CountedFloor(t: Tally, f: Flow, key: nat, recency: real, gasEwma: real, c: Curves)
    requires Substantial(t.total) && Substantial(t.recent) && Substantial(t.aggressive) && recency >= 0.015625
    ensures var u := Counted(t, f, key, recency, gasEwma, c);
            Substantial(u.total) && Substantial(u.recent) && Substantial(u.aggressive)
  {
    hide Bulk;
    BulkFloor(f, gasEwma, c);
    ProductsGrow(recency, recency, 1.0, Bulk(f, gasEwma, c));
  }

  lemma ScaledFloor(x: real, y: real, r: real)
    requires 0.0 < r && Substantial(x) && Substantial(y) && y == x * r
    ensures x <= EPSILON <==> y <= EPSILON
  {
    if x > 0.0 { ProductPositive(x, r); }
  }

  lemma FactorPositive(now: Instant, later: Instant, fading: real -> real)
    requires Fading(fading)
    ensures Factor(now, later, fading) > 0.0
  {}

  /** While the same flows are alive the heat does not depend on the clock: every recency fades alike. */
  lemma HeatIgnoresClock(q: seq<Flow>, key: nat, now: Instant, later: Instant, gasEwma: real, fading: real -> real,
                         c: Curves)
    requires Fading(fading) && Sane(q, now) && now <= later && forall i :: 0 <= i < |q| ==> Live(q[i], later)
    ensures Heat(q, key, now, gasEwma, fading, c) == Heat(q, key, later, gasEwma, fading, c)
  {
    hide HeatOf, TallyOf, Fading, Factor, Substantial;
    var t, r := TallyOf(q, key, now, gasEwma, fading, c), Factor(now, later, fading);
    FactorPositive(now, later, fading);
    TallyFades(q, key, now, later, gasEwma, fading, c);
    assert forall i :: 0 <= i < |q| ==> Live(q[i], now);
    TallyFloor(q, key, now, gasEwma, fading, c);
    TallyFloor(q, key, later, gasEwma, fading, c);
    var u := TallyOf(q, key, later, gasEwma, fading, c);
    ScaledFloor(t.total, u.total, r);
    ScaledFloor(t.recent, u.recent, r);
    ScaledFloor(t.aggressive, u.aggressive, r);
    HeatScales(t, u, r);
  }

  // ---------------------------------------------------------------- what heats a cluster

  /** The same whole, of which the second tally gives the cluster no less. */
  predicate MoreOfOurs(t: Tally, u: Tally) {
    && t.total == u.total && t.recent == u.recent && t.aggressive == u.aggressive
    && t.ofCluster <= u.ofCluster && t.recentOfCluster <= u.recentOfCluster
    && t.aggressiveOfCluster <= u.aggressiveOfCluster
  }

  lemma ShareRises(part: real, part': real, whole: real)
    requires part <= part'
    ensures 0.0 <= ShareOf(part, whole) <= ShareOf(part', whole) <= 1.0
  {
    if whole > EPSILON { QuotientMonotone(part, part', whole); }
  }

  lemma HeatRises(t: Tally, u: Tally)
    requires MoreOfOurs(t, u)
    ensures 0.0 <= HeatOf(t) <= HeatOf(u) <= 1.0
  {
    ShareRises(t.ofCluster, u.ofCluster, t.total);
    ShareRises(t.recentOfCluster, u.recentOfCluster, t.recent);
    ShareRises(t.aggressiveOfCluster, u.aggressiveOfCluster, t.aggressive);
    hide ShareOf;
  }

  lemma OursCounts(t: Tally, u: Tally, f: Flow, g: Flow, key: nat, recency: real, gasEwma: real, c: Curves)
    requires MoreOfOurs(t, u) && recency >= 0.0 && (g == f || g == f.(cluster := key))
    ensures MoreOfOurs(Counted(t, f, key, recency, gasEwma, c), Counted(u, g, key, recency, gasEwma, c))
  {
    BulkFloor(f, gasEwma, c);
    assert Bulk(g, gasEwma, c) == Bulk(f, gasEwma, c) && Aggressive(g, gasEwma) == Aggressive(f, gasEwma);
    hide Bulk, Aggressive;
    ProductNonNegative(recency, Bulk(f, gasEwma, c));
  }

  lemma {:induction false} RelabelledTally(q: seq<Flow>, i: nat, key: nat, now: Instant, gasEwma: real,
                                           fading: real -> real, c: Curves)
    requires Fading(fading) && i < |q|
    ensures MoreOfOurs(TallyOf(q, key, now, gasEwma, fading, c),
                       TallyOf(q[i := q[i].(cluster := key)], key, now, gasEwma, fading, c))
  {
    hide Counted, Recency, MoreOfOurs, Fading;
    var n := |q| - 1;
    var p := q[i := q[i].(cluster := key)];
    RecencyNonNegative(q[n], now, fading);
    RecencyIgnoresCluster(q[n], key, now, fading);
    assert p[n] == q[n] || p[n] == q[n].(cluster := key);
    if i == n {
      assert p[..n] == q[..n];
      SameTally(TallyOf(q[..n], key, now, gasEwma, fading, c));
    } else {
      assert p[..n] == q[..n][i := q[i].(cluster := key)];
      RelabelledTally(q[..n], i, key, now, gasEwma, fading, c);
    }
    OursCounts(TallyOf(q[..n], key, now, gasEwma, fading, c), TallyOf(p[..n], key, now, gasEwma, fading, c),
               q[n], p[n], key, Recency(q[n], now, fading), gasEwma, c);
  }

  lemma RecencyNonNegative(f: Flow, now: Instant, fading: real -> real)
    requires Fading(fading)
    ensures Recency(f, now, fading) >= 0.0
  {}

  lemma RecencyIgnoresCluster(f: Flow, key: nat, now: Instant, fading: real -> real)
    ensures Recency(f.(cluster := key), now, fading) == Recency(f, now, fading)
  {}

  lemma SameTally(t: Tally)
    ensures MoreOfOurs(t, t)
  {}

  /** A cluster's heat is a share, and never falls when another cluster's flow is one of its own instead. */
  lemma OwnFlowsHeat(q: seq<Flow>, i: nat, key: nat, now: Instant, gasEwma: real, fading: real -> real, c: Curves)
    requires Fading(fading) && i < |q|
    ensures 0.0 <= Heat(q, key, now, gasEwma, fading, c)
            <= Heat(q[i := q[i].(cluster := key)], key, now, gasEwma, fading, c) <= 1.0
  {
    hide TallyOf, HeatOf, Fading;
    RelabelledTally(q, i, key, now, gasEwma, fading, c);
    HeatRises(TallyOf(q, key, now, gasEwma, fading, c),
              TallyOf(q[i := q[i].(cluster := key)], key, now, gasEwma, fading, c));
  }

  lemma {:induction false} TallyOfOneKind(q: seq<Flow>, key: nat, now: Instant, gasEwma: real, fading: real -> real,
                                          c: Curves, ours: bool)
    requires forall i :: 0 <= i < |q| ==> (q[i].cluster == key) == ours
    ensures var t := TallyOf(q, key, now, gasEwma, fading, c);
            if ours then (t.ofCluster, t.recentOfCluster, t.aggressiveOfCluster) == (t.total, t.recent, t.aggressive)
            else t.ofCluster == t.recentOfCluster == t.aggressiveOfCluster == 0.0
  {
    hide Bulk, Recency, Aggressive;
    if q != [] { TallyOfOneKind(q[..|q| - 1], key, now, gasEwma, fading, c, ours); }
  }

  /** The extremes, for live flows: a cluster with none of them is cold, and one with all of them has a heat of 0.85, or
      of one when any bids well above the usual gas price. */
  lemma HeatOfOneKind(q: seq<Flow>, key: nat, now: Instant, gasEwma: real, fading: real -> real, c: Curves, ours: bool)
    requires Fading(fading) && Sane(q, now) && q != [] && forall i :: 0 <= i < |q| ==> Live(q[i], now)
    requires forall i :: 0 <= i < |q| ==> (q[i].cluster == key) == ours
    ensures Heat(q, key, now, gasEwma, fading, c)
            == if !ours then 0.0
               else if exists i :: 0 <= i < |q| && Aggressive(q[i], gasEwma) then 1.0 else 0.85
  {
    hide TallyOf, HeatOf, Fading, Live, Aggressive;
    TallyOfOneKind(q, key, now, gasEwma, fading, c, ours);
    TallyFloor(q, key, now, gasEwma, fading, c);
    TallyWhole(q, key, now, gasEwma, fading, c);
    HeatOfWhole(TallyOf(q, key, now, gasEwma, fading, c), ours);
  }

  lemma {:induction false} TallyWhole(q: seq<Flow>, key: nat, now: Instant, gasEwma: real, fading: real -> real,
                                      c: Curves)
    requires Fading(fading)
    ensures var t := TallyOf(q, key, now, gasEwma, fading, c);
            && (q != [] ==> t.total > 0.0 && t.recent > 0.0) && 0.0 <= t.total && 0.0 <= t.recent && 0.0 <= t.aggressive
            && (t.aggressive > 0.0 <==> exists i :: 0 <= i < |q| && Aggressive(q[i], gasEwma))
  {
    hide Bulk, Aggressive, Recency, Fading;
    if q != [] {
      var n := |q| - 1;
      TallyWhole(q[..n], key, now, gasEwma, fading, c);
      BulkFloor(q[n], gasEwma, c);
      RecencyPositive(q[n], now, fading);
      ProductPositive(Recency(q[n], now, fading), Bulk(q[n], gasEwma, c));
      if i :| 0 <= i < |q| && Aggressive(q[i], gasEwma) {
        if i < n { assert Aggressive(q[..n][i], gasEwma); }
      }
    }
  }

  lemma RecencyPositive(f: Flow, now: Instant, fading: real -> real)
    requires Fading(fading)
    ensures Recency(f, now, fading) > 0.0
  {}

  lemma HeatOfWhole(t: Tally, ours: bool)
    requires Substantial(t.total) && Substantial(t.recent) && Substantial(t.aggressive)
    requires t.total > 0.0 && t.recent > 0.0
    requires if ours then (t.ofCluster, t.recentOfCluster, t.aggressiveOfCluster) == (t.total, t.recent, t.aggressive)
             else t.ofCluster == t.recentOfCluster == t.aggressiveOfCluster == 0.0
    ensures HeatOf(t) == if !ours then 0.0 else if t.aggressive > 0.0 then 1.0 else 0.85
  {
    WholeShare(t.total);
    WholeShare(t.recent);
    WholeShare(t.aggressive);
    hide ShareOf;
  }

  lemma WholeShare(whole: real)
    requires Substantial(whole)
    ensures ShareOf(whole, whole) == (if whole > 0.0 then 1.0 else 0.0) && ShareOf(0.0, whole) == 0.0
  {}

  lemma {:induction false} PruneIsSuffix(q: seq<Flow>, now: Instant)
    ensures Prune(q, now) == q[|q| - |Prune(q, now)|..]
  {
    if q != [] && !Live(q[0], now) { PruneIsSuffix(q[1..], now); }
  }

  /** A reading changes only when a flow expires in between. */
  lemma ReadingsDiffer(p: Policy, q: seq<Flow>, key: nat, now: Instant, later: Instant, fading: real -> real, c: Curves)
    requires Fading(fading) && Sane(q, now) && now <= later
    ensures |Prune(q, later)| <= |Prune(q, now)|
    ensures |Prune(q, later)| == |Prune(q, now)| ==>
              Read(p, q, key, later, fading, c) == Read(p, q, key, now, fading, c)
  {
    hide Heat, Fading, Density;
    PruneTwice(q, now, later);
    PruneKeepsLive(q, now);
    if |Prune(q, later)| == |Prune(q, now)| {
      PruneIsSuffix(q, now);
      PruneIsSuffix(q, later);
      PruneKeepsLive(q, later);
      HeatIgnoresClock(Prune(q, now), key, now, later, p.gasEwmaGwei, fading, c);
    }
  }
}
