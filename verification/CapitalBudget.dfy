/** The sliding-window capital budget: a queue of reservations, pruned from the front, that caps exposure in
    total, per cluster and per pair. Capital is counted in wei. */
module CapitalBudget {
  import opened Arithmetic
  import opened Options
  import opened Clock

  type Cluster = nat
  type Pair = nat
  type Tx = nat

  datatype Reservation = Reservation(reservedAt: Instant, cluster: Cluster, pair: Pair, victimTx: Tx, capital: nat)

  datatype Limits = Limits(windowSecs: nat, maxWindow: int, maxCluster: int, maxPair: int)

  datatype Reason = Allowed | WindowExposureLimit | ClusterWindowLimit | PairWindowLimit

  datatype Decision = Decision(allowed: bool, reason: Reason, totalAfter: int, clusterAfter: int, pairAfter: int)

  /** Older than the window at `now`, in whole seconds. */
  predicate Expired(r: Reservation, now: Instant, windowSecs: nat) {
    AsSecs(Since(now, r.reservedAt)) > windowSecs
  }

  // ---------------------------------------------------------------- the simple form: sums over a list

  datatype Scope = All | OfCluster(cluster: Cluster) | OfPair(pair: Pair)

  predicate InScope(r: Reservation, s: Scope) {
    match s
    case All => true
    case OfCluster(c) => r.cluster == c
    case OfPair(p) => r.pair == p
  }

  function Outstanding(q: seq<Reservation>, s: Scope): nat {
    if q == [] then 0
    else Outstanding(q[..|q| - 1], s) + (if InScope(q[|q| - 1], s) then q[|q| - 1].capital else 0)
  }

  /** The entries still inside the window, wherever they stand in the list. */
  function Live(q: seq<Reservation>, now: Instant, windowSecs: nat): seq<Reservation> {
    if q == [] then []
    else if Expired(q[0], now, windowSecs) then Live(q[1..], now, windowSecs)
    else [q[0]] + Live(q[1..], now, windowSecs)
  }

  function Without(q: seq<Reservation>, tx: Tx): seq<Reservation> {
    if q == [] then []
    else if q[0].victimTx == tx then Without(q[1..], tx)
    else [q[0]] + Without(q[1..], tx)
  }

  /** What the three caps say about adding `capital` on top of `q`. */
  function Decide(q: seq<Reservation>, capital: nat, cluster: Cluster, pair: Pair, lim: Limits): Decision {
    var total := Outstanding(q, All) + capital;
    var ofCluster := Outstanding(q, OfCluster(cluster)) + capital;
    var ofPair := Outstanding(q, OfPair(pair)) + capital;
    var reason := if total > lim.maxWindow then WindowExposureLimit
                  else if ofCluster > lim.maxCluster then ClusterWindowLimit
                  else if ofPair > lim.maxPair then PairWindowLimit
                  else Allowed;
    Decision(reason.Allowed?, reason, total, ofCluster, ofPair)
  }

  // ---------------------------------------------------------------- the fast form: pruning from the front

  function PruneFront(q: seq<Reservation>, now: Instant, windowSecs: nat): seq<Reservation> {
    if q != [] && Expired(q[0], now, windowSecs) then PruneFront(q[1..], now, windowSecs) else q
  }

  predicate TimeOrdered(q: seq<Reservation>) {
    forall i, j :: 0 <= i < j < |q| ==> q[i].reservedAt <= q[j].reservedAt
  }

  lemma ExpiryMonotone(r: Reservation, s: Reservation, now: Instant, later: Instant, w: nat)
    requires r.reservedAt <= s.reservedAt && now <= later
    ensures Expired(s, now, w) ==> Expired(r, later, w)
  {
    AsSecsMonotone(Since(now, s.reservedAt), Since(later, r.reservedAt));
  }

  lemma {:induction false} LiveSplits(a: seq<Reservation>, b: seq<Reservation>, now: Instant, w: nat)
    ensures Live(a + b, now, w) == Live(a, now, w) + Live(b, now, w)
  {
    if a == [] {
      assert a + b == b;
    } else {
      assert (a + b)[1..] == a[1..] + b;
      LiveSplits(a[1..], b, now, w);
    }
  }

  lemma {:induction false} AllLive(q: seq<Reservation>, now: Instant, w: nat)
    requires forall i :: 0 <= i < |q| ==> !Expired(q[i], now, w)
    ensures Live(q, now, w) == q
  {
    if q != [] { AllLive(q[1..], now, w); }
  }

  /** In a time-ordered queue, pruning the front removes exactly the expired entries. */
  lemma {:induction false} PruneFrontIsLive(q: seq<Reservation>, now: Instant, w: nat)
    requires TimeOrdered(q)
    ensures PruneFront(q, now, w) == Live(q, now, w)
  {
    if q != [] {
      if Expired(q[0], now, w) {
        PruneFrontIsLive(q[1..], now, w);
      } else {
        forall i | 0 <= i < |q| ensures !Expired(q[i], now, w) { ExpiryMonotone(q[0], q[i], now, now, w); }
        AllLive(q, now, w);
      }
    }
  }

  /** What was live later was live earlier: filtering early changes nothing for a later filter. */
  lemma {:induction false} LiveOfLive(q: seq<Reservation>, now: Instant, later: Instant, w: nat)
    requires now <= later
    ensures Live(Live(q, now, w), later, w) == Live(q, later, w)
  {
    if q != [] {
      LiveOfLive(q[1..], now, later, w);
      ExpiryMonotone(q[0], q[0], now, later, w);
    }
  }

  lemma {:induction false} LiveWithout(q: seq<Reservation>, tx: Tx, now: Instant, w: nat)
    ensures Live(Without(q, tx), now, w) == Without(Live(q, now, w), tx)
  {
    if q != [] { LiveWithout(q[1..], tx, now, w); }
  }

  // ---------------------------------------------------------------- runs

  /** One atomic call. A grant stamps its reservation with a second, later reading of the clock. */
  datatype Call =
    | Reserve(now: Instant, stamp: Instant, capital: nat, cluster: Cluster, pair: Pair, victimTx: Tx)
    | Release(now: Instant, victimTx: Tx)
    | Prune(now: Instant)

  function EndOf(c: Call): Instant { if c.Reserve? then c.stamp else c.now }

  function Ticket(c: Call): Reservation
    requires c.Reserve?
  { Reservation(c.stamp, c.cluster, c.pair, c.victimTx, c.capital) }

  /** The fast machine: the queue the code keeps. */
  function Step(q: seq<Reservation>, c: Call, lim: Limits): (seq<Reservation>, Option<Decision>) {
    match c
    case Prune(now) => (PruneFront(q, now, lim.windowSecs), None)
    case Release(_, tx) => (Without(q, tx), None)
    case Reserve(now, _, capital, cluster, pair, _) =>
      var kept := PruneFront(q, now, lim.windowSecs);
      var d := Decide(kept, capital, cluster, pair, lim);
      (if d.allowed then kept + [Ticket(c)] else kept, Some(d))
  }

  /** The simple machine: every grant that has not been released, forever. Its decisions look only at the
      grants inside the window. */
  function SimpleStep(h: seq<Reservation>, c: Call, lim: Limits): (seq<Reservation>, Option<Decision>) {
    match c
    case Prune(_) => (h, None)
    case Release(_, tx) => (Without(h, tx), None)
    case Reserve(now, _, capital, cluster, pair, _) =>
      var d := Decide(Live(h, now, lim.windowSecs), capital, cluster, pair, lim);
      (if d.allowed then h + [Ticket(c)] else h, Some(d))
  }

  function Run(calls: seq<Call>, lim: Limits): (seq<Reservation>, seq<Option<Decision>>) {
    if calls == [] then ([], [])
    else
      var n := |calls| - 1;
      var (q, ds) := Run(calls[..n], lim);
      var (q', d) := Step(q, calls[n], lim);
      (q', ds + [d])
  }

  function SimpleRun(calls: seq<Call>, lim: Limits): (seq<Reservation>, seq<Option<Decision>>) {
    if calls == [] then ([], [])
    else
      var n := |calls| - 1;
      var (h, ds) := SimpleRun(calls[..n], lim);
      var (h', d) := SimpleStep(h, calls[n], lim);
      (h', ds + [d])
  }

  /** The clock never runs backwards, within a call or between calls. */
  predicate Monotone(calls: seq<Call>) {
    && (forall i :: 0 <= i < |calls| ==> calls[i].now <= EndOf(calls[i]))
    && (forall i, j :: 0 <= i < j < |calls| ==> EndOf(calls[i]) <= calls[j].now)
  }

  /** The queue relates to the full record: it is time-ordered, no entry lies ahead of the clock, and at
      every instant from now on the two have the same live entries. */
  ghost predicate Agrees(q: seq<Reservation>, h: seq<Reservation>, at: Instant, w: nat) {
    && TimeOrdered(q)
    && (forall r :: r in q ==> r.reservedAt <= at)
    && (forall t: Instant {:trigger Live(h, t, w)} :: at <= t ==> Live(q, t, w) == Live(h, t, w))
  }

  lemma {:induction false} WithoutKeeps(q: seq<Reservation>, tx: Tx)
    requires TimeOrdered(q)
    ensures TimeOrdered(Without(q, tx))
    ensures forall r :: r in Without(q, tx) <==> r in q && r.victimTx != tx
  {
    if q != [] {
      WithoutKeeps(q[1..], tx);
      var rest := Without(q[1..], tx);
      assert q == [q[0]] + q[1..];
      forall k | 0 <= k < |rest| ensures q[0].reservedAt <= rest[k].reservedAt { assert rest[k] in q[1..]; }
    }
  }

  lemma {:induction false} PruneKeeps(q: seq<Reservation>, now: Instant, w: nat)
    requires TimeOrdered(q)
    ensures TimeOrdered(PruneFront(q, now, w))
    ensures forall r :: r in PruneFront(q, now, w) ==> r in q
  {
    if q != [] { PruneKeeps(q[1..], now, w); }
  }

  lemma PruneAgrees(q: seq<Reservation>, h: seq<Reservation>, at: Instant, now: Instant, w: nat)
    requires Agrees(q, h, at, w) && at <= now
    ensures Agrees(PruneFront(q, now, w), h, now, w)
    ensures PruneFront(q, now, w) == Live(h, now, w)
  {
    PruneKeeps(q, now, w);
    PruneFrontIsLive(q, now, w);
    forall t: Instant {:trigger Live(h, t, w)} | now <= t
      ensures Live(PruneFront(q, now, w), t, w) == Live(h, t, w)
    {
      LiveOfLive(q, now, t, w);
    }
  }

  lemma StepAgrees(q: seq<Reservation>, h: seq<Reservation>, at: Instant, c: Call, lim: Limits)
    requires Agrees(q, h, at, lim.windowSecs) && at <= c.now <= EndOf(c)
    ensures Agrees(Step(q, c, lim).0, SimpleStep(h, c, lim).0, EndOf(c), lim.windowSecs)
    ensures Step(q, c, lim).1 == SimpleStep(h, c, lim).1
  {
    hide Decide;
    var w := lim.windowSecs;
    match c
    case Prune(now) => PruneAgrees(q, h, at, now, w);
    case Release(now, tx) =>
      WithoutKeeps(q, tx);
      forall t: Instant {:trigger Live(Without(h, tx), t, w)} | at <= t
        ensures Live(Without(q, tx), t, w) == Live(Without(h, tx), t, w)
      {
        LiveWithout(q, tx, t, w);
        LiveWithout(h, tx, t, w);
        assert Live(q, t, w) == Live(h, t, w);
      }
    case Reserve(now, stamp, capital, cluster, pair, tx) =>
      PruneAgrees(q, h, at, now, w);
      var kept := PruneFront(q, now, w);
      if Decide(kept, capital, cluster, pair, lim).allowed {
        forall t: Instant {:trigger Live(h + [Ticket(c)], t, w)} | stamp <= t
          ensures Live(kept + [Ticket(c)], t, w) == Live(h + [Ticket(c)], t, w)
        {
          LiveSplits(kept, [Ticket(c)], t, w);
          LiveSplits(h, [Ticket(c)], t, w);
          assert Live(kept, t, w) == Live(h, t, w);
        }
      }
  }

  lemma {:induction false} RunAgrees(calls: seq<Call>, lim: Limits, at: Instant)
    requires Monotone(calls)
    requires calls == [] || EndOf(calls[|calls| - 1]) <= at
    ensures Agrees(Run(calls, lim).0, SimpleRun(calls, lim).0, at, lim.windowSecs)
    ensures Run(calls, lim).1 == SimpleRun(calls, lim).1
  {
    hide Step, SimpleStep;
    if calls != [] {
      var n := |calls| - 1;
      RunAgrees(calls[..n], lim, calls[n].now);
      StepAgrees(Run(calls[..n], lim).0, SimpleRun(calls[..n], lim).0, calls[n].now, calls[n], lim);
    }
  }

  /** In every interleaving of reserve, release and prune, every answer given from the pruned queue is the
      answer the full record of unreleased grants would give: a grant means the unreleased grants inside
      the window, with the new one, fit all three caps, and a refusal means one of them would not. */
  lemma BudgetIsExact(calls: seq<Call>, lim: Limits, i: nat)
    requires Monotone(calls) && i < |calls| && calls[i].Reserve?
    ensures |Run(calls, lim).1| == |calls| && Run(calls, lim).1[i].Some?
    ensures var c := calls[i];
            var live := Live(SimpleRun(calls[..i], lim).0, c.now, lim.windowSecs);
            Run(calls, lim).1[i].value.allowed
            <==> && Outstanding(live, All) + c.capital <= lim.maxWindow
                 && Outstanding(live, OfCluster(c.cluster)) + c.capital <= lim.maxCluster
                 && Outstanding(live, OfPair(c.pair)) + c.capital <= lim.maxPair
  {
    RunLength(calls, lim);
    RunAnswer(calls, lim, i);
    RunAgrees(calls[..i], lim, calls[i].now);
    StepAgrees(Run(calls[..i], lim).0, SimpleRun(calls[..i], lim).0, calls[i].now, calls[i], lim);
  }

  /** And what it reports besides: the exposure the new reservation would make, in total, of its cluster and of its
      pair, and for a refusal the first of the three caps that exposure exceeds. */
  lemma ReportsExposure(calls: seq<Call>, lim: Limits, i: nat)
    requires Monotone(calls) && i < |calls| && calls[i].Reserve?
    ensures |Run(calls, lim).1| == |calls| && Run(calls, lim).1[i].Some?
    ensures var c, d := calls[i], Run(calls, lim).1[i].value;
            var live := Live(SimpleRun(calls[..i], lim).0, c.now, lim.windowSecs);
            && d.totalAfter == Outstanding(live, All) + c.capital
            && d.clusterAfter == Outstanding(live, OfCluster(c.cluster)) + c.capital
            && d.pairAfter == Outstanding(live, OfPair(c.pair)) + c.capital
            && (d.reason == WindowExposureLimit <==> d.totalAfter > lim.maxWindow)
            && (d.reason == ClusterWindowLimit <==> d.totalAfter <= lim.maxWindow && d.clusterAfter > lim.maxCluster)
            && (d.reason == PairWindowLimit <==>
                  d.totalAfter <= lim.maxWindow && d.clusterAfter <= lim.maxCluster && d.pairAfter > lim.maxPair)
            && (d.reason == Allowed <==> d.allowed)
  {
    RunLength(calls, lim);
    RunAnswer(calls, lim, i);
    RunAgrees(calls[..i], lim, calls[i].now);
    StepAgrees(Run(calls[..i], lim).0, SimpleRun(calls[..i], lim).0, calls[i].now, calls[i], lim);
  }

  lemma {:induction false} RunLength(calls: seq<Call>, lim: Limits)
    ensures |Run(calls, lim).1| == |calls|
  {
    hide Step;
    if calls != [] { RunLength(calls[..|calls| - 1], lim); }
  }

  lemma {:induction false} RunAnswer(calls: seq<Call>, lim: Limits, i: nat)
    requires i < |calls|
    ensures |Run(calls, lim).1| == |calls|
    ensures Run(calls, lim).1[i] == Step(Run(calls[..i], lim).0, calls[i], lim).1
  {
    hide Step;
    var n := |calls| - 1;
    RunLength(calls, lim);
    RunLength(calls[..n], lim);
    if i < n {
      RunAnswer(calls[..n], lim, i);
      assert calls[..n][..i] == calls[..i];
    }
  }

  // ---------------------------------------------------------------- the caps hold in every state

  lemma {:induction false} SubsetOutstanding(q: seq<Reservation>, tx: Tx, s: Scope)
    ensures Outstanding(Without(q, tx), s) <= Outstanding(q, s)
  {
    if q != [] {
      SubsetOutstanding(q[1..], tx, s);
      OutstandingFront(q, s);
      if q[0].victimTx != tx {
        assert Without(q, tx)[1..] == Without(q[1..], tx);
        OutstandingFront(Without(q, tx), s);
      }
    }
  }

  /** The sum does not care which end it starts from. */
  lemma {:induction false} OutstandingFront(q: seq<Reservation>, s: Scope)
    requires q != []
    ensures Outstanding(q, s) == (if InScope(q[0], s) then q[0].capital else 0) + Outstanding(q[1..], s)
  {
    var n := |q| - 1;
    if n > 0 {
      OutstandingFront(q[..n], s);
      assert q[..n][1..] == q[1..][..n - 1];
    }
  }

  lemma {:induction false} PrunedOutstanding(q: seq<Reservation>, now: Instant, w: nat, s: Scope)
    ensures Outstanding(PruneFront(q, now, w), s) <= Outstanding(q, s)
  {
    if q != [] && Expired(q[0], now, w) {
      PrunedOutstanding(q[1..], now, w, s);
      OutstandingFront(q, s);
    }
  }

  function Cap(lim: Limits, s: Scope): nat {
    match s
    case All => Max(lim.maxWindow, 0)
    case OfCluster(_) => Max(lim.maxCluster, 0)
    case OfPair(_) => Max(lim.maxPair, 0)
  }

  /** Whatever the interleaving, the outstanding capital in total, of every cluster, and of every pair stays
      within its cap. */
  lemma {:induction false} CapsHold(calls: seq<Call>, lim: Limits, s: Scope)
    ensures Outstanding(Run(calls, lim).0, s) <= Cap(lim, s)
  {
    if calls != [] {
      var n := |calls| - 1;
      var q, c := Run(calls[..n], lim).0, calls[n];
      CapsHold(calls[..n], lim, s);
      match c
      case Prune(now) => PrunedOutstanding(q, now, lim.windowSecs, s);
      case Release(_, tx) => SubsetOutstanding(q, tx, s);
      case Reserve(now, _, capital, cluster, pair, _) =>
        PrunedOutstanding(q, now, lim.windowSecs, s);
        var kept := PruneFront(q, now, lim.windowSecs);
        assert (kept + [Ticket(c)])[..|kept|] == kept;
    }
  }

  // ---------------------------------------------------------------- the object

  class Budget {
    var reservations: seq<Reservation>

    constructor ()
      ensures reservations == []
    { reservations := []; }

    method CheckAndReserve(now: Instant, stamp: Instant, capital: nat, cluster: Cluster, pair: Pair, victimTx: Tx,
                           lim: Limits) returns (d: Decision)
      modifies this
      ensures (reservations, Some(d))
              == Step(old(reservations), Reserve(now, stamp, capital, cluster, pair, victimTx), lim)
    {
      PruneExpired(now, lim.windowSecs);
      var total, ofCluster, ofPair := 0, 0, 0;
      for i := 0 to |reservations|
        invariant reservations == PruneFront(old(reservations), now, lim.windowSecs)
        invariant total == Outstanding(reservations[..i], All)
        invariant ofCluster == Outstanding(reservations[..i], OfCluster(cluster))
        invariant ofPair == Outstanding(reservations[..i], OfPair(pair))
      {
        assert reservations[..i + 1][..i] == reservations[..i];
        var r := reservations[i];
        total := total + r.capital;
        if r.cluster == cluster { ofCluster := ofCluster + r.capital; }
        if r.pair == pair { ofPair := ofPair + r.capital; }
      }
      assert reservations[..|reservations|] == reservations;
      var totalAfter, clusterAfter, pairAfter := total + capital, ofCluster + capital, ofPair + capital;
      var reason := Allowed;
      if totalAfter > lim.maxWindow {
        reason := WindowExposureLimit;
      } else if clusterAfter > lim.maxCluster {
        reason := ClusterWindowLimit;
      } else if pairAfter > lim.maxPair {
        reason := PairWindowLimit;
      }
      if reason == Allowed {
        reservations := reservations + [Reservation(stamp, cluster, pair, victimTx, capital)];
      }
      d := Decision(reason == Allowed, reason, totalAfter, clusterAfter, pairAfter);
    }

    method PruneExpired(now: Instant, windowSecs: nat)
      modifies this
      ensures reservations == PruneFront(old(reservations), now, windowSecs)
    {
      while reservations != [] && Expired(reservations[0], now, windowSecs)
        invariant PruneFront(reservations, now, windowSecs) == PruneFront(old(reservations), now, windowSecs)
        decreases |reservations|
      {
        reservations := reservations[1..];
      }
    }

    method ReleaseTx(victimTx: Tx)
      modifies this
      ensures reservations == Without(old(reservations), victimTx)
    {
      var kept := [];
      for i := 0 to |reservations|
        invariant reservations == old(reservations)
        invariant kept + Without(reservations[i..], victimTx) == Without(reservations, victimTx)
      {
        assert reservations[i..][1..] == reservations[i + 1..];
        if reservations[i].victimTx != victimTx { kept := kept + [reservations[i]]; }
      }
      reservations := kept;
    }
  }
}
