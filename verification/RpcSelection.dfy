/** Turning cached scores into an ordered list of endpoints: preference, sort, health filter, rotation. */
module RpcSelection {
  import opened Arithmetic
  import opened Options

  datatype Candidate = Candidate(id: nat, score: real)

  type Scores = seq<Option<real>>

  /** Scored endpoints below `n`, in id order. */
  function Gather(scores: Scores, n: nat): seq<Candidate>
    requires n <= |scores|
  {
    if n == 0 then []
    else Gather(scores, n - 1) + (if scores[n - 1].Some? then [Candidate(n - 1, scores[n - 1].value)] else [])
  }

  function Keep(cs: seq<Candidate>, flags: seq<bool>): seq<Candidate> {
    if cs == [] then []
    else
      var c := cs[|cs| - 1];
      Keep(cs[..|cs| - 1], flags) + (if c.id < |flags| && flags[c.id] then [c] else [])
  }

  /** Insertion after equals: the sort is stable. */
  function Insert(c: Candidate, cs: seq<Candidate>): seq<Candidate> {
    if cs == [] || cs[|cs| - 1].score <= c.score then cs + [c]
    else Insert(c, cs[..|cs| - 1]) + [cs[|cs| - 1]]
  }

  function Sort(cs: seq<Candidate>): seq<Candidate> {
    if cs == [] then [] else Insert(cs[|cs| - 1], Sort(cs[..|cs| - 1]))
  }

  function RotateLeft(cs: seq<Candidate>, n: nat, k: nat): seq<Candidate>
    requires k <= n <= |cs|
  {
    cs[k..n] + cs[..k] + cs[n..]
  }

  function Ids(cs: seq<Candidate>): seq<nat> { seq(|cs|, i requires 0 <= i < |cs| => cs[i].id) }

  /** The preferred scored endpoints, or all scored ones when no preferred endpoint is scored. */
  function Ranked(scores: Scores, preferred: seq<bool>): seq<Candidate> {
    var all := Gather(scores, |scores|);
    var liked := Keep(all, preferred);
    Sort(if liked == [] then all else liked)
  }

  /** The list the handles are taken from, before rotation. */
  function Pool(scores: Scores, preferred: seq<bool>, healthy: seq<bool>, send: bool): seq<Candidate> {
    var ranked := Ranked(scores, preferred);
    if send then ranked
    else
      var fit := Keep(ranked, healthy);
      if fit != [] then fit
      else
        var anyFit := Sort(Keep(Gather(scores, |scores|), healthy));
        if anyFit != [] then anyFit else ranked
  }

  function TopN(size: nat, send: bool, rotateTopN: nat): nat {
    if send then Min(size, 2) else Min(Max(1, Min(rotateTopN, 6)), size)
  }

  function Rotated(pool: seq<Candidate>, topN: nat, rotation: nat): seq<Candidate>
    requires topN <= |pool|
  {
    if topN > 1 then RotateLeft(pool, topN, rotation % topN) else pool
  }

  function Choose(scores: Scores, preferred: seq<bool>, healthy: seq<bool>, send: bool, rotateTopN: nat,
                  rotation: nat, limit: nat): seq<nat>
  {
    var pool := Pool(scores, preferred, healthy, send);
    var turned := Rotated(pool, TopN(|pool|, send, rotateTopN), rotation);
    Ids(turned[..Min(Max(limit, 1), |turned|)])
  }

  // ---------------------------------------------------------------- what sorting and filtering keep

  /** Every candidate carries its endpoint's score, and no endpoint appears twice. */
  predicate Sane(cs: seq<Candidate>, scores: Scores) {
    && (forall c :: c in cs ==> c.id < |scores| && scores[c.id] == Some(c.score))
    && (forall i, j :: 0 <= i < j < |cs| ==> cs[i].id != cs[j].id)
  }

  predicate Ascending(cs: seq<Candidate>) { forall i, j :: 0 <= i < j < |cs| ==> cs[i].score <= cs[j].score }

  lemma {:induction false} GatherSane(scores: Scores, n: nat)
    requires n <= |scores|
    ensures Sane(Gather(scores, n), scores)
    ensures forall c :: c in Gather(scores, n) ==> c.id < n
    ensures forall i :: 0 <= i < n && scores[i].Some? ==> Candidate(i, scores[i].value) in Gather(scores, n)
  {
    if n > 0 {
      GatherSane(scores, n - 1);
      var rest := Gather(scores, n - 1);
      assert forall i :: 0 <= i < |rest| ==> rest[i] in rest;
      forall i | 0 <= i < n && scores[i].Some?
        ensures Candidate(i, scores[i].value) in Gather(scores, n)
      {
        if i < n - 1 {
          assert Candidate(i, scores[i].value) in rest;
        } else {
          assert Gather(scores, n)[|rest|] == Candidate(i, scores[i].value);
        }
      }
    }
  }

  lemma {:induction false} KeepMembers(cs: seq<Candidate>, flags: seq<bool>)
    ensures forall c :: c in Keep(cs, flags) <==> c in cs && c.id < |flags| && flags[c.id]
  {
    if cs != [] {
      var n := |cs| - 1;
      assert cs == cs[..n] + [cs[n]];
      KeepMembers(cs[..n], flags);
    }
  }

  lemma {:induction false} KeepDistinct(cs: seq<Candidate>, flags: seq<bool>)
    requires forall i, j :: 0 <= i < j < |cs| ==> cs[i].id != cs[j].id
    ensures forall i, j :: 0 <= i < j < |Keep(cs, flags)| ==> Keep(cs, flags)[i].id != Keep(cs, flags)[j].id
  {
    if cs != [] {
      var n := |cs| - 1;
      KeepDistinct(cs[..n], flags);
      KeepMembers(cs[..n], flags);
      var rest := Keep(cs[..n], flags);
      forall k | 0 <= k < |rest| ensures rest[k].id != cs[n].id {
        assert rest[k] in rest;
        var i :| 0 <= i < n && cs[i] == rest[k];
      }
    }
  }

  lemma {:induction false} KeepAscending(cs: seq<Candidate>, flags: seq<bool>)
    requires Ascending(cs)
    ensures Ascending(Keep(cs, flags))
  {
    if cs != [] {
      var n := |cs| - 1;
      KeepAscending(cs[..n], flags);
      KeepMembers(cs[..n], flags);
      var rest := Keep(cs[..n], flags);
      forall k | 0 <= k < |rest| ensures rest[k].score <= cs[n].score {
        assert rest[k] in rest;
        var i :| 0 <= i < n && cs[i] == rest[k];
      }
    }
  }

  lemma KeepSane(cs: seq<Candidate>, flags: seq<bool>, scores: Scores)
    requires Sane(cs, scores)
    ensures Sane(Keep(cs, flags), scores)
    ensures forall c :: c in Keep(cs, flags) <==> c in cs && c.id < |flags| && flags[c.id]
    ensures Ascending(cs) ==> Ascending(Keep(cs, flags))
  {
    hide Keep, Ascending;
    KeepMembers(cs, flags);
    KeepDistinct(cs, flags);
    if Ascending(cs) { KeepAscending(cs, flags); }
  }

  lemma {:induction false} InsertMembers(c: Candidate, cs: seq<Candidate>)
    ensures forall d :: d in Insert(c, cs) <==> d == c || d in cs
  {
    if cs != [] && cs[|cs| - 1].score > c.score {
      var n := |cs| - 1;
      assert cs == cs[..n] + [cs[n]];
      InsertMembers(c, cs[..n]);
    }
  }

  lemma {:induction false} InsertAscending(c: Candidate, cs: seq<Candidate>)
    requires Ascending(cs)
    ensures Ascending(Insert(c, cs))
  {
    if cs != [] && cs[|cs| - 1].score > c.score {
      var n := |cs| - 1;
      InsertAscending(c, cs[..n]);
      InsertMembers(c, cs[..n]);
      var rest := Insert(c, cs[..n]);
      forall k | 0 <= k < |rest| ensures rest[k].score <= cs[n].score { assert rest[k] in rest; }
    }
  }

  lemma {:induction false} InsertDistinct(c: Candidate, cs: seq<Candidate>)
    requires forall i, j :: 0 <= i < j < |cs| ==> cs[i].id != cs[j].id
    requires forall d :: d in cs ==> d.id != c.id
    ensures forall i, j :: 0 <= i < j < |Insert(c, cs)| ==> Insert(c, cs)[i].id != Insert(c, cs)[j].id
  {
    if cs != [] && cs[|cs| - 1].score > c.score {
      var n := |cs| - 1;
      InsertDistinct(c, cs[..n]);
      InsertMembers(c, cs[..n]);
      var rest := Insert(c, cs[..n]);
      forall k | 0 <= k < |rest| ensures rest[k].id != cs[n].id {
        assert rest[k] in rest;
        assert cs[n] in cs;
      }
    }
  }

  /** Sorting keeps exactly the candidates it is given, in ascending order of score. */
  lemma {:induction false} SortSane(cs: seq<Candidate>, scores: Scores)
    requires Sane(cs, scores)
    ensures Sane(Sort(cs), scores)
    ensures forall c :: c in Sort(cs) <==> c in cs
    ensures Ascending(Sort(cs))
  {
    if cs != [] {
      var n := |cs| - 1;
      assert cs == cs[..n] + [cs[n]];
      SortSane(cs[..n], scores);
      forall d | d in Sort(cs[..n]) ensures d.id != cs[n].id { var i :| 0 <= i < n && cs[i] == d; }
      InsertMembers(cs[n], Sort(cs[..n]));
      InsertAscending(cs[n], Sort(cs[..n]));
      InsertDistinct(cs[n], Sort(cs[..n]));
    }
  }

  /** The ranking is a sorted list of scored endpoints, empty only when nothing is scored. */
  lemma RankedSane(scores: Scores, preferred: seq<bool>)
    ensures Sane(Ranked(scores, preferred), scores) && Ascending(Ranked(scores, preferred))
    ensures Ranked(scores, preferred) != [] <==> Gather(scores, |scores|) != []
    ensures var all := Gather(scores, |scores|);
            var liked := Keep(all, preferred);
            forall c :: c in Ranked(scores, preferred) <==> c in (if liked == [] then all else liked)
  {
    var all := Gather(scores, |scores|);
    var liked := Keep(all, preferred);
    GatherSane(scores, |scores|);
    KeepSane(all, preferred, scores);
    var src := if liked == [] then all else liked;
    SortSane(src, scores);
    hide Gather, Sort, Keep, Ascending, Sane;
    if src != [] { assert src[0] in src; }
    if Sort(src) != [] { assert Sort(src)[0] in src; }
    assert liked != [] ==> liked[0] in all;
  }

  /** It holds the preferred scored endpoints if there are any, and all scored ones otherwise. */
  lemma RankedSound(scores: Scores, preferred: seq<bool>)
    requires |preferred| == |scores|
    ensures Sane(Ranked(scores, preferred), scores) && Ascending(Ranked(scores, preferred))
    ensures Ranked(scores, preferred) != [] <==> Gather(scores, |scores|) != []
    ensures forall i :: 0 <= i < |scores| && scores[i].Some? && preferred[i] ==>
              Candidate(i, scores[i].value) in Ranked(scores, preferred)
    ensures (exists i :: 0 <= i < |scores| && scores[i].Some? && preferred[i]) ==>
              forall c :: c in Ranked(scores, preferred) ==> preferred[c.id]
  {
    RankedSane(scores, preferred);
    GatherSane(scores, |scores|);
    var all := Gather(scores, |scores|);
    KeepSane(all, preferred, scores);
    var liked := Keep(all, preferred);
    hide Gather, Sort, Keep, Ascending, Ranked;
    forall i | 0 <= i < |scores| && scores[i].Some? && preferred[i]
      ensures Candidate(i, scores[i].value) in liked
    {
      assert Candidate(i, scores[i].value) in all;
    }
  }

  lemma GatherEmpty(scores: Scores)
    ensures Gather(scores, |scores|) != [] <==> exists i :: 0 <= i < |scores| && scores[i].Some?
  {
    GatherSane(scores, |scores|);
    hide Gather;
    if Gather(scores, |scores|) != [] {
      var c := Gather(scores, |scores|)[0];
      assert c in Gather(scores, |scores|);
      assert scores[c.id].Some?;
    }
  }

  /** The pool: scored endpoints only, best score first; never empty when some endpoint is scored; and in
      read mode made of healthy endpoints whenever any scored endpoint is healthy. */
  lemma PoolSound(scores: Scores, preferred: seq<bool>, healthy: seq<bool>, send: bool)
    requires |preferred| == |healthy| == |scores|
    ensures var pool := Pool(scores, preferred, healthy, send);
            && Sane(pool, scores) && Ascending(pool)
            && (pool != [] <==> exists i :: 0 <= i < |scores| && scores[i].Some?)
            && (!send && (exists i :: 0 <= i < |scores| && scores[i].Some? && healthy[i]) ==>
                  forall c :: c in pool ==> healthy[c.id])
  {
    hide Gather, Sort, Keep, Ascending, Ranked, Sane;
    RankedSound(scores, preferred);
    GatherEmpty(scores);
    AnyFitSound(scores, healthy);
    var ranked := Ranked(scores, preferred);
    KeepSane(ranked, healthy, scores);
    if Keep(ranked, healthy) != [] { assert Keep(ranked, healthy)[0] in ranked; }
  }

  lemma AnyFitSound(scores: Scores, healthy: seq<bool>)
    requires |healthy| == |scores|
    ensures var anyFit := Sort(Keep(Gather(scores, |scores|), healthy));
            && Sane(anyFit, scores) && Ascending(anyFit)
            && (forall c :: c in anyFit ==> c.id < |healthy| && healthy[c.id])
            && (anyFit != [] ==> Gather(scores, |scores|) != [])
            && ((exists i :: 0 <= i < |scores| && scores[i].Some? && healthy[i]) ==> anyFit != [])
  {
    hide Gather, Sort, Keep, Ascending, Sane;
    var all := Gather(scores, |scores|);
    GatherSane(scores, |scores|);
    KeepSane(all, healthy, scores);
    SortSane(Keep(all, healthy), scores);
    if i :| 0 <= i < |scores| && scores[i].Some? && healthy[i] {
      assert Candidate(i, scores[i].value) in Keep(all, healthy);
    }
    if Sort(Keep(all, healthy)) != [] { assert Sort(Keep(all, healthy))[0] in all; }
  }

  /** A preferred endpoint that can be used is never passed over for an unpreferred one. */
  lemma PoolPrefers(scores: Scores, preferred: seq<bool>, healthy: seq<bool>, send: bool)
    requires |preferred| == |healthy| == |scores|
    requires exists i :: 0 <= i < |scores| && scores[i].Some? && preferred[i] && (send || healthy[i])
    ensures forall c :: c in Pool(scores, preferred, healthy, send) ==> c.id < |scores| && preferred[c.id]
  {
    RankedSound(scores, preferred);
    var ranked := Ranked(scores, preferred);
    KeepSane(ranked, healthy, scores);
    hide Gather, Sort, Keep, Ascending, Ranked;
    var i :| 0 <= i < |scores| && scores[i].Some? && preferred[i] && (send || healthy[i]);
    assert Candidate(i, scores[i].value) in ranked;
    if !send { assert Candidate(i, scores[i].value) in Keep(ranked, healthy); }
  }

  /** Where position i of the rotated list comes from. */
  function Source(i: nat, n: nat, k: nat): int { if i < n - k then i + k else if i < n then i - (n - k) else i }

  lemma RotateSource(pool: seq<Candidate>, n: nat, k: nat)
    requires k <= n <= |pool|
    ensures |RotateLeft(pool, n, k)| == |pool|
    ensures forall i :: 0 <= i < |pool| ==>
              0 <= Source(i, n, k) < |pool| && RotateLeft(pool, n, k)[i] == pool[Source(i, n, k)]
  {}

  lemma SourceInjective(n: nat, k: nat, i: nat, j: nat)
    requires k <= n && i < j
    ensures Source(i, n, k) != Source(j, n, k)
    ensures i < n ==> 0 <= Source(i, n, k) < n
  {}

  /** Rotation only reorders the head. */
  lemma RotatedSame(pool: seq<Candidate>, topN: nat, rotation: nat, scores: Scores)
    requires topN <= |pool| && Sane(pool, scores)
    ensures var turned := Rotated(pool, topN, rotation);
            && Sane(turned, scores) && |turned| == |pool|
            && (forall c :: c in turned ==> c in pool)
            && (forall i :: topN <= i < |pool| ==> turned[i] == pool[i])
            && (topN <= 1 ==> turned == pool)
  {
    if topN > 1 {
      var k := rotation % topN;
      var turned := RotateLeft(pool, topN, k);
      RotateSource(pool, topN, k);
      hide RotateLeft;
      forall c | c in turned ensures c in pool {
        var i :| 0 <= i < |turned| && turned[i] == c;
        assert c == pool[Source(i, topN, k)];
      }
      forall i, j | 0 <= i < j < |turned| ensures turned[i].id != turned[j].id {
        SourceInjective(topN, k, i, j);
      }
    }
  }

  predicate Distinct(ids: seq<nat>) { forall i, j :: 0 <= i < j < |ids| ==> ids[i] != ids[j] }

  /** What a caller gets: scored endpoints, no repeats, at most max(limit, 1) of them, and at least one
      whenever any endpoint is scored; healthy ones only in read mode if there are any; and past the rotated
      head nothing is passed over for a worse score. */
  lemma ChoiceSound(scores: Scores, preferred: seq<bool>, healthy: seq<bool>, send: bool, rotateTopN: nat,
                    rotation: nat, limit: nat)
    requires |preferred| == |healthy| == |scores|
    ensures var r := Choose(scores, preferred, healthy, send, rotateTopN, rotation, limit);
            && (forall h :: h in r ==> h < |scores| && scores[h].Some?)
            && Distinct(r)
            && |r| <= Max(limit, 1)
            && (r != [] <==> exists i :: 0 <= i < |scores| && scores[i].Some?)
            && (!send && (exists i :: 0 <= i < |scores| && scores[i].Some? && healthy[i]) ==>
                  forall h :: h in r ==> healthy[h])
  {
    hide Pool;
    PoolSound(scores, preferred, healthy, send);
    var pool := Pool(scores, preferred, healthy, send);
    var topN := TopN(|pool|, send, rotateTopN);
    RotatedSame(pool, topN, rotation, scores);
    hide Rotated;
    var turned := Rotated(pool, topN, rotation);
    var taken := turned[..Min(Max(limit, 1), |turned|)];
    var r := Choose(scores, preferred, healthy, send, rotateTopN, rotation, limit);
    assert |r| == |taken|;
    forall h | h in r ensures exists c :: c in pool && c.id == h {
      var i :| 0 <= i < |r| && r[i] == h;
      assert taken[i] == turned[i] && taken[i] in turned;
    }
  }

  /** Without rotation the first handle is a best-scored member of the pool. */
  lemma FirstIsBest(scores: Scores, preferred: seq<bool>, healthy: seq<bool>, rotation: nat, limit: nat)
    requires |preferred| == |healthy| == |scores|
    requires exists i :: 0 <= i < |scores| && scores[i].Some?
    ensures var r := Choose(scores, preferred, healthy, false, 1, rotation, limit);
            var pool := Pool(scores, preferred, healthy, false);
            && r != [] && r[0] < |scores| && scores[r[0]].Some?
            && forall c :: c in pool ==> scores[r[0]].value <= c.score
  {
    hide Pool;
    PoolSound(scores, preferred, healthy, false);
  }

  /** How many of the pool's best take turns: two for sends, and for reads as many as asked for, between one and six. */
  function Rotating(size: nat, send: bool, rotateTopN: nat): nat {
    var wanted := if send then 2 else if rotateTopN < 1 then 1 else if rotateTopN > 6 then 6 else rotateTopN;
    if wanted <= size then wanted else size
  }

  lemma Turned(i: nat, n: nat, rotation: nat)
    requires i < n
    ensures Source(i, n, rotation % n) == (rotation + i) % n
  {
    var k := rotation % n;
    var whole := rotation / n;
    assert rotation == whole * n + k;
    if i < n - k {
      Remainder(whole, n, k + i);
    } else {
      assert rotation + i == (whole + 1) * n + (k + i - n);
      Remainder(whole + 1, n, k + i - n);
    }
  }

  lemma Remainder(whole: nat, n: nat, rest: nat)
    requires rest < n
    ensures (whole * n + rest) % n == rest
  {
    var q, r := (whole * n + rest) / n, (whole * n + rest) % n;
    assert q * n + r == whole * n + rest;
    if q < whole { Arithmetic.ProductMonotone(q + 1, whole, n); }
    if whole < q { Arithmetic.ProductMonotone(whole + 1, q, n); }
  }

  /** The handles are the pool in its order, cut at the limit, with its best turned round by the rotation counter. */
  lemma HandlesAre(scores: Scores, preferred: seq<bool>, healthy: seq<bool>, send: bool, rotateTopN: nat,
                   rotation: nat, limit: nat)
    ensures var pool := Pool(scores, preferred, healthy, send);
            var n := Rotating(|pool|, send, rotateTopN);
            var r := Choose(scores, preferred, healthy, send, rotateTopN, rotation, limit);
            && |r| == Min(Max(limit, 1), |pool|)
            && forall i :: 0 <= i < |r| ==> r[i] == pool[if i < n then (rotation + i) % n else i].id
  {
    hide Pool;
    var pool := Pool(scores, preferred, healthy, send);
    var n := Rotating(|pool|, send, rotateTopN);
    assert TopN(|pool|, send, rotateTopN) == n;
    var turned := Rotated(pool, n, rotation);
    forall i | 0 <= i < |pool|
      ensures |turned| == |pool| && turned[i] == pool[if i < n then (rotation + i) % n else i]
    {
      if n > 1 {
        RotateSource(pool, n, rotation % n);
        if i < n { Turned(i, n, rotation); }
      }
    }
    hide Rotated, TopN, Rotating;
  }

  lemma NextTurn(rotation: nat, n: nat, j: nat) returns (d: nat)
    requires j < n
    ensures d < n && (rotation + d) % n == j
  {
    var k := rotation % n;
    d := if k <= j then j - k else j + n - k;
    Turned(d, n, rotation);
  }

  /** So in any as many selections in a row on the same pool each of its best comes first once. */
  lemma TurnsAreFair(scores: Scores, preferred: seq<bool>, healthy: seq<bool>, send: bool, rotateTopN: nat,
                     rotation: nat, limit: nat, j: nat)
    returns (d: nat)
    requires var pool := Pool(scores, preferred, healthy, send); j < Rotating(|pool|, send, rotateTopN)
    ensures var pool := Pool(scores, preferred, healthy, send);
            var r := Choose(scores, preferred, healthy, send, rotateTopN, rotation + d, limit);
            d < Rotating(|pool|, send, rotateTopN) && r != [] && r[0] == pool[j].id
  {
    hide Pool, Choose;
    var pool := Pool(scores, preferred, healthy, send);
    d := NextTurn(rotation, Rotating(|pool|, send, rotateTopN), j);
    HandlesAre(scores, preferred, healthy, send, rotateTopN, rotation + d, limit);
    assert rotation + d + 0 == rotation + d;
  }
}
