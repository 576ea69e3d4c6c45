/** Ranking by score: the stable sort, the exact top of a pool, and why its scores are determined. */
module Ranking {
  datatype Scored<T> = Scored(value: T, score: real)

  predicate Descending<T>(s: seq<Scored<T>>) {
    forall i, j :: 0 <= i < j < |s| ==> s[i].score >= s[j].score
  }

  /** Behind everything that scores at least as much. */
  function Insert<T>(s: seq<Scored<T>>, x: Scored<T>): seq<Scored<T>> {
    if s == [] || s[|s| - 1].score >= x.score then s + [x] else Insert(s[..|s| - 1], x) + [s[|s| - 1]]
  }

  /** The stable sort by descending score. */
  function Sort<T>(s: seq<Scored<T>>): seq<Scored<T>> {
    if s == [] then [] else Insert(Sort(s[..|s| - 1]), s[|s| - 1])
  }

  lemma DescendingAppend<T>(s: seq<Scored<T>>, x: Scored<T>)
    requires Descending(s) && forall y <- s :: y.score >= x.score
    ensures Descending(s + [x])
  {
  }

  lemma {:induction false} InsertSorts<T>(s: seq<Scored<T>>, x: Scored<T>)
    requires Descending(s)
    ensures Descending(Insert(s, x)) && multiset(Insert(s, x)) == multiset(s) + multiset{x}
  {
    if s == [] || s[|s| - 1].score >= x.score {
      DescendingAppend(s, x);
    } else {
      var before, last := s[..|s| - 1], s[|s| - 1];
      assert s == before + [last];
      InsertSorts(before, x);
      InsertedAreBoth(before, x);
      DescendingAppend(Insert(before, x), last);
    }
  }

  lemma {:induction false} InsertedAreBoth<T>(s: seq<Scored<T>>, x: Scored<T>)
    ensures forall y <- Insert(s, x) :: y in s || y == x
  {
    if s != [] && s[|s| - 1].score < x.score {
      InsertedAreBoth(s[..|s| - 1], x);
    }
  }

  lemma {:induction false} SortSorts<T>(s: seq<Scored<T>>)
    ensures Descending(Sort(s)) && multiset(Sort(s)) == multiset(s) && |Sort(s)| == |s|
  {
    if s != [] {
      var before, last := s[..|s| - 1], s[|s| - 1];
      assert s == before + [last];
      SortSorts(before);
      InsertSorts(Sort(before), last);
    }
    SameSize(Sort(s), s);
  }

  lemma SameSize<T>(a: seq<T>, b: seq<T>)
    requires multiset(a) == multiset(b)
    ensures |a| == |b|
  {
    assert |multiset(a)| == |multiset(b)|;
  }

  /** `s[:n]` */
  function Cut<T>(s: seq<T>, n: nat): seq<T> {
    if |s| <= n then s else s[..n]
  }

  // ----- counting ---------------------------------------------------------------------------

  /** How many entries score at least `t`. */
  function CountAbove<T>(s: seq<Scored<T>>, t: real): nat {
    if s == [] then 0 else CountAbove(s[..|s| - 1], t) + (if s[|s| - 1].score >= t then 1 else 0)
  }

  lemma {:induction false} CountAdds<T>(a: seq<Scored<T>>, b: seq<Scored<T>>, t: real)
    ensures CountAbove(a + b, t) == CountAbove(a, t) + CountAbove(b, t)
  {
    if b == [] {
      assert a + b == a;
    } else {
      assert (a + b)[..|a + b| - 1] == a + b[..|b| - 1];
      CountAdds(a, b[..|b| - 1], t);
    }
  }

  lemma CountAll<T>(s: seq<Scored<T>>, t: real)
    ensures CountAbove(s, t) <= |s|
    ensures (forall x <- s :: x.score >= t) ==> CountAbove(s, t) == |s|
    ensures (forall x <- s :: x.score < t) ==> CountAbove(s, t) == 0
    ensures CountAbove(s, t) > 0 ==> exists x :: x in s && x.score >= t
  {
    CountMissing(s, t);
    if CountAbove(s, t) > 0 {
      var x := CountFound(s, t);
    }
  }

  lemma {:induction false} CountMissing<T>(s: seq<Scored<T>>, t: real)
    ensures CountAbove(s, t) <= |s|
    ensures CountAbove(s, t) < |s| ==> exists x :: x in s && x.score < t
  {
    if s != [] {
      var n := |s| - 1;
      CountMissing(s[..n], t);
      if s[n].score < t {
        assert s[n] in s;
      } else if CountAbove(s, t) < |s| {
        var x :| x in s[..n] && x.score < t;
        assert x in s;
      }
    }
  }

  lemma {:induction false} CountFound<T>(s: seq<Scored<T>>, t: real) returns (x: Scored<T>)
    requires CountAbove(s, t) > 0
    ensures x in s && x.score >= t
  {
    var n := |s| - 1;
    if s[n].score >= t {
      x := s[n];
    } else {
      x := CountFound(s[..n], t);
    }
  }

  lemma CountWithout<T>(p: seq<Scored<T>>, j: nat, t: real)
    requires j < |p|
    ensures CountAbove(p, t) == CountAbove(p[..j] + p[j + 1..], t) + (if p[j].score >= t then 1 else 0)
    ensures multiset(p[..j] + p[j + 1..]) == multiset(p) - multiset{p[j]}
  {
    assert p == p[..j] + ([p[j]] + p[j + 1..]);
    CountAdds(p[..j], [p[j]] + p[j + 1..], t);
    CountAdds([p[j]], p[j + 1..], t);
    CountAdds(p[..j], p[j + 1..], t);
    assert CountAbove([p[j]], t) == CountAbove([p[j]][..0], t) + if p[j].score >= t then 1 else 0;
  }

  /** A part of a pool counts no more than the pool, and less only if something of the pool is missing from it. */
  lemma {:induction false} CountOfPart<T>(s: seq<Scored<T>>, p: seq<Scored<T>>, t: real)
    requires multiset(s) <= multiset(p)
    ensures CountAbove(s, t) <= CountAbove(p, t)
    ensures CountAbove(s, t) < CountAbove(p, t) ==> exists x :: x in multiset(p) - multiset(s) && x.score >= t
  {
    if s == [] {
      CountAll(p, t);
    } else {
      var n := |s| - 1;
      var x := s[n];
      assert s == s[..n] + [x];
      assert x in multiset(p);
      var j :| 0 <= j < |p| && p[j] == x;
      CountWithout(p, j, t);
      CountOfPart(s[..n], p[..j] + p[j + 1..], t);
      assert multiset(p) - multiset(s) == multiset(p[..j] + p[j + 1..]) - multiset(s[..n]);
    }
  }

  lemma HeadCounts<T>(head: seq<Scored<T>>, tail: seq<Scored<T>>, t: real)
    requires forall x <- head :: x.score >= t
    ensures CountAbove(head + tail, t) >= |head|
  {
    CountAdds(head, tail, t);
    CountAll(head, t);
  }

  lemma TailCounts<T>(head: seq<Scored<T>>, tail: seq<Scored<T>>, t: real)
    requires forall x <- tail :: x.score < t
    ensures CountAbove(head + tail, t) <= |head|
  {
    CountAdds(head, tail, t);
    CountAll(head, t);
    CountAll(tail, t);
  }

  lemma CutInTwo<T>(s: seq<T>, i: nat)
    requires i <= |s|
    ensures s[..i] + s[i..] == s
  {
  }

  lemma DescendingHead<T>(s: seq<Scored<T>>, t: real, i: nat)
    requires Descending(s) && i < |s| && s[i].score >= t
    ensures forall x <- s[..i + 1] :: x.score >= t
  {
  }

  lemma DescendingTail<T>(s: seq<Scored<T>>, t: real, i: nat)
    requires Descending(s) && i < |s| && s[i].score < t
    ensures forall x <- s[i..] :: x.score < t
  {
  }

  /** In a descending list the entries from `t` up are a prefix. */
  lemma CountInDescending<T>(s: seq<Scored<T>>, t: real, i: nat)
    requires Descending(s) && i < |s|
    ensures s[i].score >= t <==> CountAbove(s, t) > i
  {
    if s[i].score >= t {
      DescendingHead(s, t, i);
      HeadCounts(s[..i + 1], s[i + 1..], t);
      CutInTwo(s, i + 1);
    } else {
      DescendingTail(s, t, i);
      TailCounts(s[..i], s[i..], t);
      CutInTwo(s, i);
    }
  }

  // ----- the top of a pool ----------------------------------------------------------------------

  /** `r` is an exact top-`limit` of the pool: nothing left out scores strictly higher than anything returned. */
  ghost predicate IsTop<T>(r: seq<Scored<T>>, pool: seq<Scored<T>>, limit: nat) {
    && multiset(r) <= multiset(pool) && Descending(r)
    && |r| == (if |pool| < limit then |pool| else limit)
    && forall x, y :: x in multiset(pool) - multiset(r) && y in r ==> x.score <= y.score
  }

  /** The ranked scores of a top do not depend on how ties were broken. */
  lemma TopScoresUnique<T>(a: seq<Scored<T>>, b: seq<Scored<T>>, pool: seq<Scored<T>>, limit: nat)
    requires IsTop(a, pool, limit) && IsTop(b, pool, limit)
    ensures |a| == |b| && forall i :: 0 <= i < |a| ==> a[i].score == b[i].score
  {
    forall i | 0 <= i < |a|
      ensures a[i].score == b[i].score
    {
      TopScoreAtMost(a, b, pool, limit, i);
      TopScoreAtMost(b, a, pool, limit, i);
    }
  }

  lemma TopScoreAtMost<T>(a: seq<Scored<T>>, b: seq<Scored<T>>, pool: seq<Scored<T>>, limit: nat, i: nat)
    requires IsTop(a, pool, limit) && IsTop(b, pool, limit) && i < |a|
    ensures a[i].score <= b[i].score
  {
    var t := a[i].score;
    CountInDescending(a, t, i);
    CountInDescending(b, t, i);
    CountOfPart(a, pool, t);
    CountOfPart(b, pool, t);
    if CountAbove(b, t) < CountAbove(pool, t) {
      var x :| x in multiset(pool) - multiset(b) && x.score >= t;
      assert b[i] in b;
    }
  }

  // ----- merging tops -----------------------------------------------------------------------------

  /** What `m` leaves out of the pool is outranked by `limit` entries of `m`. */
  ghost predicate Sketches<T>(m: seq<Scored<T>>, pool: seq<Scored<T>>, limit: nat) {
    && multiset(m) <= multiset(pool)
    && forall x :: x in multiset(pool) - multiset(m) ==> CountAbove(m, x.score) >= limit
  }

  lemma TopSketches<T>(r: seq<Scored<T>>, pool: seq<Scored<T>>, limit: nat)
    requires IsTop(r, pool, limit)
    ensures Sketches(r, pool, limit)
  {
    forall x | x in multiset(pool) - multiset(r)
      ensures CountAbove(r, x.score) >= limit
    {
      CountAll(r, x.score);
      if |pool| < limit {
        EqualCards(multiset(r), multiset(pool));
      }
    }
  }

  lemma EqualCards<T>(a: multiset<T>, b: multiset<T>)
    requires a <= b && |a| == |b|
    ensures b - a == multiset{}
  {
    assert b == a + (b - a);
  }

  lemma SketchesAdd<T>(a: seq<Scored<T>>, p: seq<Scored<T>>, b: seq<Scored<T>>, q: seq<Scored<T>>, all: seq<Scored<T>>, limit: nat)
    requires Sketches(a, p, limit) && Sketches(b, q, limit) && multiset(all) == multiset(p) + multiset(q)
    ensures Sketches(a + b, all, limit)
  {
    forall x | x in multiset(all) - multiset(a + b)
      ensures CountAbove(a + b, x.score) >= limit
    {
      CountAdds(a, b, x.score);
      assert x in multiset(p) - multiset(a) || x in multiset(q) - multiset(b);
    }
  }

  /** Sorting a sketch and cutting it at the limit gives the top of the whole pool. */
  lemma SketchGivesTop<T>(m: seq<Scored<T>>, pool: seq<Scored<T>>, limit: nat)
    requires Sketches(m, pool, limit)
    ensures IsTop(Cut(Sort(m), limit), pool, limit)
  {
    var s := Sort(m);
    SortSorts(m);
    if |m| < limit {
      NothingLeftOut(m, pool, limit);
    } else {
      CutIsTop(m, s, pool, limit);
    }
  }

  lemma CutIsTop<T>(m: seq<Scored<T>>, s: seq<Scored<T>>, pool: seq<Scored<T>>, limit: nat)
    requires Sketches(m, pool, limit) && Descending(s) && multiset(s) == multiset(m) && limit <= |s| == |m|
    ensures IsTop(Cut(s, limit), pool, limit)
  {
    CutShape(s, limit);
    PartOfPart(multiset(s[..limit]), multiset(m), multiset(pool));
    SizeOfPart(multiset(m), multiset(pool));
    forall x, y | x in multiset(pool) - multiset(s[..limit]) && y in s[..limit]
      ensures x.score <= y.score
    {
      CutOutranks(m, s, pool, limit, x, y);
    }
  }

  lemma CutShape<T>(s: seq<Scored<T>>, limit: nat)
    requires Descending(s) && limit <= |s|
    ensures Cut(s, limit) == s[..limit] && Descending(s[..limit]) && multiset(s[..limit]) <= multiset(s)
  {
    CutInTwo(s, limit);
    assert multiset(s) == multiset(s[..limit]) + multiset(s[limit..]);
  }

  lemma PartOfPart<T>(a: multiset<T>, b: multiset<T>, c: multiset<T>)
    requires a <= b <= c
    ensures a <= c
  {
  }

  lemma SizeOfPart<T>(a: multiset<T>, b: multiset<T>)
    requires a <= b
    ensures |a| <= |b|
  {
    assert b == a + (b - a);
  }

  lemma NothingLeftOut<T>(m: seq<Scored<T>>, pool: seq<Scored<T>>, limit: nat)
    requires Sketches(m, pool, limit) && |m| < limit
    ensures multiset(m) == multiset(pool) && |m| == |pool|
  {
    var rest := multiset(pool) - multiset(m);
    if x :| x in rest {
      CountAll(m, x.score);
    }
    assert multiset(pool) == multiset(m) + rest;
  }

  lemma CutOutranks<T>(m: seq<Scored<T>>, s: seq<Scored<T>>, pool: seq<Scored<T>>, limit: nat, x: Scored<T>, y: Scored<T>)
    requires Sketches(m, pool, limit) && Descending(s) && multiset(s) == multiset(m) && limit <= |s| == |m|
    requires x in multiset(pool) - multiset(s[..limit]) && y in s[..limit]
    ensures x.score <= y.score
  {
    var i :| 0 <= i < limit && s[i] == y;
    if x in multiset(pool) - multiset(m) {
      CountOfPart(m, s, x.score);
      CountInDescending(s, x.score, limit - 1);
    } else {
      BehindTheCut(s, limit, x);
      var j :| limit <= j < |s| && s[j] == x;
    }
  }

  lemma BehindTheCut<T>(s: seq<Scored<T>>, limit: nat, x: Scored<T>)
    requires limit <= |s| && x in multiset(s) - multiset(s[..limit])
    ensures exists j :: limit <= j < |s| && s[j] == x
  {
    assert s == s[..limit] + s[limit..];
    assert x in s[limit..];
  }
}
