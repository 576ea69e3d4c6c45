/** Dense search over slices of a library, and rank fusion of its two arms (worker/retrieval.py). */
module Retrieval {
  import opened Common
  import opened Ranking

  datatype Passage = Passage(book: int, chunkIndex: int, content: string, denseScore: Option<real>, sparseScore: Option<real>)

  type Hit = Scored<Passage>

  // ----- sliced search ------------------------------------------------------------------------

  /** The rows of the collection, scored for the query, that a filter on `books` lets through. */
  function Rows(corpus: seq<Hit>, books: seq<int>): seq<Hit> {
    if corpus == [] then []
    else
      var last := corpus[|corpus| - 1];
      Rows(corpus[..|corpus| - 1], books) + if last.value.book in books then [last] else []
  }

  /** Milvus with its FLAT index: an exact filtered search. */
  ghost predicate IsExact(search: seq<int> -> seq<Hit>, corpus: seq<Hit>, limit: nat) {
    forall books :: books != [] ==> IsTop(search(books), Rows(corpus, books), limit)
  }

  predicate AllDistinct(books: seq<int>) {
    forall i, j :: 0 <= i < j < |books| ==> books[i] != books[j]
  }

  lemma {:induction false} RowsOfBoth(corpus: seq<Hit>, a: seq<int>, b: seq<int>)
    requires forall x <- a :: x !in b
    ensures multiset(Rows(corpus, a + b)) == multiset(Rows(corpus, a)) + multiset(Rows(corpus, b))
  {
    if corpus != [] {
      RowsOfBoth(corpus[..|corpus| - 1], a, b);
    }
  }

  lemma {:induction false} RowsAreOfBooks(corpus: seq<Hit>, books: seq<int>)
    ensures forall h <- Rows(corpus, books) :: h in corpus && h.value.book in books
    ensures forall h <- corpus :: h.value.book in books ==> h in Rows(corpus, books)
  {
    if corpus != [] {
      var n := |corpus| - 1;
      RowsAreOfBooks(corpus[..n], books);
      assert corpus == corpus[..n] + [corpus[n]];
    }
  }

  lemma SliceSketches(corpus: seq<Hit>, search: seq<int> -> seq<Hit>, before: seq<int>, slice: seq<int>, merged: seq<Hit>, limit: nat)
    requires IsExact(search, corpus, limit) && slice != [] && AllDistinct(before + slice)
    requires Sketches(merged, Rows(corpus, before), limit)
    ensures Sketches(merged + search(slice), Rows(corpus, before + slice), limit)
  {
    assert forall x <- before :: x !in slice by {
      forall x | x in before
        ensures x !in slice
      {
        var i :| 0 <= i < |before| && before[i] == x;
        assert (before + slice)[i] == x;
        assert forall j :: 0 <= j < |slice| ==> (before + slice)[|before| + j] == slice[j];
      }
    }
    TopSketches(search(slice), Rows(corpus, slice), limit);
    RowsOfBoth(corpus, before, slice);
    SketchesAdd(merged, Rows(corpus, before), search(slice), Rows(corpus, slice), Rows(corpus, before + slice), limit);
  }

  lemma SliceAdded(corpus: seq<Hit>, search: seq<int> -> seq<Hit>, books: seq<int>, start: nat, end: nat, merged: seq<Hit>, limit: nat)
    requires start < end <= |books| && AllDistinct(books) && IsExact(search, corpus, limit)
    requires Sketches(merged, Rows(corpus, books[..start]), limit)
    ensures Sketches(merged + search(books[start..end]), Rows(corpus, books[..end]), limit)
  {
    var slice := books[start..end];
    assert books[..start] + slice == books[..end];
    SliceSketches(corpus, search, books[..start], slice, merged, limit);
  }

  lemma {:induction false} NoBooksNoRows(corpus: seq<Hit>)
    ensures Rows(corpus, []) == []
  {
    if corpus != [] {
      NoBooksNoRows(corpus[..|corpus| - 1]);
    }
  }

  /** `None` is the ValueError for an empty library; the corpus is only there to say what the search means. */
  method DenseSearch(ghost corpus: seq<Hit>, search: seq<int> -> seq<Hit>, books: seq<int>, limit: nat, chunkSize: int)
    returns (r: Option<seq<Hit>>)
    requires chunkSize >= 1 && AllDistinct(books) && IsExact(search, corpus, limit)
    ensures r.Some? <==> books != []
    ensures r.Some? ==> IsTop(r.value, Rows(corpus, books), limit)
  {
    if books == [] {
      return None;
    }
    if |books| <= chunkSize {
      return Some(search(books));
    }
    var merged: seq<Hit> := [];
    NoBooksNoRows(corpus);
    var start := 0;
    while start < |books|
      invariant 0 <= start <= |books|
      invariant Sketches(merged, Rows(corpus, books[..start]), limit)
    {
      var end := if start + chunkSize < |books| then start + chunkSize else |books|;
      SliceAdded(corpus, search, books, start, end, merged, limit);
      merged := merged + search(books[start..end]);
      start := end;
    }
    assert books[..start] == books;
    SketchGivesTop(merged, Rows(corpus, books), limit);
    r := Some(Cut(Sort(merged), limit));
  }

  /**
   However the library is sliced: only its own hits, at most `limit`, none outranked by one left out, and
   the scores of one exact search.
  */
  lemma SlicingDoesNotShow(corpus: seq<Hit>, books: seq<int>, limit: nat, sliced: seq<Hit>, whole: seq<Hit>)
    requires IsTop(sliced, Rows(corpus, books), limit) && IsTop(whole, Rows(corpus, books), limit)
    ensures |sliced| == |whole| <= limit && forall i :: 0 <= i < |whole| ==> sliced[i].score == whole[i].score
    ensures forall h <- sliced :: h in corpus && h.value.book in books
    ensures forall h <- corpus :: h.value.book in books && h !in sliced ==> forall s <- sliced :: h.score <= s.score
  {
    TopScoresUnique(sliced, whole, Rows(corpus, books), limit);
    RowsAreOfBooks(corpus, books);
    assert forall h <- sliced :: h in multiset(Rows(corpus, books));
    forall h, s | h in corpus && h.value.book in books && h !in sliced && s in sliced
      ensures h.score <= s.score
    {
      assert h in multiset(Rows(corpus, books)) - multiset(sliced);
    }
  }

  // ----- reciprocal rank fusion ---------------------------------------------------------------------

  const RRF_K := 60
  const DENSE_FANOUT := 30
  const SPARSE_FANOUT := 30

  type Key = (int, int)

  function KeyOf(h: Hit): Key {
    (h.value.book, h.value.chunkIndex)
  }

  function Reciprocal(k: nat, rank: nat): real
    requires rank >= 1
  {
    1.0 / ((k + rank) as real)
  }

  /** What one arm contributes to a key. */
  function ArmScore(arm: seq<Hit>, k: nat, key: Key): real {
    if arm == [] then 0.0
    else ArmScore(arm[..|arm| - 1], k, key) + if KeyOf(arm[|arm| - 1]) == key then Reciprocal(k, |arm|) else 0.0
  }

  function Fused(dense: seq<Hit>, sparse: seq<Hit>, k: nat, key: Key): real {
    ArmScore(dense, k, key) + ArmScore(sparse, k, key)
  }

  predicate Returned(arm: seq<Hit>, key: Key) {
    exists i :: 0 <= i < |arm| && KeyOf(arm[i]) == key
  }

  predicate DistinctKeys(arm: seq<Hit>) {
    forall i, j :: 0 <= i < j < |arm| ==> KeyOf(arm[i]) != KeyOf(arm[j])
  }

  /** An arm that returns a key once gives it the reciprocal of its rank. */
  lemma {:induction false} ArmScoreAtRank(arm: seq<Hit>, k: nat, i: nat)
    requires DistinctKeys(arm) && i < |arm|
    ensures ArmScore(arm, k, KeyOf(arm[i])) == Reciprocal(k, i + 1)
  {
    var n := |arm| - 1;
    if i < n {
      ArmScoreAtRank(arm[..n], k, i);
    } else {
      assert !Returned(arm[..n], KeyOf(arm[n]));
      ArmScoreAbsent(arm[..n], k, KeyOf(arm[n]));
    }
  }

  lemma {:induction false} ArmScoreAbsent(arm: seq<Hit>, k: nat, key: Key)
    requires !Returned(arm, key)
    ensures ArmScore(arm, k, key) == 0.0
  {
    if arm != [] {
      var n := |arm| - 1;
      assert KeyOf(arm[n]) != key;
      assert !Returned(arm[..n], key) by {
        assert forall i :: 0 <= i < n ==> arm[..n][i] == arm[i];
      }
      ArmScoreAbsent(arm[..n], k, key);
    }
  }

  lemma ReciprocalBounds(k: nat, a: nat, b: nat)
    requires 1 <= a <= b
    ensures Reciprocal(k, a) >= Reciprocal(k, b) > 0.0
    ensures a < b ==> Reciprocal(k, a) > Reciprocal(k, b)
  {
    ReciprocalDescends((k + a) as real, (k + b) as real);
  }

  lemma ReciprocalDescends(x: real, y: real)
    requires 0.0 < x <= y
    ensures 1.0 / x >= 1.0 / y > 0.0 && (x < y ==> 1.0 / x > 1.0 / y)
  {
  }

  /** Two last ranks of arms of at most k + 1 hits outweigh one first rank. */
  lemma TwoLastBeatOneFirst(k: nat, a: nat, b: nat)
    requires 1 <= a <= k + 1 && 1 <= b <= k + 1
    ensures Reciprocal(k, a) + Reciprocal(k, b) > Reciprocal(k, 1)
  {
    ReciprocalBounds(k, a, k + 1);
    ReciprocalBounds(k, b, k + 1);
    var x := k as real;
    assert (k + (k + 1)) as real == 2.0 * x + 1.0 && (k + 1) as real == x + 1.0;
    TwoHalves(x);
  }

  lemma TwoHalves(x: real)
    requires x >= 0.0
    ensures 1.0 / (2.0 * x + 1.0) + 1.0 / (2.0 * x + 1.0) > 1.0 / (x + 1.0)
  {
    var a, b := 2.0 * x + 1.0, x + 1.0;
    assert 1.0 / a + 1.0 / a == 2.0 / a;
    assert 2.0 / a - 1.0 / b == (2.0 * b - a) / (a * b);
  }

  /** Arms of at most k + 1 distinct hits: a chunk found by both scores above every chunk found by one only. */
  lemma BothArmsBeatOne(dense: seq<Hit>, sparse: seq<Hit>, k: nat, both: Key, one: Key)
    requires DistinctKeys(dense) && DistinctKeys(sparse) && |dense| <= k + 1 && |sparse| <= k + 1
    requires Returned(dense, both) && Returned(sparse, both)
    requires Returned(dense, one) != Returned(sparse, one)
    ensures Fused(dense, sparse, k, both) > Fused(dense, sparse, k, one)
  {
    var i :| 0 <= i < |dense| && KeyOf(dense[i]) == both;
    var j :| 0 <= j < |sparse| && KeyOf(sparse[j]) == both;
    ArmScoreAtRank(dense, k, i);
    ArmScoreAtRank(sparse, k, j);
    TwoLastBeatOneFirst(k, i + 1, j + 1);
    if Returned(dense, one) {
      OneArmOnly(dense, sparse, k, one);
    } else {
      OneArmOnly(sparse, dense, k, one);
    }
  }

  lemma OneArmOnly(arm: seq<Hit>, other: seq<Hit>, k: nat, one: Key)
    requires DistinctKeys(arm) && Returned(arm, one) && !Returned(other, one)
    ensures ArmScore(arm, k, one) + ArmScore(other, k, one) <= Reciprocal(k, 1)
  {
    var m :| 0 <= m < |arm| && KeyOf(arm[m]) == one;
    ArmScoreAtRank(arm, k, m);
    ArmScoreAbsent(other, k, one);
    ReciprocalBounds(k, 1, m + 1);
  }

  /** One hit more and it ties: the bound k + 1 on the arms is exact. */
  lemma LongerArmsMayTie(dense: seq<Hit>, sparse: seq<Hit>, k: nat)
    requires DistinctKeys(dense) && DistinctKeys(sparse) && |dense| == |sparse| == k + 2
    requires KeyOf(dense[k + 1]) == KeyOf(sparse[k + 1]) && !Returned(sparse, KeyOf(dense[0]))
    ensures Fused(dense, sparse, k, KeyOf(dense[k + 1])) == Fused(dense, sparse, k, KeyOf(dense[0]))
  {
    ArmScoreAtRank(dense, k, k + 1);
    ArmScoreAtRank(sparse, k, k + 1);
    ArmScoreAtRank(dense, k, 0);
    ArmScoreAbsent(sparse, k, KeyOf(dense[0]));
    var x := (k + 1) as real;
    assert (k + (k + 2)) as real == 2.0 * x;
    assert 1.0 / (2.0 * x) + 1.0 / (2.0 * x) == 1.0 / x;
  }

  /** A chunk ahead in both arms stays ahead. */
  lemma AheadInBothStaysAhead(dense: seq<Hit>, sparse: seq<Hit>, k: nat, i: nat, j: nat, m: nat, n: nat)
    requires DistinctKeys(dense) && DistinctKeys(sparse)
    requires i < m < |dense| && j < n < |sparse|
    requires KeyOf(dense[i]) == KeyOf(sparse[j]) && KeyOf(dense[m]) == KeyOf(sparse[n])
    ensures Fused(dense, sparse, k, KeyOf(dense[i])) > Fused(dense, sparse, k, KeyOf(dense[m]))
  {
    ArmScoreAtRank(dense, k, i);
    ArmScoreAtRank(dense, k, m);
    ArmScoreAtRank(sparse, k, j);
    ArmScoreAtRank(sparse, k, n);
    ReciprocalBounds(k, i + 1, m + 1);
    ReciprocalBounds(k, j + 1, n + 1);
  }
}
