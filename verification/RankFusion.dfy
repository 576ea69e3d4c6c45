/** The loops of rrf_fuse in worker/retrieval.py, and what their result is worth. */
module RankFusion {
  import opened Common
  import opened Ranking
  import opened Retrieval

  /** The dicts of the function; `order` is the insertion order of `scored`. */
  datatype Ledger = Ledger(scored: map<Key, real>, order: seq<Key>, representatives: map<Key, Hit>)

  predicate NoRepeats(keys: seq<Key>) {
    forall i, j :: 0 <= i < j < |keys| ==> keys[i] != keys[j]
  }

  ghost predicate Consistent(l: Ledger) {
    && NoRepeats(l.order) && l.representatives.Keys == l.scored.Keys
    && forall key :: key in l.order <==> key in l.scored
  }

  function Prior(l: Ledger, key: Key): real {
    if key in l.scored then l.scored[key] else 0.0
  }

  function FirstOf(hits: seq<Hit>, key: Key): Option<Hit> {
    if hits == [] then None else if KeyOf(hits[0]) == key then Some(hits[0]) else FirstOf(hits[1..], key)
  }

  /** The score an arm last reported for a key. */
  function LastScore(arm: seq<Hit>, key: Key, scoreOf: Hit -> Option<real>): Option<real> {
    if arm == [] then None
    else
      var last := arm[|arm| - 1];
      if KeyOf(last) == key && scoreOf(last).Some? then scoreOf(last) else LastScore(arm[..|arm| - 1], key, scoreOf)
  }

  /** One hit of rank `rank` enters the dicts. */
  function Credit(l: Ledger, hit: Hit, k: nat, rank: nat): Ledger
    requires rank >= 1
  {
    var key := KeyOf(hit);
    Ledger(l.scored[key := Prior(l, key) + Reciprocal(k, rank)],
           if key in l.scored then l.order else l.order + [key],
           if key in l.representatives then l.representatives else l.representatives[key := hit])
  }

  /** What an arm leaves behind: every key with its contribution added, new keys behind the old ones. */
  ghost predicate Credited(before: Ledger, arm: seq<Hit>, k: nat, after: Ledger) {
    && Consistent(after)
    && (forall key :: key in after.scored <==> key in before.scored || Returned(arm, key))
    && (forall key :: key in after.scored ==> after.scored[key] == Prior(before, key) + ArmScore(arm, k, key))
    && forall key :: key in after.scored ==> Some(after.representatives[key]) == Represent(before, arm, key)
  }

  function Represent(before: Ledger, arm: seq<Hit>, key: Key): Option<Hit> {
    if key in before.representatives then Some(before.representatives[key]) else FirstOf(arm, key)
  }

  lemma CreditConsistent(l: Ledger, hit: Hit, k: nat, rank: nat)
    requires Consistent(l) && rank >= 1
    ensures Consistent(Credit(l, hit, k, rank))
  {
  }

  lemma CreditKeys(before: Ledger, arm: seq<Hit>, k: nat, i: nat, l: Ledger, key: Key)
    requires i < |arm| && (key in l.scored <==> key in before.scored || Returned(arm[..i], key))
    ensures key in Credit(l, arm[i], k, i + 1).scored <==> key in before.scored || Returned(arm[..i + 1], key)
  {
    ReturnedMore(arm, i, key);
  }

  lemma CreditScore(before: Ledger, arm: seq<Hit>, k: nat, i: nat, l: Ledger, key: Key)
    requires i < |arm| && key in Credit(l, arm[i], k, i + 1).scored
    requires key in l.scored <==> key in before.scored || Returned(arm[..i], key)
    requires key in l.scored ==> l.scored[key] == Prior(before, key) + ArmScore(arm[..i], k, key)
    ensures Credit(l, arm[i], k, i + 1).scored[key] == Prior(before, key) + ArmScore(arm[..i + 1], k, key)
  {
    assert arm[..i + 1][..i] == arm[..i];
    if key !in l.scored {
      ArmScoreAbsent(arm[..i], k, key);
    }
  }

  lemma ReturnedMore(arm: seq<Hit>, i: nat, key: Key)
    requires i < |arm|
    ensures Returned(arm[..i + 1], key) <==> Returned(arm[..i], key) || key == KeyOf(arm[i])
  {
    var less, more := arm[..i], arm[..i + 1];
    if Returned(less, key) {
      var j :| 0 <= j < |less| && KeyOf(less[j]) == key;
      assert more[j] == less[j];
    }
    if Returned(more, key) {
      var j :| 0 <= j < |more| && KeyOf(more[j]) == key;
      assert j < i ==> less[j] == more[j];
    }
    assert more[i] == arm[i];
  }

  lemma {:induction false} FirstOfAppend(hits: seq<Hit>, x: Hit, key: Key)
    ensures FirstOf(hits + [x], key)
            == if FirstOf(hits, key).Some? then FirstOf(hits, key) else if KeyOf(x) == key then Some(x) else None
  {
    if hits == [] {
      assert hits + [x] == [x];
    } else {
      assert (hits + [x])[1..] == hits[1..] + [x];
      FirstOfAppend(hits[1..], x, key);
    }
  }

  lemma {:induction false} FirstOfReturned(hits: seq<Hit>, key: Key)
    ensures FirstOf(hits, key).Some? <==> Returned(hits, key)
    ensures FirstOf(hits, key).Some? ==> KeyOf(FirstOf(hits, key).value) == key
  {
    if hits != [] {
      FirstOfReturned(hits[1..], key);
      if Returned(hits, key) && KeyOf(hits[0]) != key {
        var j :| 0 <= j < |hits| && KeyOf(hits[j]) == key;
        assert hits[1..][j - 1] == hits[j];
      }
      if Returned(hits[1..], key) {
        var j :| 0 <= j < |hits[1..]| && KeyOf(hits[1..][j]) == key;
        assert hits[j + 1] == hits[1..][j];
      }
    }
  }

  lemma CreditRepresents(before: Ledger, arm: seq<Hit>, k: nat, i: nat, l: Ledger, key: Key)
    requires i < |arm| && l.representatives.Keys == l.scored.Keys && before.representatives.Keys == before.scored.Keys
    requires key in l.scored <==> key in before.scored || Returned(arm[..i], key)
    requires key in l.scored ==> Some(l.representatives[key]) == Represent(before, arm[..i], key)
    requires key in Credit(l, arm[i], k, i + 1).scored
    ensures key in Credit(l, arm[i], k, i + 1).representatives
    ensures Some(Credit(l, arm[i], k, i + 1).representatives[key]) == Represent(before, arm[..i + 1], key)
  {
    assert arm[..i + 1] == arm[..i] + [arm[i]];
    FirstOfAppend(arm[..i], arm[i], key);
    FirstOfReturned(arm[..i], key);
  }

  /** One hit more. */
  lemma HitCredited(before: Ledger, arm: seq<Hit>, k: nat, i: nat, l: Ledger)
    requires i < |arm| && Consistent(before) && Credited(before, arm[..i], k, l)
    ensures Credited(before, arm[..i + 1], k, Credit(l, arm[i], k, i + 1))
  {
    var after := Credit(l, arm[i], k, i + 1);
    CreditConsistent(l, arm[i], k, i + 1);
    forall key
      ensures key in after.scored <==> key in before.scored || Returned(arm[..i + 1], key)
    {
      CreditKeys(before, arm, k, i, l, key);
    }
    forall key | key in after.scored
      ensures after.scored[key] == Prior(before, key) + ArmScore(arm[..i + 1], k, key)
      ensures Some(after.representatives[key]) == Represent(before, arm[..i + 1], key)
    {
      CreditScore(before, arm, k, i, l, key);
      CreditRepresents(before, arm, k, i, l, key);
    }
  }

  /** `scores` holds the last score the arm reported for each key. */
  ghost predicate Reported(arm: seq<Hit>, scoreOf: Hit -> Option<real>, scores: map<Key, real>) {
    forall key :: LastScore(arm, key, scoreOf) == Get(scores, key)
  }

  lemma HitReported(arm: seq<Hit>, i: nat, scoreOf: Hit -> Option<real>, scores: map<Key, real>)
    requires i < |arm| && Reported(arm[..i], scoreOf, scores)
    ensures Reported(arm[..i + 1], scoreOf,
                     if scoreOf(arm[i]).Some? then scores[KeyOf(arm[i]) := scoreOf(arm[i]).value] else scores)
  {
    var more := if scoreOf(arm[i]).Some? then scores[KeyOf(arm[i]) := scoreOf(arm[i]).value] else scores;
    forall key
      ensures LastScore(arm[..i + 1], key, scoreOf) == Get(more, key)
    {
      assert arm[..i + 1][..i] == arm[..i];
      assert LastScore(arm[..i], key, scoreOf) == Get(scores, key);
    }
  }

  /** One loop of the fusion; `scores` are the scores the arm itself reported. */
  method AddArm(before: Ledger, arm: seq<Hit>, k: nat, scoreOf: Hit -> Option<real>) returns (l: Ledger, scores: map<Key, real>)
    requires Consistent(before)
    ensures Credited(before, arm, k, l)
    ensures Reported(arm, scoreOf, scores)
  {
    l, scores := before, map[];
    NothingCredited(before, k);
    for i := 0 to |arm|
      invariant Credited(before, arm[..i], k, l) && Reported(arm[..i], scoreOf, scores)
    {
      HitCredited(before, arm, k, i, l);
      HitReported(arm, i, scoreOf, scores);
      l := Credit(l, arm[i], k, i + 1);
      if scoreOf(arm[i]).Some? {
        scores := scores[KeyOf(arm[i]) := scoreOf(arm[i]).value];
      }
    }
    assert arm[..|arm|] == arm;
  }

  lemma NothingCredited(before: Ledger, k: nat)
    requires Consistent(before)
    ensures Credited(before, [], k, before)
  {
  }

  // ----- the fused list ------------------------------------------------------------------------

  function Items(keys: seq<Key>, dense: seq<Hit>, sparse: seq<Hit>, k: nat): (items: seq<Scored<Key>>)
    ensures |items| == |keys|
  {
    seq(|keys|, i requires 0 <= i < |keys| => Scored(keys[i], Fused(dense, sparse, k, keys[i])))
  }

  function Ranks(fused: seq<Hit>): (items: seq<Scored<Key>>)
    ensures |items| == |fused|
  {
    seq(|fused|, i requires 0 <= i < |fused| => Scored(KeyOf(fused[i]), fused[i].score))
  }

  function DenseScore(h: Hit): Option<real> {
    h.value.denseScore
  }

  function SparseScore(h: Hit): Option<real> {
    h.value.sparseScore
  }

  /** The passage shown for a key: from the dense arm if it has it, with both arms' own scores. */
  predicate IsMerged(h: Hit, dense: seq<Hit>, sparse: seq<Hit>) {
    var key := KeyOf(h);
    var rep := if Returned(dense, key) then FirstOf(dense, key) else FirstOf(sparse, key);
    && rep.Some?
    && h.value == rep.value.value.(denseScore := LastScore(dense, key, DenseScore), sparseScore := LastScore(sparse, key, SparseScore))
  }

  /** `keys` lists the chunks of both arms once each, and `fused` is the top of them by fused score. */
  ghost predicate IsFusion(fused: seq<Hit>, keys: seq<Key>, dense: seq<Hit>, sparse: seq<Hit>, limit: nat, k: nat) {
    && NoRepeats(keys) && (forall key :: key in keys <==> Returned(dense, key) || Returned(sparse, key))
    && IsTop(Ranks(fused), Items(keys, dense, sparse, k), limit)
    && forall h <- fused :: IsMerged(h, dense, sparse)
  }

  method RrfFuse(dense: seq<Hit>, sparse: seq<Hit>, limit: nat, k: nat) returns (fused: seq<Hit>, ghost keys: seq<Key>)
    ensures IsFusion(fused, keys, dense, sparse, limit, k)
  {
    var start := Ledger(map[], [], map[]);
    var afterDense, denseScores := AddArm(start, dense, k, DenseScore);
    var l, sparseScores := AddArm(afterDense, sparse, k, SparseScore);
    BothCredited(dense, sparse, k, afterDense, l);
    keys := l.order;
    fused := Ranked(l, denseScores, sparseScores, limit, dense, sparse, k);
  }

  /** The dicts hold what the arms say about every key. */
  ghost predicate Tallied(l: Ledger, denseScores: map<Key, real>, sparseScores: map<Key, real>, dense: seq<Hit>, sparse: seq<Hit>, k: nat) {
    && Consistent(l)
    && (forall key :: key in l.scored ==> TalliedKey(l, denseScores, sparseScores, dense, sparse, k, key))
  }

  predicate TalliedKey(l: Ledger, denseScores: map<Key, real>, sparseScores: map<Key, real>,
                       dense: seq<Hit>, sparse: seq<Hit>, k: nat, key: Key)
  {
    && Prior(l, key) == Fused(dense, sparse, k, key)
    && key in l.representatives
    && Some(l.representatives[key]) == (if Returned(dense, key) then FirstOf(dense, key) else FirstOf(sparse, key))
    && LastScore(dense, key, DenseScore) == Get(denseScores, key) && LastScore(sparse, key, SparseScore) == Get(sparseScores, key)
  }

  /** Sorting, cutting, and building the returned hits. */
  method Ranked(l: Ledger, denseScores: map<Key, real>, sparseScores: map<Key, real>, limit: nat,
                ghost dense: seq<Hit>, ghost sparse: seq<Hit>, ghost k: nat) returns (fused: seq<Hit>)
    requires Tallied(l, denseScores, sparseScores, dense, sparse, k)
    ensures IsTop(Ranks(fused), Items(l.order, dense, sparse, k), limit)
    ensures forall h <- fused :: IsMerged(h, dense, sparse)
  {
    var items := ItemsOf(l);
    TalliedItems(l, denseScores, sparseScores, dense, sparse, k);
    TopItems(items, limit);
    var ranked := Cut(Sort(items), limit);
    TopKeys(ranked, items, limit, l);
    fused := Build(ranked, l, denseScores, sparseScores);
    BuiltRanks(fused, ranked, l, denseScores, sparseScores, dense, sparse, k);
    BuiltAreMerged(fused, ranked, l, denseScores, sparseScores, dense, sparse, k);
  }

  lemma BuiltAreMerged(fused: seq<Hit>, ranked: seq<Scored<Key>>, l: Ledger, denseScores: map<Key, real>, sparseScores: map<Key, real>,
                       dense: seq<Hit>, sparse: seq<Hit>, k: nat)
    requires Tallied(l, denseScores, sparseScores, dense, sparse, k) && |fused| == |ranked|
    requires forall item <- ranked :: item.value in l.scored
    requires forall i :: 0 <= i < |ranked| ==> fused[i] == Merge(l, denseScores, sparseScores, ranked[i])
    ensures forall h <- fused :: IsMerged(h, dense, sparse)
  {
    forall i | 0 <= i < |ranked|
      ensures IsMerged(fused[i], dense, sparse)
    {
      BuiltIsMerged(l, denseScores, sparseScores, dense, sparse, k, ranked[i]);
    }
  }

  function Merge(l: Ledger, denseScores: map<Key, real>, sparseScores: map<Key, real>, item: Scored<Key>): Hit
    requires item.value in l.representatives
  {
    var passage := l.representatives[item.value].value;
    Scored(passage.(denseScore := Get(denseScores, item.value), sparseScore := Get(sparseScores, item.value)), item.score)
  }

  method Build(ranked: seq<Scored<Key>>, l: Ledger, denseScores: map<Key, real>, sparseScores: map<Key, real>) returns (fused: seq<Hit>)
    requires forall item <- ranked :: item.value in l.representatives
    ensures |fused| == |ranked| && forall i :: 0 <= i < |ranked| ==> fused[i] == Merge(l, denseScores, sparseScores, ranked[i])
  {
    fused := [];
    for i := 0 to |ranked|
      invariant |fused| == i && forall j :: 0 <= j < i ==> fused[j] == Merge(l, denseScores, sparseScores, ranked[j])
    {
      fused := fused + [Merge(l, denseScores, sparseScores, ranked[i])];
    }
  }

  lemma BuiltIsMerged(l: Ledger, denseScores: map<Key, real>, sparseScores: map<Key, real>,
                      dense: seq<Hit>, sparse: seq<Hit>, k: nat, item: Scored<Key>)
    requires TalliedKey(l, denseScores, sparseScores, dense, sparse, k, item.value)
    ensures KeyOf(Merge(l, denseScores, sparseScores, item)) == item.value
    ensures IsMerged(Merge(l, denseScores, sparseScores, item), dense, sparse)
  {
    FirstOfReturned(dense, item.value);
    FirstOfReturned(sparse, item.value);
  }

  lemma BuiltRanks(fused: seq<Hit>, ranked: seq<Scored<Key>>, l: Ledger, denseScores: map<Key, real>, sparseScores: map<Key, real>,
                   dense: seq<Hit>, sparse: seq<Hit>, k: nat)
    requires Tallied(l, denseScores, sparseScores, dense, sparse, k) && |fused| == |ranked|
    requires forall item <- ranked :: item.value in l.scored
    requires forall i :: 0 <= i < |ranked| ==> fused[i] == Merge(l, denseScores, sparseScores, ranked[i])
    ensures Ranks(fused) == ranked
  {
    forall i | 0 <= i < |ranked|
      ensures Ranks(fused)[i] == ranked[i]
    {
      BuiltIsMerged(l, denseScores, sparseScores, dense, sparse, k, ranked[i]);
    }
  }

  lemma TalliedItems(l: Ledger, denseScores: map<Key, real>, sparseScores: map<Key, real>, dense: seq<Hit>, sparse: seq<Hit>, k: nat)
    requires Tallied(l, denseScores, sparseScores, dense, sparse, k)
    ensures ItemsOf(l) == Items(l.order, dense, sparse, k)
  {
    forall i | 0 <= i < |l.order|
      ensures ItemsOf(l)[i] == Items(l.order, dense, sparse, k)[i]
    {
      assert l.order[i] in l.order;
      assert TalliedKey(l, denseScores, sparseScores, dense, sparse, k, l.order[i]);
    }
  }

  lemma TopKeys(ranked: seq<Scored<Key>>, items: seq<Scored<Key>>, limit: nat, l: Ledger)
    requires Consistent(l) && items == ItemsOf(l) && IsTop(ranked, items, limit)
    ensures forall item <- ranked :: item.value in l.scored
  {
    forall item <- ranked
      ensures item.value in l.scored
    {
      assert item in multiset(ranked);
      assert item in items;
      var i :| 0 <= i < |items| && items[i] == item;
      assert l.order[i] in l.order;
    }
  }

  function Get(scores: map<Key, real>, key: Key): Option<real> {
    if key in scores then Some(scores[key]) else None
  }

  function ItemsOf(l: Ledger): (items: seq<Scored<Key>>)
    requires Consistent(l)
    ensures |items| == |l.order|
  {
    seq(|l.order|, i requires 0 <= i < |l.order| => Item(l, l.order[i]))
  }

  function Item(l: Ledger, key: Key): Scored<Key> {
    Scored(key, Prior(l, key))
  }

  lemma BothCredited(dense: seq<Hit>, sparse: seq<Hit>, k: nat, mid: Ledger, l: Ledger)
    requires Credited(Ledger(map[], [], map[]), dense, k, mid) && Credited(mid, sparse, k, l)
    ensures forall key :: key in l.order <==> Returned(dense, key) || Returned(sparse, key)
    ensures forall key :: key in l.scored ==> l.scored[key] == Fused(dense, sparse, k, key)
    ensures forall key :: key in l.scored ==>
              && key in l.representatives
              && Some(l.representatives[key]) == if Returned(dense, key) then FirstOf(dense, key) else FirstOf(sparse, key)
  {
    forall key | key in l.scored
      ensures l.scored[key] == Fused(dense, sparse, k, key)
    {
      if key !in mid.scored {
        ArmScoreAbsent(dense, k, key);
      }
    }
  }

  lemma TopItems(items: seq<Scored<Key>>, limit: nat)
    ensures IsTop(Cut(Sort(items), limit), items, limit)
  {
    SketchGivesTop(items, items, limit);
  }

  // ----- what the fused list is worth ---------------------------------------------------------------

  /** Each chunk once, scored by both arms together, and no chunk left out scores higher. */
  lemma FusionIsRanking(fused: seq<Hit>, keys: seq<Key>, dense: seq<Hit>, sparse: seq<Hit>, limit: nat, k: nat)
    requires IsFusion(fused, keys, dense, sparse, limit, k)
    ensures |fused| == if |keys| < limit then |keys| else limit
    ensures forall i :: 0 <= i < |fused| ==> fused[i].score == Fused(dense, sparse, k, KeyOf(fused[i])) && KeyOf(fused[i]) in keys
    ensures forall i, j :: 0 <= i < j < |fused| ==> KeyOf(fused[i]) != KeyOf(fused[j]) && fused[i].score >= fused[j].score
    ensures forall key, i :: key in keys && !Returned(fused, key) && 0 <= i < |fused| ==> Fused(dense, sparse, k, key) <= fused[i].score
  {
    var ranks, items := Ranks(fused), Items(keys, dense, sparse, k);
    forall i | 0 <= i < |fused|
      ensures fused[i].score == Fused(dense, sparse, k, KeyOf(fused[i])) && KeyOf(fused[i]) in keys
    {
      RankIsItem(ranks, items, i);
    }
    forall i, j | 0 <= i < j < |fused|
      ensures KeyOf(fused[i]) != KeyOf(fused[j]) && fused[i].score >= fused[j].score
    {
      OnceEach(ranks, items, keys, dense, sparse, k, i, j);
    }
    forall key, i | key in keys && !Returned(fused, key) && 0 <= i < |fused|
      ensures Fused(dense, sparse, k, key) <= fused[i].score
    {
      LeftOutIsLower(fused, keys, dense, sparse, limit, k, key, i);
    }
  }

  lemma RankIsItem(ranks: seq<Scored<Key>>, items: seq<Scored<Key>>, i: nat)
    requires multiset(ranks) <= multiset(items) && i < |ranks|
    ensures ranks[i] in items
  {
    assert ranks[i] in multiset(ranks);
  }

  lemma OnceEach(ranks: seq<Scored<Key>>, items: seq<Scored<Key>>, keys: seq<Key>,
                 dense: seq<Hit>, sparse: seq<Hit>, k: nat, i: nat, j: nat)
    requires multiset(ranks) <= multiset(items) && items == Items(keys, dense, sparse, k) && NoRepeats(keys)
    requires i < j < |ranks|
    ensures ranks[i].value != ranks[j].value
  {
    RankIsItem(ranks, items, i);
    RankIsItem(ranks, items, j);
    if ranks[i].value == ranks[j].value {
      var x := ranks[i];
      assert ranks[j] == x;
      TwiceCounted(ranks, i, j);
      OnceCounted(items, x);
    }
  }

  lemma TwiceCounted(s: seq<Scored<Key>>, i: nat, j: nat)
    requires i < j < |s| && s[i] == s[j]
    ensures multiset(s)[s[i]] >= 2
  {
    assert s == s[..i] + ([s[i]] + (s[i + 1..j] + ([s[j]] + s[j + 1..])));
    assert multiset(s) == multiset(s[..i]) + (multiset{s[i]} + (multiset(s[i + 1..j]) + (multiset{s[j]} + multiset(s[j + 1..]))));
  }

  lemma {:induction false} OnceCounted(items: seq<Scored<Key>>, x: Scored<Key>)
    requires forall i, j :: 0 <= i < j < |items| ==> items[i].value != items[j].value
    ensures multiset(items)[x] <= 1
  {
    if items != [] {
      var before, last := items[..|items| - 1], items[|items| - 1];
      assert items == before + [last];
      OnceCounted(before, x);
      if last == x {
        assert forall i :: 0 <= i < |before| ==> before[i] == items[i];
        assert x !in before;
      }
    }
  }

  lemma RankIsReturned(fused: seq<Hit>, x: Scored<Key>)
    ensures x in Ranks(fused) ==> Returned(fused, x.value)
  {
    if x in Ranks(fused) {
      var m :| 0 <= m < |fused| && Ranks(fused)[m] == x;
      assert KeyOf(fused[m]) == x.value;
    }
  }

  lemma LeftOutIsLower(fused: seq<Hit>, keys: seq<Key>, dense: seq<Hit>, sparse: seq<Hit>, limit: nat, k: nat, key: Key, i: nat)
    requires IsFusion(fused, keys, dense, sparse, limit, k) && key in keys && !Returned(fused, key) && i < |fused|
    ensures Fused(dense, sparse, k, key) <= fused[i].score
  {
    var ranks, items := Ranks(fused), Items(keys, dense, sparse, k);
    var j :| 0 <= j < |keys| && keys[j] == key;
    assert items[j] in multiset(items);
    RankIsReturned(fused, items[j]);
    assert ranks[i] in ranks;
  }

  /** In the fused list every chunk of both arms stands before every chunk of one arm only. */
  lemma BothArmsFirst(fused: seq<Hit>, keys: seq<Key>, dense: seq<Hit>, sparse: seq<Hit>, limit: nat, k: nat, both: Key, i: nat)
    requires IsFusion(fused, keys, dense, sparse, limit, k)
    requires DistinctKeys(dense) && DistinctKeys(sparse) && |dense| <= k + 1 && |sparse| <= k + 1
    requires Returned(dense, both) && Returned(sparse, both)
    requires i < |fused| && Returned(dense, KeyOf(fused[i])) != Returned(sparse, KeyOf(fused[i]))
    ensures exists j :: 0 <= j < i && KeyOf(fused[j]) == both
  {
    FusionIsRanking(fused, keys, dense, sparse, limit, k);
    BothArmsBeatOne(dense, sparse, k, both, KeyOf(fused[i]));
    assert both in keys;
    assert Returned(fused, both);
    var j :| 0 <= j < |fused| && KeyOf(fused[j]) == both;
    assert j != i && !(i < j);
  }

  /** So it is with the constants of the search: two arms of thirty hits each against sixty. */
  lemma SearchRanksBothArmsFirst(fused: seq<Hit>, keys: seq<Key>, dense: seq<Hit>, sparse: seq<Hit>, limit: nat, both: Key, i: nat)
    requires IsFusion(fused, keys, dense, sparse, limit, RRF_K)
    requires DistinctKeys(dense) && DistinctKeys(sparse) && |dense| <= DENSE_FANOUT && |sparse| <= SPARSE_FANOUT
    requires Returned(dense, both) && Returned(sparse, both)
    requires i < |fused| && Returned(dense, KeyOf(fused[i])) != Returned(sparse, KeyOf(fused[i]))
    ensures exists j :: 0 <= j < i && KeyOf(fused[j]) == both
  {
    BothArmsFirst(fused, keys, dense, sparse, limit, RRF_K, both, i);
  }
}
