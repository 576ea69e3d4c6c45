/** The book labels and citation markers of api/summary.py. */
module CitationLabels {
  import opened Common
  import opened Decimals

  const MAX_LABEL_LEN := 80

  datatype Hit = Hit(book: int, chunkIndex: int, filename: Option<string>)

  // ----- reducing a title -----------------------------------------------------------------

  predicate IsBanned(c: char) {
    c == '[' || c == ']' || c == ':'
  }

  /** The Unicode space separators (category Zs). */
  predicate IsSeparator(c: char) {
    || c == ' ' || c == '\U{A0}' || c == '\U{1680}' || '\U{2000}' <= c <= '\U{200A}'
    || c == '\U{202F}' || c == '\U{205F}' || c == '\U{3000}'
  }

  /** What Python's `str.strip` and `\s` take for white space. */
  predicate IsSpace(c: char) {
    || IsSeparator(c) || '\U{9}' <= c <= '\U{D}' || '\U{1C}' <= c <= '\U{1F}'
    || c == '\U{85}' || c == '\U{2028}' || c == '\U{2029}'
  }

  function Unbanned(s: string): string {
    if s == [] then [] else (if IsBanned(s[0]) then [] else [s[0]]) + Unbanned(s[1..])
  }

  /** Every run of white space becomes one blank. */
  function Collapsed(s: string): string {
    if s == [] then []
    else if !IsSpace(s[0]) then [s[0]] + Collapsed(s[1..])
    else if |s| > 1 && IsSpace(s[1]) then Collapsed(s[1..])
    else " " + Collapsed(s[1..])
  }

  function StripLeft(space: char -> bool, s: string): string {
    if s != [] && space(s[0]) then StripLeft(space, s[1..]) else s
  }

  function StripRight(space: char -> bool, s: string): string {
    if s != [] && space(s[|s| - 1]) then StripRight(space, s[..|s| - 1]) else s
  }

  function Strip(space: char -> bool, s: string): string {
    StripRight(space, StripLeft(space, s))
  }

  function Cleaned(s: string): string {
    Strip(IsSpace, Collapsed(Unbanned(s)))
  }

  function Take(s: string, n: nat): string {
    if |s| <= n then s else s[..n]
  }

  /** The last position of `c`, or -1. */
  function LastIndexOf(s: string, c: char): (i: int)
    ensures -1 <= i < |s|
  {
    if s == [] then -1 else if s[|s| - 1] == c then |s| - 1 else LastIndexOf(s[..|s| - 1], c)
  }

  function Stem(filename: string): string {
    var name := filename[LastIndexOf(filename, '/') + 1..];
    var dot := LastIndexOf(name, '.');
    if dot == -1 then name else name[..dot]
  }

  function LabelFromTitle(title: string, filename: Option<string>, idText: string): string {
    if Cleaned(title) != [] then Strip(IsSpace, Take(Cleaned(title), MAX_LABEL_LEN))
    else if filename.Some? && Cleaned(Stem(filename.value)) != [] then Strip(IsSpace, Take(Cleaned(Stem(filename.value)), MAX_LABEL_LEN))
    else "book-" + Take(idText, 8)
  }

  /** What makes a label safe inside a marker. */
  predicate Clean(tag: string) {
    && tag != [] && !IsSpace(tag[0]) && !IsSpace(tag[|tag| - 1])
    && forall i :: 0 <= i < |tag| ==> !IsBanned(tag[i])
  }

  predicate NoneBanned(s: string) {
    forall i :: 0 <= i < |s| ==> !IsBanned(s[i])
  }

  lemma {:induction false} UnbannedHasNone(s: string)
    ensures NoneBanned(Unbanned(s))
  {
    if s != [] {
      UnbannedHasNone(s[1..]);
    }
  }

  lemma {:induction false} CollapsedKeeps(s: string)
    requires NoneBanned(s)
    ensures NoneBanned(Collapsed(s))
  {
    if s != [] {
      CollapsedKeeps(s[1..]);
    }
  }

  lemma {:induction false} StripLeftKeeps(space: char -> bool, s: string)
    requires NoneBanned(s)
    ensures NoneBanned(StripLeft(space, s)) && |StripLeft(space, s)| <= |s|
    ensures StripLeft(space, s) != [] ==> !space(StripLeft(space, s)[0])
    ensures s != [] && !space(s[0]) ==> StripLeft(space, s) == s
  {
    if s != [] && space(s[0]) {
      StripLeftKeeps(space, s[1..]);
    }
  }

  lemma {:induction false} StripRightKeeps(space: char -> bool, s: string)
    requires NoneBanned(s)
    ensures NoneBanned(StripRight(space, s)) && |StripRight(space, s)| <= |s|
    ensures StripRight(space, s) != [] ==> !space(StripRight(space, s)[|StripRight(space, s)| - 1]) && StripRight(space, s)[0] == s[0]
    ensures s != [] && !space(s[0]) ==> StripRight(space, s) != []
  {
    if s != [] && space(s[|s| - 1]) {
      StripRightKeeps(space, s[..|s| - 1]);
    }
  }

  lemma StripCleans(s: string)
    requires NoneBanned(s)
    ensures Strip(IsSpace, s) != [] ==> Clean(Strip(IsSpace, s))
    ensures s != [] && !IsSpace(s[0]) ==> Strip(IsSpace, s) != []
    ensures |Strip(IsSpace, s)| <= |s|
  {
    StripLeftKeeps(IsSpace, s);
    StripRightKeeps(IsSpace, StripLeft(IsSpace, s));
  }

  lemma CleanedIsClean(s: string)
    ensures Cleaned(s) != [] ==>
              && Clean(Strip(IsSpace, Take(Cleaned(s), MAX_LABEL_LEN)))
              && |Strip(IsSpace, Take(Cleaned(s), MAX_LABEL_LEN))| <= MAX_LABEL_LEN
  {
    UnbannedHasNone(s);
    CollapsedKeeps(Unbanned(s));
    StripCleans(Collapsed(Unbanned(s)));
    if Cleaned(s) != [] {
      assert Clean(Cleaned(s));
      StripCleans(Take(Cleaned(s), MAX_LABEL_LEN));
    }
  }

  /** A printed id: at least eight characters, none of them white space or special. */
  predicate IdText(s: string) {
    |s| >= 8 && forall i :: 0 <= i < |s| ==> !IsBanned(s[i]) && !IsSpace(s[i])
  }

  /** Whatever the title and file name hold, the label can stand in a marker. */
  lemma LabelIsClean(title: string, filename: Option<string>, idText: string)
    requires IdText(idText)
    ensures Clean(LabelFromTitle(title, filename, idText)) && |LabelFromTitle(title, filename, idText)| <= MAX_LABEL_LEN
  {
    CleanedIsClean(title);
    if filename.Some? {
      CleanedIsClean(Stem(filename.value));
    }
  }

  // ----- unique labels ---------------------------------------------------------------------

  /** The k-th label tried for a base. */
  function Candidate(base: string, k: int): string {
    if k <= 1 then base else base + " (" + ToString(k) + ")"
  }

  lemma CandidatesDiffer(base: string, j: int, k: int)
    requires 1 <= j < k
    ensures Candidate(base, j) != Candidate(base, k)
  {
    if j > 1 && Candidate(base, j) == Candidate(base, k) {
      var a, b := Candidate(base, j), Candidate(base, k);
      assert a[|base| + 2..|a| - 1] == ToString(j) && b[|base| + 2..|b| - 1] == ToString(k);
      ToStringInjective(j, k);
    }
  }

  lemma CandidateIsClean(base: string, k: int)
    requires Clean(base)
    ensures Clean(Candidate(base, k))
  {
    if k > 1 {
      DecimalOf(k);
    }
  }

  function Tried(base: string, n: nat): set<string> {
    set k | 1 <= k <= n :: Candidate(base, k)
  }

  lemma {:induction false} TriedCount(base: string, n: nat)
    ensures |Tried(base, n)| == n
  {
    if n == 0 {
      assert Tried(base, 0) == {};
    } else {
      TriedCount(base, n - 1);
      assert Tried(base, n) == Tried(base, n - 1) + {Candidate(base, n)};
      forall j | 1 <= j < n
        ensures Candidate(base, j) != Candidate(base, n)
      {
        CandidatesDiffer(base, j, n);
      }
    }
  }

  lemma SubsetCount<T>(a: set<T>, b: set<T>)
    requires a <= b
    ensures |a| <= |b|
  {
    assert b == a + (b - a);
  }

  /** The suffix loop ends: more candidates than used labels cannot all be used. */
  method FreeLabel(base: string, used: set<string>) returns (tag: string, ghost k: int)
    ensures tag !in used && k >= 1 && tag == Candidate(base, k)
    ensures forall j :: 1 <= j < k ==> Candidate(base, j) in used
  {
    tag := base;
    var suffix := 2;
    while tag in used
      invariant suffix >= 2 && tag == Candidate(base, suffix - 1)
      invariant forall j :: 1 <= j < suffix - 1 ==> Candidate(base, j) in used
      decreases |used| + 2 - suffix
    {
      assert Tried(base, suffix - 1) <= used;
      TriedCount(base, suffix - 1);
      SubsetCount(Tried(base, suffix - 1), used);
      tag := base + " (" + ToString(suffix) + ")";
      suffix := suffix + 1;
    }
    k := suffix - 1;
  }

  function BaseLabel(hit: Hit, titles: map<int, string>, idText: int -> string): string {
    LabelFromTitle(if hit.book in titles then titles[hit.book] else "", hit.filename, idText(hit.book))
  }

  predicate FirstHit(hits: seq<Hit>, i: int) {
    0 <= i < |hits| && forall j :: 0 <= j < i ==> hits[j].book != hits[i].book
  }

  /** The label is the first candidate that was still free, judged by the labels of earlier books. */
  ghost predicate LabelOf(labels: map<int, string>, base: string, tag: string) {
    exists k :: LabelAs(labels, base, tag, k)
  }

  predicate LabelAs(labels: map<int, string>, base: string, tag: string, k: int) {
    k >= 1 && tag == Candidate(base, k) && forall j :: 1 <= j < k ==> Candidate(base, j) in labels.Values
  }

  ghost predicate Distinct(labels: map<int, string>) {
    forall a, b :: a in labels && b in labels && a != b ==> labels[a] != labels[b]
  }

  ghost predicate AllClean(labels: map<int, string>) {
    forall b <- labels :: Clean(labels[b])
  }

  function Books(hits: seq<Hit>): set<int> {
    set h | h in hits :: h.book
  }

  lemma BooksOfMore(hits: seq<Hit>, hit: Hit)
    ensures Books(hits + [hit]) == Books(hits) + {hit.book}
  {
    assert forall h :: h in hits + [hit] <==> h in hits || h == hit;
    assert hit in hits + [hit];
  }

  /** Each book's label is the one its first hit asks for. */
  ghost predicate AsAsked(hits: seq<Hit>, titles: map<int, string>, idText: int -> string, labels: map<int, string>)
    requires labels.Keys == Books(hits)
  {
    forall i :: FirstHit(hits, i) ==> LabelOf(labels, BaseLabel(hits[i], titles, idText), labels[hits[i].book])
  }

  ghost function KeyOf<K, V>(m: map<K, V>, v: V): (k: K)
    requires v in m.Values
    ensures k in m && m[k] == v
  {
    var k :| k in m && m[k] == v;
    k
  }

  lemma LabelStays(labels: map<int, string>, book: int, tag: string, base: string, other: string)
    requires book !in labels && LabelOf(labels, base, other)
    ensures LabelOf(labels[book := tag], base, other)
  {
    var k :| LabelAs(labels, base, other, k);
    assert forall v :: v in labels.Values ==> v in labels[book := tag].Values by {
      forall v | v in labels.Values
        ensures v in labels[book := tag].Values
      {
        ghost var b := KeyOf(labels, v);
        assert b in labels[book := tag] && labels[book := tag][b] == v;
      }
    }
    assert LabelAs(labels[book := tag], base, other, k);
  }

  lemma OneHitMore(hits: seq<Hit>, i: nat)
    requires i < |hits|
    ensures hits[..i] + [hits[i]] == hits[..i + 1]
  {
  }

  /** Every book of the hits has its label, asked for by its first hit. */
  ghost predicate Labelled(hits: seq<Hit>, titles: map<int, string>, idText: int -> string, labels: map<int, string>) {
    labels.Keys == Books(hits) && AsAsked(hits, titles, idText, labels)
  }

  lemma LabelAdded(hits: seq<Hit>, hit: Hit, titles: map<int, string>, idText: int -> string, labels: map<int, string>, tag: string)
    requires Labelled(hits, titles, idText, labels) && hit.book !in labels
    requires LabelOf(labels, BaseLabel(hit, titles, idText), tag)
    ensures Labelled(hits + [hit], titles, idText, labels[hit.book := tag])
  {
    BooksOfMore(hits, hit);
    var all, more := hits + [hit], labels[hit.book := tag];
    forall i | FirstHit(all, i)
      ensures LabelOf(more, BaseLabel(all[i], titles, idText), more[all[i].book])
    {
      if i < |hits| {
        assert all[i] == hits[i] && hits[i].book in Books(hits);
        assert FirstHit(hits, i) by {
          assert forall j :: 0 <= j < i ==> hits[j] == all[j];
        }
        LabelStays(labels, hit.book, tag, BaseLabel(hits[i], titles, idText), labels[hits[i].book]);
      } else {
        LabelStays(labels, hit.book, tag, BaseLabel(hit, titles, idText), tag);
      }
    }
  }

  lemma LabelKept(hits: seq<Hit>, hit: Hit, titles: map<int, string>, idText: int -> string, labels: map<int, string>)
    requires Labelled(hits, titles, idText, labels) && hit.book in labels
    ensures Labelled(hits + [hit], titles, idText, labels)
  {
    BooksOfMore(hits, hit);
    var all := hits + [hit];
    assert hit.book in Books(hits);
    var h :| h in hits && h.book == hit.book;
    forall i | FirstHit(all, i)
      ensures LabelOf(labels, BaseLabel(all[i], titles, idText), labels[all[i].book])
    {
      var j :| 0 <= j < |hits| && hits[j] == h;
      assert all[j] == h;
      assert i < |hits|;
      assert forall j :: 0 <= j < i ==> hits[j] == all[j];
      assert FirstHit(hits, i);
    }
  }

  method AssignBookLabels(hits: seq<Hit>, titles: map<int, string>, idText: int -> string) returns (labels: map<int, string>)
    requires forall b :: IdText(idText(b))
    ensures labels.Keys == Books(hits)
    ensures Distinct(labels) && AllClean(labels) && AsAsked(hits, titles, idText, labels)
  {
    labels := map[];
    var used: set<string> := {};
    for i := 0 to |hits|
      invariant Labelled(hits[..i], titles, idText, labels)
      invariant used == labels.Values && Distinct(labels) && AllClean(labels)
    {
      var hit := hits[i];
      OneHitMore(hits, i);
      if hit.book in labels {
        LabelKept(hits[..i], hit, titles, idText, labels);
        continue;
      }
      var tag := NewLabel(hit, titles, idText, labels, used);
      LabelAdded(hits[..i], hit, titles, idText, labels, tag);
      labels, used := Recorded(labels, used, hit.book, tag);
    }
    assert hits[..|hits|] == hits;
  }

  /** The label of a book not met before. */
  method NewLabel(hit: Hit, titles: map<int, string>, idText: int -> string, ghost labels: map<int, string>, used: set<string>)
    returns (tag: string)
    requires IdText(idText(hit.book)) && used == labels.Values
    ensures tag !in used && Clean(tag) && LabelOf(labels, BaseLabel(hit, titles, idText), tag)
  {
    var base := BaseLabel(hit, titles, idText);
    LabelIsClean(if hit.book in titles then titles[hit.book] else "", hit.filename, idText(hit.book));
    ghost var k;
    tag, k := FreeLabel(base, used);
    CandidateIsClean(base, k);
    assert LabelAs(labels, base, tag, k);
  }

  method Recorded(labels: map<int, string>, used: set<string>, book: int, tag: string)
    returns (more: map<int, string>, nowUsed: set<string>)
    requires used == labels.Values && Distinct(labels) && AllClean(labels)
    requires book !in labels && tag !in used && Clean(tag)
    ensures more == labels[book := tag]
    ensures nowUsed == more.Values && Distinct(more) && AllClean(more)
  {
    more := labels[book := tag];
    nowUsed := used + {tag};
    assert forall b :: b in more <==> b in labels || b == book;
    assert forall b :: b in labels ==> more[b] == labels[b];
    forall v
      ensures v in nowUsed <==> v in more.Values
    {
      if v in labels.Values {
        ghost var b := KeyOf(labels, v);
        assert b in more && more[b] == v;
      } else if v == tag {
        assert book in more && more[book] == v;
      }
    }
    assert forall b <- labels :: labels[b] in used;
  }

  // ----- markers ------------------------------------------------------------------------------

  /** The text between the brackets of a marker. */
  function Inner(tag: string, chunkIndex: int): string {
    tag + ":" + ToString(chunkIndex)
  }

  function Marker(tag: string, chunkIndex: int): string {
    "[" + Inner(tag, chunkIndex) + "]"
  }

  /** The first colon of a marker ends its label. */
  lemma FirstColon(tag: string, k: int)
    requires Clean(tag)
    ensures var s := Inner(tag, k);
            && s[|tag|] == ':' && s[..|tag|] == tag && s[|tag| + 1..] == ToString(k)
            && forall i :: 0 <= i < |tag| ==> s[i] != ':'
  {
  }

  lemma InnerInjective(tagA: string, a: int, tagB: string, b: int)
    requires Clean(tagA) && Clean(tagB) && Inner(tagA, a) == Inner(tagB, b)
    ensures tagA == tagB && a == b
  {
    FirstColon(tagA, a);
    FirstColon(tagB, b);
    assert |tagA| == |tagB|;
    ToStringInjective(a, b);
  }

  /** A marker names one passage: equal markers come from the same book and chunk. */
  lemma MarkersNamePassages(labels: map<int, string>, h: Hit, g: Hit)
    requires Distinct(labels) && AllClean(labels) && h.book in labels && g.book in labels
    ensures Marker(labels[h.book], h.chunkIndex) == Marker(labels[g.book], g.chunkIndex)
            <==> h.book == g.book && h.chunkIndex == g.chunkIndex
  {
    assert Clean(labels[h.book]) && Clean(labels[g.book]);
    var m, n := Marker(labels[h.book], h.chunkIndex), Marker(labels[g.book], g.chunkIndex);
    if m == n {
      assert m[1..|m| - 1] == Inner(labels[h.book], h.chunkIndex) && n[1..|n| - 1] == Inner(labels[g.book], g.chunkIndex);
      InnerInjective(labels[h.book], h.chunkIndex, labels[g.book], g.chunkIndex);
    }
  }
}
