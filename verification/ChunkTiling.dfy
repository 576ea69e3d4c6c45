/** Windows over a text: tilings, the two size caps of worker/chunking.py, and the fewest windows. */
module ChunkTiling {
  /** A half-open window, in absolute offsets of the book's markdown. */
  datatype Span = Span(start: int, end: int)

  /** `spans` are non-empty windows that cover `lo..hi` left to right without gap or overlap. */
  ghost predicate Tiles(spans: seq<Span>, lo: int, hi: int) {
    if spans == [] then lo == hi
    else
      var last := spans[|spans| - 1];
      last.end == hi && last.start < last.end && Tiles(spans[..|spans| - 1], lo, last.start)
  }

  lemma TilesAppend(spans: seq<Span>, lo: int, mid: int, hi: int)
    requires Tiles(spans, lo, mid) && mid < hi
    ensures Tiles(spans + [Span(mid, hi)], lo, hi)
  {
    assert (spans + [Span(mid, hi)])[..|spans|] == spans;
  }

  lemma {:induction false} TilesConcatenate(a: seq<Span>, b: seq<Span>, lo: int, mid: int, hi: int)
    requires Tiles(a, lo, mid) && Tiles(b, mid, hi)
    ensures Tiles(a + b, lo, hi)
  {
    if b == [] {
      assert a + b == a;
    } else {
      var n := |b| - 1;
      TilesConcatenate(a, b[..n], lo, mid, b[n].start);
      assert (a + b)[..|a| + n] == a + b[..n];
    }
  }

  /** What a tiling means index by index. */
  lemma {:induction false} TilesMeaning(spans: seq<Span>, lo: int, hi: int)
    requires Tiles(spans, lo, hi)
    ensures lo <= hi && (spans == [] <==> lo == hi)
    ensures forall k :: 0 <= k < |spans| ==> lo <= spans[k].start < spans[k].end <= hi
    ensures spans != [] ==> spans[0].start == lo && spans[|spans| - 1].end == hi
    ensures forall k :: 0 <= k < |spans| - 1 ==> spans[k].end < hi
  {
    if spans != [] {
      TilesMeaning(spans[..|spans| - 1], lo, spans[|spans| - 1].start);
    }
  }

  lemma TileAt(spans: seq<Span>, lo: int, hi: int, k: nat)
    requires Tiles(spans, lo, hi) && k < |spans|
    ensures lo <= spans[k].start < spans[k].end <= hi
    ensures k == 0 ==> spans[k].start == lo
    ensures k == |spans| - 1 <==> spans[k].end == hi
  {
    TilesMeaning(spans, lo, hi);
  }

  lemma {:induction false} TilesAdjacent(spans: seq<Span>, lo: int, hi: int, k: nat)
    requires Tiles(spans, lo, hi) && 0 < k < |spans|
    ensures spans[k - 1].end == spans[k].start
  {
    if k == |spans| - 1 {
      assert spans[..k] != [];
    } else {
      TilesAdjacent(spans[..|spans| - 1], lo, spans[|spans| - 1].start, k);
    }
  }

  lemma {:induction false} TilesOrdered(spans: seq<Span>, lo: int, hi: int, j: nat, k: nat)
    requires Tiles(spans, lo, hi) && j <= k < |spans|
    ensures spans[j].start < spans[j].end && spans[k].start < spans[k].end
    ensures j < k ==> spans[j].end <= spans[k].start
    ensures spans[j].end <= spans[k].end
  {
    TilesMeaning(spans, lo, hi);
    if j < k {
      TilesOrdered(spans, lo, hi, j, k - 1);
      TilesAdjacent(spans, lo, hi, k);
    }
  }

  // ----- sizes ------------------------------------------------------------------------

  const HARD_MAX_CHUNK_BYTES := 65535
  const MAX_CHUNK_BYTES := 60000

  /** Octets of one code point in UTF-8, section 3 of RFC 3629. */
  function Utf8Width(c: char): (n: nat)
    ensures 1 <= n <= 4
  {
    if c as int < 0x80 then 1 else if c as int < 0x800 then 2 else if c as int < 0x10000 then 3 else 4
  }

  function Utf8Length(s: string): (n: nat)
    ensures |s| <= n <= 4 * |s|
  {
    if s == [] then 0 else Utf8Length(s[..|s| - 1]) + Utf8Width(s[|s| - 1])
  }

  lemma {:induction false} Utf8Additive(a: string, b: string)
    ensures Utf8Length(a + b) == Utf8Length(a) + Utf8Length(b)
  {
    if b == [] {
      assert a + b == a;
    } else {
      assert (a + b)[..|a + b| - 1] == a + b[..|b| - 1];
      Utf8Additive(a, b[..|b| - 1]);
    }
  }

  /** The embedder's tokenizer, and how many content tokens it encodes before it truncates. */
  datatype Embedder = Embedder(tokenCount: string -> nat, maxTokens: nat)

  predicate Fits(e: Embedder, piece: string) {
    Utf8Length(piece) <= HARD_MAX_CHUNK_BYTES && e.tokenCount(piece) <= e.maxTokens
  }

  predicate WindowFits(e: Embedder, text: string, start: int, end: int)
    requires 0 <= start <= end <= |text|
  {
    Fits(e, text[start..end])
  }

  /** One code point never exceeds the token cap (the byte cap it cannot exceed). */
  ghost predicate SinglesFit(e: Embedder) {
    forall c: char :: e.tokenCount([c]) <= e.maxTokens
  }

  /** A part of a window within the token cap is within it too. */
  ghost predicate TokensInherited(e: Embedder, text: string) {
    forall a, b, c, d :: 0 <= a <= b <= c <= d <= |text| && TokensFit(e, text, a, d) ==> TokensFit(e, text, b, c)
  }

  predicate TokensFit(e: Embedder, text: string, start: int, end: int)
    requires 0 <= start <= end <= |text|
  {
    e.tokenCount(text[start..end]) <= e.maxTokens
  }

  lemma FitsInherited(e: Embedder, text: string, a: int, b: int, c: int, d: int)
    requires TokensInherited(e, text) && 0 <= a <= b <= c <= d <= |text|
    requires WindowFits(e, text, a, d)
    ensures WindowFits(e, text, b, c)
  {
    assert text[a..d] == text[a..b] + (text[b..c] + text[c..d]);
    Utf8Additive(text[a..b], text[b..c] + text[c..d]);
    Utf8Additive(text[b..c], text[c..d]);
    assert TokensFit(e, text, a, d) && TokensFit(e, text, b, c);
  }

  /** The code points of a window whose offsets are `base` too large. */
  function Slice(text: string, base: int, s: Span): string
    requires base <= s.start <= s.end <= base + |text|
  {
    text[s.start - base..s.end - base]
  }

  predicate Inside(text: string, base: int, s: Span) {
    base <= s.start < s.end <= base + |text|
  }

  predicate AllInside(text: string, base: int, spans: seq<Span>) {
    forall k :: 0 <= k < |spans| ==> Inside(text, base, spans[k])
  }

  lemma TilesInside(text: string, base: int, spans: seq<Span>, hi: int)
    requires Tiles(spans, base, hi) && hi <= base + |text|
    ensures AllInside(text, base, spans)
  {
    TilesMeaning(spans, base, hi);
  }

  predicate SpanFits(e: Embedder, text: string, base: int, s: Span) {
    Inside(text, base, s) && Fits(e, Slice(text, base, s))
  }

  /** What every window satisfies whatever the tokenizer does: it fits, or is a single code point. */
  predicate Admissible(e: Embedder, text: string, base: int, s: Span) {
    Inside(text, base, s) && (Fits(e, Slice(text, base, s)) || s.end == s.start + 1)
  }

  lemma AdmissibleMeans(e: Embedder, text: string, base: int, s: Span)
    requires Admissible(e, text, base, s)
    ensures Utf8Length(Slice(text, base, s)) <= HARD_MAX_CHUNK_BYTES
    ensures SinglesFit(e) ==> Fits(e, Slice(text, base, s))
  {
    if s.end == s.start + 1 {
      assert Slice(text, base, s) == [text[s.start - base]];
    }
  }

  /** The slices of the windows, joined. */
  function Texts(text: string, base: int, spans: seq<Span>): string {
    if spans == [] then []
    else
      var last := spans[|spans| - 1];
      Texts(text, base, spans[..|spans| - 1]) + if Inside(text, base, last) then Slice(text, base, last) else []
  }

  lemma Spliced(text: string, i: nat, j: nat)
    requires i <= j <= |text|
    ensures text[..i] + text[i..j] == text[..j]
  {
  }

  lemma LastTile(spans: seq<Span>, lo: int, hi: int)
    requires Tiles(spans, lo, hi) && spans != []
    ensures var last := spans[|spans| - 1];
            lo <= last.start < last.end == hi && Tiles(spans[..|spans| - 1], lo, last.start)
  {
    TilesMeaning(spans, lo, hi);
  }

  /** Reading a tiling back gives the text. */
  lemma {:induction false} TilingSpellsText(text: string, base: int, spans: seq<Span>, hi: int)
    requires Tiles(spans, base, hi) && hi <= base + |text|
    ensures base <= hi && Texts(text, base, spans) == text[..hi - base]
  {
    if spans == [] {
      assert text[..0] == [];
    } else {
      var last := spans[|spans| - 1];
      LastTile(spans, base, hi);
      TilingSpellsText(text, base, spans[..|spans| - 1], last.start);
      SpellStep(text, base, spans, hi);
    }
  }

  lemma SpellStep(text: string, base: int, spans: seq<Span>, hi: int)
    requires spans != [] && Inside(text, base, spans[|spans| - 1]) && spans[|spans| - 1].end == hi
    requires Texts(text, base, spans[..|spans| - 1]) == text[..spans[|spans| - 1].start - base]
    ensures Texts(text, base, spans) == text[..hi - base]
  {
    var last := spans[|spans| - 1];
    SplicedBehind(Texts(text, base, spans[..|spans| - 1]), Slice(text, base, last), text, last.start - base, hi - base);
  }

  lemma SplicedBehind(front: string, part: string, text: string, i: nat, j: nat)
    requires i <= j <= |text| && front == text[..i] && part == text[i..j]
    ensures front + part == text[..j]
  {
    Spliced(text, i, j);
  }

  // ----- the fewest windows ----------------------------------------------------------------

  ghost predicate AllFit(e: Embedder, text: string, base: int, spans: seq<Span>) {
    forall k :: 0 <= k < |spans| ==> SpanFits(e, text, base, spans[k])
  }

  /** Every cut of `spans` is allowed. */
  ghost predicate CutsAt(spans: seq<Span>, allowed: int -> bool) {
    forall k :: 0 <= k < |spans| ==> allowed(spans[k].end)
  }

  /** No window but the last can be prolonged to any later allowed cut. */
  ghost predicate Maximal(e: Embedder, text: string, base: int, spans: seq<Span>, allowed: int -> bool) {
    forall k, cut :: 0 <= k < |spans| - 1 && spans[k].end < cut <= base + |text| && allowed(cut)
      ==> !SpanFits(e, text, base, Span(spans[k].start, cut))
  }

  lemma LaterStartFits(e: Embedder, text: string, base: int, s: Span, start: int)
    requires TokensInherited(e, text) && SpanFits(e, text, base, s) && s.start <= start < s.end
    ensures SpanFits(e, text, base, Span(start, s.end))
  {
    FitsInherited(e, text, s.start - base, start - base, s.end - base, s.end - base);
  }

  lemma EarlierEndFits(e: Embedder, text: string, base: int, s: Span, end: int)
    requires TokensInherited(e, text) && SpanFits(e, text, base, s) && s.start < end <= s.end
    ensures SpanFits(e, text, base, Span(s.start, end))
  {
    FitsInherited(e, text, s.start - base, s.start - base, end - base, s.end - base);
  }

  /** A greedy tiling is never behind another one. */
  lemma {:induction false} GreedyStaysAhead(
    e: Embedder, text: string, base: int, spans: seq<Span>, allowed: int -> bool, other: seq<Span>, k: nat)
    requires TokensInherited(e, text)
    requires Tiles(spans, base, base + |text|) && Maximal(e, text, base, spans, allowed)
    requires Tiles(other, base, base + |text|) && AllFit(e, text, base, other) && CutsAt(other, allowed)
    requires k < |spans| && k < |other|
    ensures other[k].end <= spans[k].end
  {
    TilesMeaning(spans, base, base + |text|);
    TilesMeaning(other, base, base + |text|);
    if k > 0 {
      GreedyStaysAhead(e, text, base, spans, allowed, other, k - 1);
      TilesAdjacent(spans, base, base + |text|, k);
      TilesAdjacent(other, base, base + |text|, k);
    }
    var s, o := spans[k], other[k];
    if s.end < o.end {
      assert allowed(o.end) && SpanFits(e, text, base, o);
      LaterStartFits(e, text, base, o, s.start);
    }
  }

  lemma TilesRunOut(spans: seq<Span>, other: seq<Span>, lo: int, hi: int)
    requires Tiles(spans, lo, hi) && Tiles(other, lo, hi)
    requires 0 < |other| < |spans| ==> other[|other| - 1].end <= spans[|other| - 1].end
    ensures |spans| <= |other|
  {
    if |other| < |spans| {
      TileAt(spans, lo, hi, if other == [] then 0 else |other| - 1);
    }
  }

  /** So it has the fewest windows of all tilings that fit and cut at the allowed places. */
  lemma GreedyIsFewest(e: Embedder, text: string, base: int, spans: seq<Span>, allowed: int -> bool, other: seq<Span>)
    requires TokensInherited(e, text)
    requires Tiles(spans, base, base + |text|) && Maximal(e, text, base, spans, allowed)
    requires Tiles(other, base, base + |text|) && AllFit(e, text, base, other) && CutsAt(other, allowed)
    ensures |spans| <= |other|
  {
    if 0 < |other| < |spans| {
      GreedyStaysAhead(e, text, base, spans, allowed, other, |other| - 1);
    }
    TilesRunOut(spans, other, base, base + |text|);
  }
}
