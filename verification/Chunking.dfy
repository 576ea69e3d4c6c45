/** The oversized-chunk splitter of worker/chunking.py. */
module Chunking {
  import opened Common
  import opened ChunkTiling

  datatype Chunk = Chunk(text: string, startIdx: int, endIdx: int, parentSection: Option<string>)

  // ----- sentences -------------------------------------------------------------------

  /** Punkt's span starts: increasing offsets into the text. */
  predicate Increasing(starts: seq<int>, n: int) {
    (forall i :: 0 <= i < |starts| ==> 0 <= starts[i] <= n) && forall i, j :: 0 <= i < j < |starts| ==> starts[i] <= starts[j]
  }

  /** Each start paired with the next one, or with `end`; empty pairs are dropped. */
  function Pair(starts: seq<int>, end: int): seq<Span> {
    if starts == [] then []
    else
      var last := starts[|starts| - 1];
      Pair(starts[..|starts| - 1], last) + (if last < end then [Span(last, end)] else [])
  }

  /** Anchored at 0, so that leading white space goes to the first sentence. */
  function Anchored(starts: seq<int>): seq<int> {
    if starts == [] then [0] else if starts[0] != 0 then [0] + starts else starts
  }

  function SentenceSpans(text: string, starts: seq<int>): seq<Span> {
    if text == [] then [] else Pair(Anchored(starts), |text|)
  }

  lemma AnchoredIncreases(starts: seq<int>, n: int)
    requires Increasing(starts, n) && n >= 0
    ensures Increasing(Anchored(starts), n) && Anchored(starts) != [] && Anchored(starts)[0] == 0
  {
  }

  lemma {:induction false} PairTiles(starts: seq<int>, end: int)
    requires Increasing(starts, end) && (if starts == [] then end == 0 else starts[0] == 0)
    ensures Tiles(Pair(starts, end), 0, end)
  {
    if starts != [] {
      var n := |starts| - 1;
      FrontIncreases(starts, end);
      PairTiles(starts[..n], starts[n]);
      OnePairMore(Pair(starts[..n], starts[n]), starts[n], end);
    }
  }

  lemma FrontIncreases(starts: seq<int>, end: int)
    requires Increasing(starts, end) && starts != [] && starts[0] == 0
    ensures var n := |starts| - 1;
            starts[n] <= end && Increasing(starts[..n], starts[n]) && (if starts[..n] == [] then starts[n] == 0 else starts[..n][0] == 0)
  {
  }

  lemma OnePairMore(before: seq<Span>, last: int, end: int)
    requires Tiles(before, 0, last) && last <= end
    ensures Tiles(before + (if last < end then [Span(last, end)] else []), 0, end)
  {
    if last < end {
      TilesAppend(before, 0, last, end);
    } else {
      assert before + [] == before;
    }
  }

  lemma SentencesTile(text: string, starts: seq<int>)
    requires Increasing(starts, |text|)
    ensures Tiles(SentenceSpans(text, starts), 0, |text|)
  {
    AnchoredIncreases(starts, |text|);
    if text != [] {
      PairTiles(Anchored(starts), |text|);
    }
  }

  /** Joining the slices of the sentences gives the text back. */
  lemma SentencesSpellText(text: string, starts: seq<int>, spans: seq<Span>)
    requires Increasing(starts, |text|) && spans == SentenceSpans(text, starts)
    ensures AllInside(text, 0, spans) && Texts(text, 0, spans) == text
  {
    SentencesTile(text, starts);
    TilesSpell(text, spans);
  }

  lemma TilesSpell(text: string, spans: seq<Span>)
    requires Tiles(spans, 0, |text|)
    ensures AllInside(text, 0, spans) && Texts(text, 0, spans) == text
  {
    TilesInside(text, 0, spans, |text|);
    TilingSpellsText(text, 0, spans, |text|);
  }

  // ----- hard windows -----------------------------------------------------------------

  /** One more code point would overflow every window that is not the last. */
  ghost predicate OneMoreOverflows(e: Embedder, text: string, base: int, windows: seq<Span>) {
    forall k :: 0 <= k < |windows| && windows[k].end < base + |text|
      ==> !SpanFits(e, text, base, Span(windows[k].start, windows[k].end + 1))
  }

  ghost predicate AllAdmissible(e: Embedder, text: string, base: int, spans: seq<Span>) {
    forall k :: 0 <= k < |spans| ==> Admissible(e, text, base, spans[k])
  }

  ghost predicate IsHardSplit(e: Embedder, text: string, base: int, windows: seq<Span>) {
    HardSplitTo(e, text, base, windows, base + |text|)
  }

  ghost predicate HardSplitTo(e: Embedder, text: string, base: int, windows: seq<Span>, hi: int) {
    && Tiles(windows, base, hi) && AllAdmissible(e, text, base, windows)
    && (SinglesFit(e) ==> OneMoreOverflows(e, text, base, windows))
  }

  method HardWindows(e: Embedder, text: string, startOffset: int) returns (windows: seq<Span>)
    ensures IsHardSplit(e, text, startOffset, windows)
  {
    windows := [];
    var n := |text|;
    var i := 0;
    while i < n
      invariant 0 <= i <= n && HardSplitTo(e, text, startOffset, windows, startOffset + i)
    {
      var best := FittingEnd(e, text, startOffset, i);
      WindowAdded(e, text, startOffset, windows, Span(startOffset + i, startOffset + best));
      windows := windows + [Span(startOffset + i, startOffset + best)];
      i := best;
    }
  }

  lemma WindowAdded(e: Embedder, text: string, base: int, windows: seq<Span>, w: Span)
    requires HardSplitTo(e, text, base, windows, w.start) && Admissible(e, text, base, w)
    requires SinglesFit(e) && w.end < base + |text| ==> !SpanFits(e, text, base, Span(w.start, w.end + 1))
    ensures HardSplitTo(e, text, base, windows + [w], w.end)
  {
    TilesAppend(windows, base, w.start, w.end);
    assert windows + [w] == windows + [Span(w.start, w.end)];
    if SinglesFit(e) {
      OverflowAdded(e, text, base, windows, w);
    }
  }

  lemma OverflowAdded(e: Embedder, text: string, base: int, windows: seq<Span>, w: Span)
    requires OneMoreOverflows(e, text, base, windows)
    requires w.end < base + |text| ==> !SpanFits(e, text, base, Span(w.start, w.end + 1))
    ensures OneMoreOverflows(e, text, base, windows + [w])
  {
  }

  /** The inner loop: binary search for the end of the window that starts at `i`. */
  method FittingEnd(e: Embedder, text: string, base: int, i: int) returns (best: int)
    requires 0 <= i < |text|
    ensures i < best <= |text|
    ensures Admissible(e, text, base, Span(base + i, base + best))
    ensures SinglesFit(e) && best < |text| ==> !SpanFits(e, text, base, Span(base + i, base + best + 1))
  {
    var n := |text|;
    var lo, hi;
    lo, hi, best := i + 1, n, i + 1;
    while lo <= hi
      invariant i + 1 <= lo <= hi + 1 <= n + 1
      invariant best == if lo == i + 1 then i + 1 else lo - 1
      invariant lo > i + 1 ==> WindowFits(e, text, i, best)
      invariant hi < n ==> !WindowFits(e, text, i, hi + 1)
    {
      var mid := (lo + hi) / 2;
      if WindowFits(e, text, i, mid) {
        best := mid;
        lo := mid + 1;
      } else {
        hi := mid - 1;
      }
    }
    CutIsTight(e, text, base, i, hi, best);
  }

  /** Where the binary search stops, one more code point does not fit, however the token count behaves. */
  lemma CutIsTight(e: Embedder, text: string, base: int, i: int, hi: int, best: int)
    requires 0 <= i <= hi <= |text| && i < |text| && best == if hi == i then i + 1 else hi
    requires hi > i ==> WindowFits(e, text, i, hi) || hi == i + 1
    requires hi < |text| ==> !WindowFits(e, text, i, hi + 1)
    ensures Admissible(e, text, base, Span(base + i, base + best))
    ensures SinglesFit(e) && best < |text| ==> !SpanFits(e, text, base, Span(base + i, base + best + 1))
  {
    ghost var one := text[i..i + 1];
    assert one == [text[i]];
  }

  /** When the token cap is inherited by parts, each window is exactly the longest prefix that fits. */
  lemma WindowsAreLongestPrefixes(e: Embedder, text: string, base: int, windows: seq<Span>, k: nat, cut: int)
    requires TokensInherited(e, text) && SinglesFit(e) && IsHardSplit(e, text, base, windows)
    requires k < |windows| && windows[k].start < cut <= base + |text|
    ensures SpanFits(e, text, base, Span(windows[k].start, cut)) <==> cut <= windows[k].end
  {
    TileAt(windows, base, base + |text|, k);
    assert Admissible(e, text, base, windows[k]);
    if cut <= windows[k].end {
      PrefixFits(e, text, base, windows[k], cut);
    } else {
      LongerOverflows(e, text, base, windows[k], cut);
    }
  }

  lemma PrefixFits(e: Embedder, text: string, base: int, w: Span, cut: int)
    requires TokensInherited(e, text) && SinglesFit(e) && Admissible(e, text, base, w) && w.start < cut <= w.end
    ensures SpanFits(e, text, base, Span(w.start, cut))
  {
    AdmissibleMeans(e, text, base, w);
    EarlierEndFits(e, text, base, w, cut);
  }

  lemma LongerOverflows(e: Embedder, text: string, base: int, w: Span, cut: int)
    requires TokensInherited(e, text) && Inside(text, base, w) && w.end < cut <= base + |text|
    requires !SpanFits(e, text, base, Span(w.start, w.end + 1))
    ensures !SpanFits(e, text, base, Span(w.start, cut))
  {
    if SpanFits(e, text, base, Span(w.start, cut)) {
      EarlierEndFits(e, text, base, Span(w.start, cut), w.end + 1);
    }
  }

  /** No contiguous split of the sentence into fitting windows is shorter. */
  lemma HardWindowsAreFewest(e: Embedder, text: string, base: int, windows: seq<Span>, other: seq<Span>)
    requires TokensInherited(e, text) && SinglesFit(e) && IsHardSplit(e, text, base, windows)
    requires Tiles(other, base, base + |text|) && AllFit(e, text, base, other)
    ensures |windows| <= |other|
  {
    var anywhere := (c: int) => true;
    forall k, cut | 0 <= k < |windows| - 1 && windows[k].end < cut <= base + |text| && anywhere(cut)
      ensures !SpanFits(e, text, base, Span(windows[k].start, cut))
    {
      TileAt(windows, base, base + |text|, k);
      WindowsAreLongestPrefixes(e, text, base, windows, k, cut);
    }
    GreedyIsFewest(e, text, base, windows, anywhere, other);
  }

  // ----- atoms ------------------------------------------------------------------------------

  function Flatten<T>(groups: seq<seq<T>>): seq<T> {
    if groups == [] then [] else Flatten(groups[..|groups| - 1]) + groups[|groups| - 1]
  }

  lemma FlattenAppend<T>(groups: seq<seq<T>>, g: seq<T>)
    ensures Flatten(groups + [g]) == Flatten(groups) + g
  {
    assert (groups + [g])[..|groups|] == groups;
  }

  /** What becomes of one sentence: itself where it fits, otherwise hard windows. */
  ghost predicate IsAtoms(e: Embedder, text: string, base: int, sentence: Span, atoms: seq<Span>)
    requires Inside(text, 0, sentence)
  {
    if WindowFits(e, text, sentence.start, sentence.end)
    then atoms == [Span(base + sentence.start, base + sentence.end)]
    else IsHardSplit(e, text[sentence.start..sentence.end], base + sentence.start, atoms)
  }

  lemma AtomsOfSentence(e: Embedder, text: string, base: int, s: Span, atoms: seq<Span>)
    requires Inside(text, 0, s) && IsAtoms(e, text, base, s, atoms)
    ensures Tiles(atoms, base + s.start, base + s.end)
    ensures AllAdmissible(e, text, base, atoms)
  {
    if WindowFits(e, text, s.start, s.end) {
      OneAtom(e, text, base, s);
    } else {
      HardAtoms(e, text, base, s, atoms);
    }
  }

  lemma OneAtom(e: Embedder, text: string, base: int, s: Span)
    requires Inside(text, 0, s) && WindowFits(e, text, s.start, s.end)
    ensures Tiles([Span(base + s.start, base + s.end)], base + s.start, base + s.end)
    ensures AllAdmissible(e, text, base, [Span(base + s.start, base + s.end)])
  {
    TilesAppend([], base + s.start, base + s.start, base + s.end);
    assert [] + [Span(base + s.start, base + s.end)] == [Span(base + s.start, base + s.end)];
  }

  lemma HardAtoms(e: Embedder, text: string, base: int, s: Span, atoms: seq<Span>)
    requires Inside(text, 0, s) && IsHardSplit(e, text[s.start..s.end], base + s.start, atoms)
    ensures Tiles(atoms, base + s.start, base + s.end)
    ensures AllAdmissible(e, text, base, atoms)
  {
    forall k | 0 <= k < |atoms|
      ensures Admissible(e, text, base, atoms[k])
    {
      assert Admissible(e, text[s.start..s.end], base + s.start, atoms[k]);
      AdmissibleInText(e, text, base, s, atoms[k]);
    }
  }

  lemma AdmissibleInText(e: Embedder, text: string, base: int, s: Span, a: Span)
    requires Inside(text, 0, s) && Admissible(e, text[s.start..s.end], base + s.start, a)
    ensures Admissible(e, text, base, a)
  {
    SliceOfPart(text, s.start, s.end, a.start - base - s.start, a.end - base - s.start);
  }

  lemma SliceOfPart(s: string, a: int, b: int, c: int, d: int)
    requires 0 <= a <= b <= |s| && 0 <= c <= d <= b - a
    ensures s[a..b][c..d] == s[a + c..a + d]
  {
    assert forall i :: 0 <= i < d - c ==> s[a..b][c..d][i] == s[a + c..a + d][i];
  }

  // ----- packing ------------------------------------------------------------------------------

  function SpanOf(c: Chunk): Span {
    Span(c.startIdx, c.endIdx)
  }

  function SpansOf(chunks: seq<Chunk>): (spans: seq<Span>)
    ensures |spans| == |chunks|
  {
    seq(|chunks|, i requires 0 <= i < |chunks| => SpanOf(chunks[i]))
  }

  /** A chunk that is a true window of the text and within the byte cap. */
  predicate IsWindow(e: Embedder, text: string, base: int, section: Option<string>, c: Chunk) {
    Admissible(e, text, base, SpanOf(c)) && c.text == Slice(text, base, SpanOf(c)) && c.parentSection == section
  }

  ghost predicate AllWindows(e: Embedder, text: string, base: int, section: Option<string>, chunks: seq<Chunk>) {
    forall k :: 0 <= k < |chunks| ==> IsWindow(e, text, base, section, chunks[k])
  }

  ghost predicate IsSplit(e: Embedder, text: string, base: int, section: Option<string>, chunks: seq<Chunk>) {
    Tiles(SpansOf(chunks), base, base + |text|) && AllWindows(e, text, base, section, chunks)
  }

  predicate IsCut(atoms: seq<Span>, cut: int) {
    exists j :: 0 <= j < |atoms| && atoms[j].end == cut
  }

  /** Every run ends where an atom ends, and the atom after it would have overflowed it. */
  ghost predicate IsPacking(e: Embedder, text: string, base: int, atoms: seq<Span>, runs: seq<Span>) {
    && (forall k :: 0 <= k < |runs| ==> IsCut(atoms, runs[k].end))
    && forall k, j :: 0 <= k < |runs| && 0 <= j < |atoms| && atoms[j].start == runs[k].end
         ==> !SpanFits(e, text, base, Span(runs[k].start, atoms[j].end))
  }

  /** The chunks closed so far reach `lo`, and the atoms say why each was closed. */
  ghost predicate Closed(e: Embedder, text: string, base: int, section: Option<string>, atoms: seq<Span>, chunks: seq<Chunk>, lo: int) {
    && Tiles(SpansOf(chunks), base, lo)
    && AllWindows(e, text, base, section, chunks)
    && IsPacking(e, text, base, atoms, SpansOf(chunks))
  }

  lemma RunClosed(e: Embedder, text: string, base: int, section: Option<string>, atoms: seq<Span>, chunks: seq<Chunk>, c: Chunk, k: nat)
    requires Closed(e, text, base, section, atoms, chunks, c.startIdx)
    requires IsWindow(e, text, base, section, c)
    requires Tiles(atoms, base, base + |text|) && 0 < k <= |atoms| && atoms[k - 1].end == c.endIdx
    requires k < |atoms| ==> !SpanFits(e, text, base, Span(c.startIdx, atoms[k].end))
    ensures Closed(e, text, base, section, atoms, chunks + [c], c.endIdx)
  {
    var runs := SpansOf(chunks);
    TilesAppend(runs, base, c.startIdx, c.endIdx);
    assert SpansOf(chunks + [c]) == runs + [SpanOf(c)];
    assert IsCut(atoms, c.endIdx);
    forall j | 0 <= j < |atoms| && atoms[j].start == c.endIdx
      ensures !SpanFits(e, text, base, Span(c.startIdx, atoms[j].end))
    {
      OnlyNextStarts(atoms, base, base + |text|, k, j);
    }
    RunAdded(e, text, base, atoms, runs, SpanOf(c));
  }

  /** Where atom `k - 1` ends only atom `k` starts. */
  lemma OnlyNextStarts(atoms: seq<Span>, lo: int, hi: int, k: nat, j: nat)
    requires Tiles(atoms, lo, hi) && 0 < k <= |atoms| && j < |atoms| && atoms[j].start == atoms[k - 1].end
    ensures j == k
  {
    if j < k {
      TilesOrdered(atoms, lo, hi, j, k - 1);
    } else if k < j {
      TilesOrdered(atoms, lo, hi, k, j);
      TilesOrdered(atoms, lo, hi, k - 1, k);
    }
  }

  lemma RunAdded(e: Embedder, text: string, base: int, atoms: seq<Span>, runs: seq<Span>, run: Span)
    requires IsPacking(e, text, base, atoms, runs) && IsCut(atoms, run.end)
    requires forall j :: 0 <= j < |atoms| && atoms[j].start == run.end ==> !SpanFits(e, text, base, Span(run.start, atoms[j].end))
    ensures IsPacking(e, text, base, atoms, runs + [run])
  {
  }

  /** The open run `start..end` ends with atom `k - 1`, and everything before it is closed. */
  ghost predicate Open(e: Embedder, text: string, base: int, section: Option<string>, atoms: seq<Span>, chunks: seq<Chunk>,
                       k: nat, start: int, end: int)
  {
    && Closed(e, text, base, section, atoms, chunks, start)
    && Admissible(e, text, base, Span(start, end)) && 0 < k <= |atoms| && atoms[k - 1].end == end
  }

  lemma FirstRun(e: Embedder, text: string, base: int, section: Option<string>, atoms: seq<Span>)
    requires Tiles(atoms, base, base + |text|) && AllAdmissible(e, text, base, atoms) && atoms != []
    ensures Open(e, text, base, section, atoms, [], 1, atoms[0].start, atoms[0].end)
  {
    TileAt(atoms, base, base + |text|, 0);
  }

  lemma AtomFollows(e: Embedder, text: string, base: int, section: Option<string>, atoms: seq<Span>, chunks: seq<Chunk>,
                    k: nat, start: int, end: int)
    requires Tiles(atoms, base, base + |text|) && Open(e, text, base, section, atoms, chunks, k, start, end) && k < |atoms|
    ensures base <= start < end == atoms[k].start < atoms[k].end <= base + |text|
  {
    TilesAdjacent(atoms, base, base + |text|, k);
    TileAt(atoms, base, base + |text|, k);
  }

  lemma Prolonged(e: Embedder, text: string, base: int, section: Option<string>, atoms: seq<Span>, chunks: seq<Chunk>,
                  k: nat, start: int, end: int)
    requires Open(e, text, base, section, atoms, chunks, k, start, end) && k < |atoms|
    requires base <= start < atoms[k].end <= base + |text| && Fits(e, text[start - base..atoms[k].end - base])
    ensures Open(e, text, base, section, atoms, chunks, k + 1, start, atoms[k].end)
  {
  }

  /** One round of the packing loop, once a run is open: atom `k` prolongs the run or closes it. */
  method TakeAtom(e: Embedder, text: string, base: int, section: Option<string>, pieces: seq<Span>, subChunks: seq<Chunk>,
                  k: nat, runStart: int, runEnd: int) returns (more: seq<Chunk>, newStart: int, newEnd: int)
    requires Tiles(pieces, base, base + |text|) && AllAdmissible(e, text, base, pieces) && k < |pieces|
    requires Open(e, text, base, section, pieces, subChunks, k, runStart, runEnd)
    ensures Open(e, text, base, section, pieces, more, k + 1, newStart, newEnd)
  {
    var Span(absStart, absEnd) := pieces[k];
    AtomFollows(e, text, base, section, pieces, subChunks, k, runStart, runEnd);
    var candidate := text[runStart - base..absEnd - base];
    if !Fits(e, candidate) {
      more := CloseThenOpen(e, text, base, section, pieces, subChunks, k, runStart, runEnd);
      newStart, newEnd := absStart, absEnd;
    } else {
      Prolonged(e, text, base, section, pieces, subChunks, k, runStart, runEnd);
      more, newStart, newEnd := subChunks, runStart, absEnd;
    }
  }

  method Pack(e: Embedder, text: string, base: int, section: Option<string>, pieces: seq<Span>) returns (subChunks: seq<Chunk>)
    requires Tiles(pieces, base, base + |text|) && AllAdmissible(e, text, base, pieces)
    ensures Closed(e, text, base, section, pieces, subChunks, base + |text|)
  {
    subChunks := [];
    if pieces == [] {
      return;
    }
    FirstRun(e, text, base, section, pieces);
    var runStart, runEnd := pieces[0].start, pieces[0].end;
    for k := 1 to |pieces|
      invariant Open(e, text, base, section, pieces, subChunks, k, runStart, runEnd)
    {
      subChunks, runStart, runEnd := TakeAtom(e, text, base, section, pieces, subChunks, k, runStart, runEnd);
    }
    subChunks := CloseRun(e, text, base, section, pieces, subChunks, |pieces|, runStart, runEnd);
  }

  lemma OpenNext(e: Embedder, text: string, base: int, section: Option<string>, atoms: seq<Span>, chunks: seq<Chunk>, k: nat)
    requires Tiles(atoms, base, base + |text|) && AllAdmissible(e, text, base, atoms) && 0 < k < |atoms|
    requires Closed(e, text, base, section, atoms, chunks, atoms[k - 1].end)
    ensures Open(e, text, base, section, atoms, chunks, k + 1, atoms[k].start, atoms[k].end)
  {
    TilesAdjacent(atoms, base, base + |text|, k);
  }

  method CloseThenOpen(e: Embedder, text: string, base: int, section: Option<string>, ghost atoms: seq<Span>, chunks: seq<Chunk>,
                       ghost k: nat, start: int, end: int) returns (more: seq<Chunk>)
    requires Tiles(atoms, base, base + |text|) && AllAdmissible(e, text, base, atoms) && k < |atoms|
    requires Open(e, text, base, section, atoms, chunks, k, start, end)
    requires !SpanFits(e, text, base, Span(start, atoms[k].end))
    ensures Open(e, text, base, section, atoms, more, k + 1, atoms[k].start, atoms[k].end)
  {
    more := CloseRun(e, text, base, section, atoms, chunks, k, start, end);
    OpenNext(e, text, base, section, atoms, more, k);
  }

  /** Emits the open run as a sub-chunk. */
  method CloseRun(e: Embedder, text: string, base: int, section: Option<string>, ghost atoms: seq<Span>, chunks: seq<Chunk>,
                  ghost k: nat, start: int, end: int) returns (more: seq<Chunk>)
    requires Tiles(atoms, base, base + |text|)
    requires Open(e, text, base, section, atoms, chunks, k, start, end)
    requires k < |atoms| ==> !SpanFits(e, text, base, Span(start, atoms[k].end))
    ensures Closed(e, text, base, section, atoms, more, end)
  {
    var chunk := Chunk(text[start - base..end - base], start, end, section);
    RunClosed(e, text, base, section, atoms, chunks, chunk, k);
    more := chunks + [chunk];
  }

  lemma SentenceEnd(sentences: seq<Span>, n: int, k: nat)
    requires Tiles(sentences, 0, n) && k < |sentences|
    ensures 0 <= sentences[k].start < sentences[k].end <= n
    ensures sentences[k].end == if k == |sentences| - 1 then n else sentences[k + 1].start
  {
    TileAt(sentences, 0, n, k);
    if k < |sentences| - 1 {
      TilesAdjacent(sentences, 0, n, k + 1);
    }
  }

  ghost predicate AtomsOk(e: Embedder, text: string, base: int, sentences: seq<Span>, groups: seq<seq<Span>>) {
    && |groups| <= |sentences|
    && forall k :: 0 <= k < |groups| ==> AtomsAt(e, text, base, sentences[k], groups[k])
  }

  ghost predicate AtomsAt(e: Embedder, text: string, base: int, sentence: Span, atoms: seq<Span>) {
    Inside(text, 0, sentence) && IsAtoms(e, text, base, sentence, atoms)
  }

  method SentenceAtoms(e: Embedder, text: string, base: int, s: Span) returns (atoms: seq<Span>)
    requires Inside(text, 0, s)
    ensures AtomsAt(e, text, base, s, atoms)
  {
    if !WindowFits(e, text, s.start, s.end) {
      atoms := HardWindows(e, text[s.start..s.end], base + s.start);
    } else {
      atoms := [Span(base + s.start, base + s.end)];
    }
  }

  /** The atoms of the first `|groups|` sentences tile the text up to `hi`. */
  ghost predicate AtomsTo(e: Embedder, text: string, base: int, sentences: seq<Span>, groups: seq<seq<Span>>, hi: int) {
    && AtomsOk(e, text, base, sentences, groups)
    && Tiles(Flatten(groups), base, base + hi) && AllAdmissible(e, text, base, Flatten(groups))
  }

  lemma GroupAdded(e: Embedder, text: string, base: int, sentences: seq<Span>, groups: seq<seq<Span>>, atoms: seq<Span>)
    requires AtomsOk(e, text, base, sentences, groups) && |groups| < |sentences|
    requires AtomsAt(e, text, base, sentences[|groups|], atoms)
    ensures AtomsOk(e, text, base, sentences, groups + [atoms])
  {
    var more := groups + [atoms];
    forall k | 0 <= k < |more|
      ensures AtomsAt(e, text, base, sentences[k], more[k])
    {
      assert more[k] == if k < |groups| then groups[k] else atoms;
    }
  }

  lemma PiecesAdded(e: Embedder, text: string, base: int, pieces: seq<Span>, atoms: seq<Span>, s: Span, all: seq<Span>)
    requires Tiles(pieces, base, base + s.start) && AllAdmissible(e, text, base, pieces)
    requires AtomsAt(e, text, base, s, atoms) && all == pieces + atoms
    ensures Tiles(all, base, base + s.end) && AllAdmissible(e, text, base, all)
  {
    AtomsOfSentence(e, text, base, s, atoms);
    TilesConcatenate(pieces, atoms, base, base + s.start, base + s.end);
    AdmissibleAdded(e, text, base, pieces, atoms);
  }

  lemma AdmissibleAdded(e: Embedder, text: string, base: int, a: seq<Span>, b: seq<Span>)
    requires AllAdmissible(e, text, base, a) && AllAdmissible(e, text, base, b)
    ensures AllAdmissible(e, text, base, a + b)
  {
  }

  lemma AtomsAdded(e: Embedder, text: string, base: int, sentences: seq<Span>, groups: seq<seq<Span>>, atoms: seq<Span>)
    requires |groups| < |sentences| && AtomsTo(e, text, base, sentences, groups, sentences[|groups|].start)
    requires AtomsAt(e, text, base, sentences[|groups|], atoms)
    ensures AtomsTo(e, text, base, sentences, groups + [atoms], sentences[|groups|].end)
  {
    GroupAdded(e, text, base, sentences, groups, atoms);
    FlattenAppend(groups, atoms);
    PiecesAdded(e, text, base, Flatten(groups), atoms, sentences[|groups|], Flatten(groups + [atoms]));
  }

  /** The first loop: one group of atoms per sentence. */
  method Atomize(e: Embedder, text: string, base: int, sentences: seq<Span>) returns (pieces: seq<Span>, ghost groups: seq<seq<Span>>)
    requires Tiles(sentences, 0, |text|)
    ensures |groups| == |sentences| && pieces == Flatten(groups) && AtomsTo(e, text, base, sentences, groups, |text|)
  {
    pieces, groups := [], [];
    if sentences != [] {
      TileAt(sentences, 0, |text|, 0);
    }
    for k := 0 to |sentences|
      invariant |groups| == k && pieces == Flatten(groups)
      invariant AtomsTo(e, text, base, sentences, groups, if k == |sentences| then |text| else sentences[k].start)
    {
      SentenceEnd(sentences, |text|, k);
      var atoms := SentenceAtoms(e, text, base, sentences[k]);
      FlattenAppend(groups, atoms);
      AtomsAdded(e, text, base, sentences, groups, atoms);
      groups := groups + [atoms];
      pieces := pieces + atoms;
    }
  }

  method SplitChunkText(e: Embedder, starts: seq<int>, text: string, baseOffset: int, parentSection: Option<string>)
    returns (subChunks: seq<Chunk>, ghost groups: seq<seq<Span>>)
    requires Increasing(starts, |text|)
    ensures IsSplit(e, text, baseOffset, parentSection, subChunks)
    ensures |groups| == |SentenceSpans(text, starts)| && AtomsOk(e, text, baseOffset, SentenceSpans(text, starts), groups)
    ensures Tiles(Flatten(groups), baseOffset, baseOffset + |text|)
    ensures IsPacking(e, text, baseOffset, Flatten(groups), SpansOf(subChunks))
  {
    SentencesTile(text, starts);
    var pieces: seq<Span>;
    pieces, groups := Atomize(e, text, baseOffset, SentenceSpans(text, starts));
    subChunks := Pack(e, text, baseOffset, parentSection, pieces);
  }

  /** An allowed cut after a run lies at or behind the next atom's end, so the run cannot be prolonged to it. */
  lemma PackingIsMaximal(e: Embedder, text: string, base: int, atoms: seq<Span>, runs: seq<Span>)
    requires TokensInherited(e, text) && Tiles(atoms, base, base + |text|)
    requires Tiles(runs, base, base + |text|) && IsPacking(e, text, base, atoms, runs)
    ensures Maximal(e, text, base, runs, cut => IsCut(atoms, cut))
  {
    forall k, cut | 0 <= k < |runs| - 1 && runs[k].end < cut <= base + |text| && IsCut(atoms, cut)
      ensures !SpanFits(e, text, base, Span(runs[k].start, cut))
    {
      TileAt(runs, base, base + |text|, k);
      assert IsCut(atoms, runs[k].end);
      var j :| 0 <= j < |atoms| && atoms[j].end == runs[k].end;
      var m :| 0 <= m < |atoms| && atoms[m].end == cut;
      if m <= j {
        TilesOrdered(atoms, base, base + |text|, m, j);
      } else {
        TilesAdjacent(atoms, base, base + |text|, j + 1);
        TilesOrdered(atoms, base, base + |text|, j + 1, m);
        if SpanFits(e, text, base, Span(runs[k].start, cut)) {
          EarlierEndFits(e, text, base, Span(runs[k].start, cut), atoms[j + 1].end);
        }
      }
    }
  }

  /** The packing loop uses as few runs as any grouping of consecutive atoms that fits. */
  lemma PackingIsFewest(e: Embedder, text: string, base: int, atoms: seq<Span>, runs: seq<Span>, other: seq<Span>)
    requires TokensInherited(e, text) && Tiles(atoms, base, base + |text|)
    requires Tiles(runs, base, base + |text|) && IsPacking(e, text, base, atoms, runs)
    requires Tiles(other, base, base + |text|) && AllFit(e, text, base, other)
    requires forall k :: 0 <= k < |other| ==> IsCut(atoms, other[k].end)
    ensures |runs| <= |other|
  {
    PackingIsMaximal(e, text, base, atoms, runs);
    GreedyIsFewest(e, text, base, runs, cut => IsCut(atoms, cut), other);
  }

  // ----- what a split is worth -------------------------------------------------------------

  function ChunkTexts(chunks: seq<Chunk>): string {
    if chunks == [] then [] else ChunkTexts(chunks[..|chunks| - 1]) + chunks[|chunks| - 1].text
  }

  lemma {:induction false} ChunkTextsAppend(a: seq<Chunk>, b: seq<Chunk>)
    ensures ChunkTexts(a + b) == ChunkTexts(a) + ChunkTexts(b)
  {
    if b == [] {
      assert a + b == a;
    } else {
      assert (a + b)[..|a + b| - 1] == a + b[..|b| - 1];
      ChunkTextsAppend(a, b[..|b| - 1]);
    }
  }

  lemma {:induction false} WindowsSpellText(e: Embedder, text: string, base: int, section: Option<string>, chunks: seq<Chunk>, hi: int)
    requires Tiles(SpansOf(chunks), base, hi) && hi <= base + |text| && AllWindows(e, text, base, section, chunks)
    ensures base <= hi && ChunkTexts(chunks) == text[..hi - base]
  {
    if chunks == [] {
      NoWindow(text, base, hi);
    } else {
      var last := chunks[|chunks| - 1];
      FirstWindows(e, text, base, section, chunks, hi);
      WindowsSpellText(e, text, base, section, chunks[..|chunks| - 1], last.startIdx);
      LastWindow(e, text, base, section, last, hi);
    }
  }

  lemma NoWindow(text: string, base: int, hi: int)
    requires Tiles(SpansOf([]), base, hi)
    ensures base == hi && ChunkTexts([]) == text[..hi - base]
  {
    assert SpansOf([]) == [];
  }

  lemma FirstWindows(e: Embedder, text: string, base: int, section: Option<string>, chunks: seq<Chunk>, hi: int)
    requires chunks != [] && Tiles(SpansOf(chunks), base, hi) && AllWindows(e, text, base, section, chunks)
    ensures var before, last := chunks[..|chunks| - 1], chunks[|chunks| - 1];
            && last.endIdx == hi && Tiles(SpansOf(before), base, last.startIdx)
            && AllWindows(e, text, base, section, before) && IsWindow(e, text, base, section, last)
  {
    SpansOfFirst(chunks, base, hi);
  }

  lemma LastWindow(e: Embedder, text: string, base: int, section: Option<string>, c: Chunk, hi: int)
    requires IsWindow(e, text, base, section, c) && c.endIdx == hi
    ensures base <= c.startIdx && base <= hi <= base + |text|
    ensures text[..c.startIdx - base] + c.text == text[..hi - base]
  {
    Spliced(text, c.startIdx - base, hi - base);
  }

  lemma SpansOfFirst(chunks: seq<Chunk>, base: int, hi: int)
    requires chunks != [] && Tiles(SpansOf(chunks), base, hi)
    ensures chunks[|chunks| - 1].endIdx == hi && Tiles(SpansOf(chunks[..|chunks| - 1]), base, chunks[|chunks| - 1].startIdx)
  {
    assert SpansOf(chunks)[..|chunks| - 1] == SpansOf(chunks[..|chunks| - 1]);
  }

  /** No text is lost, every sub-chunk is non-empty and within Milvus's byte cap, and within the token cap if one code point is. */
  lemma SplitLosesNothing(e: Embedder, text: string, base: int, section: Option<string>, chunks: seq<Chunk>)
    requires IsSplit(e, text, base, section, chunks)
    ensures ChunkTexts(chunks) == text
    ensures forall c <- chunks ::
              && c.text != [] && c.endIdx == c.startIdx + |c.text| && c.parentSection == section
              && Utf8Length(c.text) <= HARD_MAX_CHUNK_BYTES
              && (SinglesFit(e) ==> e.tokenCount(c.text) <= e.maxTokens)
  {
    WindowsSpellText(e, text, base, section, chunks, base + |text|);
    forall c <- chunks
      ensures c.text != [] && c.endIdx == c.startIdx + |c.text| && c.parentSection == section
      ensures Utf8Length(c.text) <= HARD_MAX_CHUNK_BYTES && (SinglesFit(e) ==> e.tokenCount(c.text) <= e.maxTokens)
    {
      assert IsWindow(e, text, base, section, c);
      AdmissibleMeans(e, text, base, SpanOf(c));
    }
  }

  // ----- the whole pass -----------------------------------------------------------------------

  /** Either the very same chunk, or a split of it. */
  ghost predicate IsCapped(e: Embedder, c: Chunk, out: seq<Chunk>) {
    if Utf8Length(c.text) <= MAX_CHUNK_BYTES then out == [c]
    else IsSplit(e, c.text, c.startIdx, c.parentSection, out)
  }

  ghost predicate AllCapped(e: Embedder, chunks: seq<Chunk>, groups: seq<seq<Chunk>>) {
    |groups| == |chunks| && forall k :: 0 <= k < |chunks| ==> IsCapped(e, chunks[k], groups[k])
  }

  lemma CappedAdded(e: Embedder, chunks: seq<Chunk>, groups: seq<seq<Chunk>>, c: Chunk, out: seq<Chunk>)
    requires AllCapped(e, chunks, groups) && IsCapped(e, c, out)
    ensures AllCapped(e, chunks + [c], groups + [out])
  {
  }

  /** `starts` are the sentence starts Punkt finds in each chunk. */
  method CapOversizedChunks(e: Embedder, starts: seq<seq<int>>, chunks: seq<Chunk>)
    returns (capped: seq<Chunk>, ghost groups: seq<seq<Chunk>>)
    requires |starts| == |chunks| && forall k :: 0 <= k < |chunks| ==> Increasing(starts[k], |chunks[k].text|)
    ensures capped == Flatten(groups) && AllCapped(e, chunks, groups)
  {
    capped, groups := [], [];
    for k := 0 to |chunks|
      invariant capped == Flatten(groups) && AllCapped(e, chunks[..k], groups)
    {
      var out := CapChunk(e, starts[k], chunks[k]);
      FlattenAppend(groups, out);
      CappedAdded(e, chunks[..k], groups, chunks[k], out);
      assert chunks[..k + 1] == chunks[..k] + [chunks[k]];
      groups := groups + [out];
      capped := capped + out;
    }
    assert chunks[..|chunks|] == chunks;
  }

  method CapChunk(e: Embedder, starts: seq<int>, c: Chunk) returns (out: seq<Chunk>)
    requires Increasing(starts, |c.text|)
    ensures IsCapped(e, c, out)
  {
    out := [c];
    if Utf8Length(c.text) > MAX_CHUNK_BYTES {
      ghost var atoms;
      out, atoms := SplitChunkText(e, starts, c.text, c.startIdx, c.parentSection);
    }
  }

  /** A chunk that is a window of the book's markdown. */
  predicate WindowOf(markdown: string, c: Chunk) {
    0 <= c.startIdx <= c.endIdx <= |markdown| && markdown[c.startIdx..c.endIdx] == c.text
  }

  lemma CappedChunk(e: Embedder, c: Chunk, out: seq<Chunk>)
    requires IsCapped(e, c, out)
    ensures ChunkTexts(out) == c.text
    ensures forall d <- out :: Utf8Length(d.text) <= HARD_MAX_CHUNK_BYTES
  {
    if Utf8Length(c.text) <= MAX_CHUNK_BYTES {
      assert ChunkTexts(out[..0]) == "";
    } else {
      SplitLosesNothing(e, c.text, c.startIdx, c.parentSection, out);
    }
  }

  lemma CappedWindow(e: Embedder, c: Chunk, out: seq<Chunk>, markdown: string, d: Chunk)
    requires IsCapped(e, c, out) && d in out && WindowOf(markdown, c)
    ensures WindowOf(markdown, d)
  {
    if Utf8Length(c.text) > MAX_CHUNK_BYTES {
      assert IsWindow(e, c.text, c.startIdx, c.parentSection, d);
      WindowInWindow(markdown, c, d);
    }
  }

  lemma WindowInWindow(markdown: string, c: Chunk, d: Chunk)
    requires WindowOf(markdown, c) && c.startIdx <= d.startIdx <= d.endIdx <= c.startIdx + |c.text|
    requires d.text == c.text[d.startIdx - c.startIdx..d.endIdx - c.startIdx]
    ensures WindowOf(markdown, d)
  {
    assert forall i :: 0 <= i < |d.text| ==> d.text[i] == markdown[d.startIdx..d.endIdx][i];
  }

  /** For every book the pass keeps the text and meets the VARCHAR limit; every chunk that leaves it is a true window of the markdown. */
  lemma {:induction false} CappedBook(e: Embedder, chunks: seq<Chunk>, groups: seq<seq<Chunk>>)
    requires AllCapped(e, chunks, groups)
    ensures ChunkTexts(Flatten(groups)) == ChunkTexts(chunks)
    ensures forall d <- Flatten(groups) :: Utf8Length(d.text) <= HARD_MAX_CHUNK_BYTES
  {
    if chunks != [] {
      var n := |chunks| - 1;
      CappedBook(e, chunks[..n], groups[..n]);
      CappedChunk(e, chunks[n], groups[n]);
      ChunkTextsAppend(Flatten(groups[..n]), groups[n]);
    }
  }

  lemma {:induction false} CappedOffsets(e: Embedder, chunks: seq<Chunk>, groups: seq<seq<Chunk>>, markdown: string, d: Chunk)
    requires AllCapped(e, chunks, groups) && d in Flatten(groups)
    requires forall k :: 0 <= k < |chunks| ==> WindowOf(markdown, chunks[k])
    ensures WindowOf(markdown, d)
  {
    var n := |chunks| - 1;
    if d in groups[n] {
      CappedWindow(e, chunks[n], groups[n], markdown, d);
    } else {
      CappedOffsets(e, chunks[..n], groups[..n], markdown, d);
    }
  }
}
