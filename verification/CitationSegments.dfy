/** Splitting a summary into text and citation chips, as web/lib/summary.ts does. */
module CitationSegments {
  import opened Common
  import opened CitationLabels
  import opened CitationExtract

  datatype Chip = Chip(start: int, marker: string, citationIndex: int)

  datatype MarkerSpan = MarkerSpan(start: int, end: int, markers: seq<Chip>)

  datatype Segment = Prose(start: int, text: string) | Cite(start: int, marker: string, citationIndex: int)

  type Index = map<string, int>  // markers to citation indices

  type Lookup = string -> Option<int>  // the same, by the trimmed text of a member

  // ----- string functions of JavaScript -------------------------------------------------------

  /** `s.indexOf(sub, from)` */
  function IndexOf(s: string, sub: string, from: nat): (i: int)
    ensures i == -1 || (from <= i && i + |sub| <= |s| && s[i..i + |sub|] == sub)
    decreases |s| - from
  {
    if from + |sub| > |s| then -1 else if s[from..from + |sub|] == sub then from
    else if from == |s| then -1 else IndexOf(s, sub, from + 1)
  }

  lemma {:induction false} IndexOfFirst(s: string, sub: string, from: nat, j: nat)
    requires from <= j && j + |sub| <= |s| && s[j..j + |sub|] == sub
    ensures from <= IndexOf(s, sub, from) <= j
    decreases j - from
  {
    if from < j && s[from..from + |sub|] != sub {
      IndexOfFirst(s, sub, from + 1, j);
    }
  }

  /** The parts of `s.split(",")` from position `at` on. */
  function SplitFrom(s: string, at: nat): (parts: seq<string>)
    requires at <= |s|
    ensures |parts| >= 1
    decreases |s| - at
  {
    var i := NextComma(s, at);
    if i == -1 then [s[at..]] else [s[at..i]] + SplitFrom(s, i + 1)
  }

  function Split(s: string): (parts: seq<string>)
    ensures |parts| >= 1
  {
    SplitFrom(s, 0)
  }

  function ParseMarker(marker: string): Option<(string, string)> {
    if |marker| < 2 || marker[0] != '[' || marker[|marker| - 1] != ']' then None
    else
      var inner := marker[1..|marker| - 1];
      var colon := LastIndexOf(inner, ':');
      if colon == -1 then None else Some((inner[..colon], inner[colon + 1..]))
  }

  // ----- merged brackets -------------------------------------------------------------------------

  function Mark(inner: string): string {
    "[" + inner + "]"
  }

  function Find(index: Index, inner: string): (r: Option<int>)
    ensures r.Some? ==> inner != []
  {
    if ParseMarker(Mark(inner)).Some? && Mark(inner) in index then
      assert Mark(inner)[1..|Mark(inner)| - 1] == inner;
      Some(index[Mark(inner)])
    else None
  }

  function Finder(index: Index): Lookup {
    inner => Find(index, inner)
  }

  /** What JavaScript's `trim` takes for white space (ECMA-262, sections 12.2 and 12.3). */
  predicate IsTrimmed(c: char) {
    IsSeparator(c) || '\U{9}' <= c <= '\U{D}' || c == '\U{2028}' || c == '\U{2029}' || c == '\U{FEFF}'
  }

  function Trim(s: string): string {
    Strip(IsTrimmed, s)
  }

  /** The chip of one part, if it resolves, and the cursor behind it. */
  function PartChips(base: int, inner: string, part: string, cursor: nat, find: Lookup): (seq<Chip>, nat) {
    var trimmed := Trim(part);
    if find(trimmed).None? then ([], cursor + |part| + 1)
    else
      var found := IndexOf(inner, trimmed, cursor);
      var offset: nat := if found == -1 then cursor else found;
      ([Chip(base + offset, Mark(trimmed), find(trimmed).value)], offset + |trimmed|)
  }

  /** The chips of the remaining parts of a bracket whose text starts at `base`; `cursor` is where to look. */
  function ResolveParts(base: int, inner: string, parts: seq<string>, cursor: nat, find: Lookup): seq<Chip> {
    if parts == [] then []
    else
      var (chips, next) := PartChips(base, inner, parts[0], cursor, find);
      chips + ResolveParts(base, inner, parts[1..], next, find)
  }

  /** The chips of a bracket that starts at `bracketStart`, if it is taken for a merged one. */
  function MergedChips(bracketStart: int, inner: string, index: Index): seq<Chip> {
    if |Split(inner)| < 2 then [] else ResolveParts(bracketStart + 1, inner, Split(inner), 0, Finder(index))
  }

  method ResolveMergedBracket(bracketStart: int, inner: string, index: Index) returns (r: Option<seq<Chip>>)
    ensures r == if MergedChips(bracketStart, inner, index) == [] then None else Some(MergedChips(bracketStart, inner, index))
  {
    var rawMembers := Split(inner);
    if |rawMembers| < 2 {
      return None;
    }
    var resolved := ResolveMembers(bracketStart, inner, rawMembers, Finder(index));
    r := if resolved == [] then None else Some(resolved);
  }

  /** The loop over the raw members; `find` looks a trimmed member up in the index. */
  method ResolveMembers(bracketStart: int, inner: string, rawMembers: seq<string>, find: Lookup) returns (resolved: seq<Chip>)
    ensures resolved == ResolveParts(bracketStart + 1, inner, rawMembers, 0, find)
  {
    resolved := [];
    var cursor := 0;
    assert rawMembers[0..] == rawMembers;
    for i := 0 to |rawMembers|
      invariant cursor >= 0
      invariant ResolveParts(bracketStart + 1, inner, rawMembers, 0, find)
                == resolved + ResolveParts(bracketStart + 1, inner, rawMembers[i..], cursor, find)
    {
      PartsStep(bracketStart + 1, inner, rawMembers, i, cursor, find, resolved);
      var chips;
      chips, cursor := ResolveMember(bracketStart, inner, rawMembers[i], cursor, find);
      resolved := resolved + chips;
    }
  }

  /** The loop body: the chip of one raw member, if it resolves, and the cursor behind it. */
  method ResolveMember(bracketStart: int, inner: string, raw: string, cursor: nat, find: Lookup) returns (chips: seq<Chip>, next: nat)
    ensures (chips, next) == PartChips(bracketStart + 1, inner, raw, cursor, find)
  {
    var trimmed := Trim(raw);
    var citationIndex := find(trimmed);
    if citationIndex.None? {
      return [], cursor + |raw| + 1;
    }
    var found := IndexOf(inner, trimmed, cursor);
    var memberOffset := if found == -1 then cursor else found;
    chips := [Chip(bracketStart + 1 + memberOffset, Mark(trimmed), citationIndex.value)];
    next := memberOffset + |trimmed|;
  }

  lemma PartsStep(base: int, inner: string, parts: seq<string>, i: nat, cursor: nat, find: Lookup, before: seq<Chip>)
    requires i < |parts|
    ensures var (chips, next) := PartChips(base, inner, parts[i], cursor, find);
            before + ResolveParts(base, inner, parts[i..], cursor, find)
            == before + chips + ResolveParts(base, inner, parts[i + 1..], next, find)
  {
    assert parts[i..][0] == parts[i] && parts[i..][1..] == parts[i + 1..];
  }

  lemma {:induction false} StripLeftSlice(space: char -> bool, s: string)
    ensures |StripLeft(space, s)| <= |s| && StripLeft(space, s) == s[|s| - |StripLeft(space, s)|..]
  {
    if s != [] && space(s[0]) {
      StripLeftSlice(space, s[1..]);
    }
  }

  lemma {:induction false} StripRightSlice(space: char -> bool, s: string)
    ensures |StripRight(space, s)| <= |s| && StripRight(space, s) == s[..|StripRight(space, s)|]
  {
    if s != [] && space(s[|s| - 1]) {
      StripRightSlice(space, s[..|s| - 1]);
    }
  }

  /** Where in `s` its trimmed text stands. */
  lemma StripSlice(s: string) returns (at: nat)
    ensures at + |Trim(s)| <= |s| && s[at..at + |Trim(s)|] == Trim(s)
  {
    StripLeftSlice(IsTrimmed, s);
    StripRightSlice(IsTrimmed, StripLeft(IsTrimmed, s));
    at := |s| - |StripLeft(IsTrimmed, s)|;
  }

  /** A chip sits where its text does, and the chips come in order without overlap. */
  ghost predicate ChipsStand(base: int, inner: string, chips: seq<Chip>, from: int) {
    && (forall i :: 0 <= i < |chips| ==> ChipStands(base, inner, chips[i], from))
    && forall i, j :: 0 <= i < j < |chips| ==> chips[i].start < chips[j].start
  }

  predicate ChipStands(base: int, inner: string, c: Chip, from: int) {
    var at, k := c.start - base, |c.marker| - 2;
    k > 0 && 0 <= from <= at && at + k <= |inner| && c.marker == Mark(inner[at..at + k])
  }

  lemma SliceOfSlice(s: string, a: nat, b: nat, c: nat, d: nat)
    requires a <= b <= |s| && c <= d <= b - a
    ensures s[a..b][c..d] == s[a + c..a + d]
  {
    assert forall i :: 0 <= i < d - c ==> s[a..b][c..d][i] == s[a + c..a + d][i];
  }

  lemma SplitStep(inner: string, at: nat)
    requires at <= |inner|
    ensures var parts := SplitFrom(inner, at);
            && at + |parts[0]| <= |inner| && inner[at..at + |parts[0]|] == parts[0]
            && (if NextComma(inner, at) == -1 then parts[1..] == [] && at + |parts[0]| == |inner|
                else at + |parts[0]| == NextComma(inner, at) < |inner| && parts[1..] == SplitFrom(inner, at + |parts[0]| + 1))
  {
  }

  /**
   The search for the member of the part at `at` succeeds, between the cursor and the end of the part, so the
   fallback to the cursor is never taken.  It need not succeed inside the part: see `FoundInPlaceIff`.
  */
  lemma PartIsFound(inner: string, at: nat, part: string, cursor: nat)
    requires cursor <= at && at + |part| <= |inner| && inner[at..at + |part|] == part
    ensures var found := IndexOf(inner, Trim(part), cursor);
            cursor <= found && found + |Trim(part)| <= at + |part|
  {
    var k := StripSlice(part);
    SliceOfSlice(inner, at, at + |part|, k, k + |Trim(part)|);
    IndexOfFirst(inner, Trim(part), cursor, at + k);
  }

  /** A lookup that never finds the empty text. */
  predicate Sound(find: Lookup) {
    find("").None?
  }

  lemma {:induction false} PartsStand(base: int, inner: string, at: nat, parts: seq<string>, cursor: nat, find: Lookup)
    requires Sound(find) && at <= |inner| && parts == SplitFrom(inner, at) && cursor <= at
    ensures ChipsStand(base, inner, ResolveParts(base, inner, parts, cursor, find), cursor)
    decreases |inner| - at, 1
  {
    SplitStep(inner, at);
    var (chips, next) := PartChips(base, inner, parts[0], cursor, find);
    PartStands(base, inner, at, parts[0], cursor, find);
    RestStands(base, inner, at, parts, next, find);
    ChipsBefore(base, inner, chips, ResolveParts(base, inner, parts[1..], next, find), cursor, next);
  }

  lemma PartStands(base: int, inner: string, at: nat, part: string, cursor: nat, find: Lookup)
    requires Sound(find) && cursor <= at && at + |part| <= |inner| && inner[at..at + |part|] == part
    ensures var (chips, next) := PartChips(base, inner, part, cursor, find);
            && cursor <= next <= at + |part| + 1 && |chips| <= 1
            && (chips != [] ==> ChipStands(base, inner, chips[0], cursor) && chips[0].start - base + |chips[0].marker| - 2 == next)
  {
    if find(Trim(part)).Some? {
      PartIsFound(inner, at, part, cursor);
    }
  }

  lemma RestStands(base: int, inner: string, at: nat, parts: seq<string>, cursor: nat, find: Lookup)
    requires Sound(find) && at <= |inner| && parts == SplitFrom(inner, at) && cursor <= at + |parts[0]| + 1
    ensures ChipsStand(base, inner, ResolveParts(base, inner, parts[1..], cursor, find), cursor)
    decreases |inner| - at, 0
  {
    SplitStep(inner, at);
    if parts[1..] != [] {
      PartsStand(base, inner, at + |parts[0]| + 1, parts[1..], cursor, find);
    }
  }

  lemma ChipsBefore(base: int, inner: string, chips: seq<Chip>, tail: seq<Chip>, cursor: int, next: int)
    requires |chips| <= 1 && 0 <= cursor <= next && ChipsStand(base, inner, tail, next)
    requires chips != [] ==> ChipStands(base, inner, chips[0], cursor) && chips[0].start - base + |chips[0].marker| - 2 == next
    ensures ChipsStand(base, inner, chips + tail, cursor)
  {
    var all, k := chips + tail, |chips|;
    forall i | 0 <= i < |all|
      ensures ChipStands(base, inner, all[i], cursor)
      ensures i >= k ==> all[i] == tail[i - k] && all[i].start >= base + next
    {
      if i >= k {
        assert ChipStands(base, inner, tail[i - k], next);
      }
    }
  }

  /** Every chip of a merged bracket lies inside it, on text equal to its member's, and each behind the one before. */
  lemma MergedChipsStand(bracketStart: int, inner: string, index: Index)
    ensures ChipsStand(bracketStart + 1, inner, MergedChips(bracketStart, inner, index), 0)
  {
    PartsStand(bracketStart + 1, inner, 0, Split(inner), 0, Finder(index));
  }

  // ----- spans -----------------------------------------------------------------------------------

  /** The first `c` from `from` on, or -1. */
  function IndexOfChar(s: string, c: char, from: nat): (i: int)
    requires from <= |s|
    ensures i == -1 || (from <= i < |s| && s[i] == c)
    decreases |s| - from
  {
    if from == |s| then -1 else if s[from] == c then from else IndexOfChar(s, c, from + 1)
  }

  /** No `c` between `from` and `to`. */
  predicate Without(s: string, c: char, from: nat, to: nat)
    requires to <= |s|
  {
    forall j :: from <= j < to ==> s[j] != c
  }

  lemma {:induction false} IndexOfCharIsFirst(s: string, c: char, from: nat)
    requires from <= |s|
    ensures var i := IndexOfChar(s, c, from); Without(s, c, from, if i == -1 then |s| else i)
    decreases |s| - from
  {
    if from < |s| && s[from] != c {
      IndexOfCharIsFirst(s, c, from + 1);
    }
  }

  /** The brackets the scan meets: an opening one and the next closing one, from there on again. */
  function Brackets(text: string, scan: nat): (groups: seq<Group>)
    requires scan <= |text|
    ensures forall g <- groups :: scan <= g.open < g.close < |text|
    decreases |text| - scan
  {
    var open := IndexOfChar(text, '[', scan);
    if open == -1 then []
    else
      var close := IndexOfChar(text, ']', open + 1);
      if close == -1 then [] else [Group(open, close)] + Brackets(text, close + 1)
  }

  type Merger = (int, string) -> seq<Chip>

  function Merging(index: Index): Merger {
    (start, inner) => MergedChips(start, inner, index)
  }

  /** The chips of one bracket: itself where it is a marker verbatim, otherwise its merged members. */
  function BracketChips(open: int, bracket: string, body: string, index: Index, merge: Merger): seq<Chip> {
    if bracket in index then [Chip(open, bracket, index[bracket])] else merge(open, body)
  }

  function Bracket(text: string, g: Group): string
    requires 0 <= g.open < g.close < |text|
  {
    text[g.open..g.close + 1]
  }

  type Chipper = Group -> seq<Chip>

  function ChipsOf(text: string, index: Index): Chipper {
    (g: Group) =>
      if 0 <= g.open < g.close < |text| then BracketChips(g.open, Bracket(text, g), Body(text, g), index, Merging(index)) else []
  }

  function SpanOf(g: Group, chips: seq<Chip>): seq<MarkerSpan> {
    if chips == [] then [] else [MarkerSpan(g.open, g.close + 1, chips)]
  }

  /** The spans of the brackets that resolve to at least one chip. */
  function Spans(groups: seq<Group>, chips: Chipper): seq<MarkerSpan> {
    if groups == [] then [] else SpanOf(groups[0], chips(groups[0])) + Spans(groups[1..], chips)
  }

  lemma {:induction false} SpansAppend(groups: seq<Group>, g: Group, chips: Chipper)
    ensures Spans(groups + [g], chips) == Spans(groups, chips) + SpanOf(g, chips(g))
  {
    if groups == [] {
      assert Spans([g], chips) == SpanOf(g, chips(g)) + Spans([], chips);
    } else {
      assert (groups + [g])[1..] == groups[1..] + [g];
      SpansAppend(groups[1..], g, chips);
    }
  }

  /** The spans follow one another from `from` on, each holding its chips in order. */
  ghost predicate Forward(text: string, spans: seq<MarkerSpan>, from: int) {
    if spans == [] then from <= |text|
    else
      var s := spans[0];
      && from <= s.start < s.end <= |text| && InSpan(s) && Forward(text, spans[1..], s.end)
  }

  ghost predicate InSpan(s: MarkerSpan) {
    && s.markers != []
    && (forall i :: 0 <= i < |s.markers| ==> s.start <= s.markers[i].start < s.end)
    && forall i, j :: 0 <= i < j < |s.markers| ==> s.markers[i].start < s.markers[j].start
  }

  ghost predicate Ascending(groups: seq<Group>, from: int) {
    if groups == [] then true
    else from <= groups[0].open < groups[0].close && Ascending(groups[1..], groups[0].close + 1)
  }

  lemma {:induction false} BracketsAscend(text: string, scan: nat)
    requires scan <= |text|
    ensures Ascending(Brackets(text, scan), scan)
    decreases |text| - scan
  {
    var open := IndexOfChar(text, '[', scan);
    if open != -1 {
      var close := IndexOfChar(text, ']', open + 1);
      if close != -1 {
        BracketsAscend(text, close + 1);
        assert Brackets(text, scan)[1..] == Brackets(text, close + 1);
      }
    }
  }

  lemma ChipsInSpan(text: string, g: Group, index: Index, merge: Merger)
    requires 0 <= g.open < g.close < |text|
    requires BracketChips(g.open, Bracket(text, g), Body(text, g), index, merge) != []
    requires ChipsStand(g.open + 1, Body(text, g), merge(g.open, Body(text, g)), 0)
    ensures InSpan(MarkerSpan(g.open, g.close + 1, BracketChips(g.open, Bracket(text, g), Body(text, g), index, merge)))
  {
    var body := Body(text, g);
    var chips := merge(g.open, body);
    forall i | 0 <= i < |chips|
      ensures g.open <= chips[i].start < g.close + 1
    {
      assert ChipStands(g.open + 1, body, chips[i], 0);
    }
  }

  ghost predicate ChipsFit(groups: seq<Group>, chips: Chipper) {
    forall g <- groups :: chips(g) != [] ==> InSpan(MarkerSpan(g.open, g.close + 1, chips(g)))
  }

  lemma ChipsOfFit(text: string, groups: seq<Group>, index: Index)
    requires forall g <- groups :: 0 <= g.open < g.close < |text|
    ensures ChipsFit(groups, ChipsOf(text, index))
  {
    forall g <- groups | ChipsOf(text, index)(g) != []
      ensures InSpan(MarkerSpan(g.open, g.close + 1, ChipsOf(text, index)(g)))
    {
      MergedChipsStand(g.open, Body(text, g), index);
      ChipsInSpan(text, g, index, Merging(index));
    }
  }

  lemma {:induction false} SpansForward(text: string, groups: seq<Group>, chips: Chipper, from: int)
    requires forall g <- groups :: 0 <= g.open < g.close < |text|
    requires from <= |text| && Ascending(groups, from) && ChipsFit(groups, chips)
    ensures Forward(text, Spans(groups, chips), from)
  {
    if groups != [] {
      var g := groups[0];
      SpansForward(text, groups[1..], chips, g.close + 1);
      if chips(g) == [] {
        assert Spans(groups, chips) == Spans(groups[1..], chips);
        ForwardEarlier(text, Spans(groups[1..], chips), g.close + 1, from);
      } else {
        assert Spans(groups, chips)[1..] == Spans(groups[1..], chips);
      }
    }
  }

  lemma ForwardEarlier(text: string, spans: seq<MarkerSpan>, from: int, earlier: int)
    requires Forward(text, spans, from) && earlier <= from
    ensures Forward(text, spans, earlier)
  {
  }

  // ----- segments ----------------------------------------------------------------------------------

  function Cites(chips: seq<Chip>): (segments: seq<Segment>)
    ensures |segments| == |chips|
  {
    seq(|chips|, i requires 0 <= i < |chips| => Cite(chips[i].start, chips[i].marker, chips[i].citationIndex))
  }

  function Between(text: string, from: int, to: int): seq<Segment>
    requires 0 <= from && to <= |text|
  {
    if from < to then [Prose(from, text[from..to])] else []
  }

  /** The segments from `pos` on. */
  ghost function SegmentsFrom(text: string, spans: seq<MarkerSpan>, pos: int): seq<Segment>
    requires 0 <= pos && Forward(text, spans, pos)
  {
    if spans == [] then Between(text, pos, |text|)
    else Between(text, pos, spans[0].start) + Cites(spans[0].markers) + SegmentsFrom(text, spans[1..], spans[0].end)
  }

  /** The citations' markers with their indices; the first of equal ones stays. */
  function IndexOfMarkers(citations: seq<string>): Index {
    if citations == [] then map[]
    else
      var k := |citations| - 1;
      var index := IndexOfMarkers(citations[..k]);
      if citations[k] in index then index else index[citations[k] := k]
  }

  lemma SummarySpansForward(summary: string, index: Index)
    ensures Forward(summary, Spans(Brackets(summary, 0), ChipsOf(summary, index)), 0)
  {
    BracketsAscend(summary, 0);
    ChipsOfFit(summary, Brackets(summary, 0), index);
    SpansForward(summary, Brackets(summary, 0), ChipsOf(summary, index), 0);
  }

  /** What the segments of a summary are. */
  ghost function Segments(summary: string, index: Index): seq<Segment> {
    SummarySpansForward(summary, index);
    SegmentsFrom(summary, Spans(Brackets(summary, 0), ChipsOf(summary, index)), 0)
  }

  method MarkerToIndex(citations: seq<string>) returns (index: Index)
    ensures index == IndexOfMarkers(citations)
  {
    index := map[];
    for k := 0 to |citations|
      invariant index == IndexOfMarkers(citations[..k])
    {
      assert citations[..k + 1][..k] == citations[..k];
      if citations[k] !in index {
        index := index[citations[k] := k];
      }
    }
    assert citations[..|citations|] == citations;
  }

  /** What the scan has done when it has come to `scan`. */
  ghost predicate Scanned(summary: string, index: Index, scan: int, done: seq<Group>, spans: seq<MarkerSpan>) {
    && 0 <= scan <= |summary|
    && done + Brackets(summary, scan) == Brackets(summary, 0)
    && spans == Spans(done, ChipsOf(summary, index))
  }

  method FindSpans(summary: string, index: Index) returns (spans: seq<MarkerSpan>)
    ensures spans == Spans(Brackets(summary, 0), ChipsOf(summary, index))
  {
    spans := [];
    var scan := 0;
    ghost var done: seq<Group> := [];
    while scan < |summary|
      invariant Scanned(summary, index, scan, done, spans)
    {
      var open, close := NextPair(summary, scan);
      if close == -1 {
        ScanEnds(summary, index, scan, done, spans);
        return;
      }
      spans, done := TakeBracket(summary, index, scan, open, close, done, spans);
      scan := close + 1;
    }
    ScanEnds(summary, index, scan, done, spans);
  }

  /** One round: the bracket found is resolved. */
  method TakeBracket(summary: string, index: Index, ghost scan: int, open: int, close: int, ghost done: seq<Group>, spans: seq<MarkerSpan>)
    returns (nowSpans: seq<MarkerSpan>, ghost nowDone: seq<Group>)
    requires Scanned(summary, index, scan, done, spans)
    requires IsPair(summary, scan, open, close)
    ensures scan < close + 1 && Scanned(summary, index, close + 1, nowDone, nowSpans)
  {
    nowDone := done + [Group(open, close)];
    nowSpans := AddSpan(summary, Group(open, close), index, spans, done);
    GroupScanned(summary, index, scan, open, close, done, spans, nowSpans);
  }

  predicate IsPair(text: string, scan: int, open: int, close: int) {
    && 0 <= scan <= |text| && open == IndexOfChar(text, '[', scan) && open != -1
    && close == IndexOfChar(text, ']', open + 1) && close != -1
  }

  /** The next opening bracket and the next closing one behind it; -1 if either is missing. */
  method NextPair(summary: string, scan: int) returns (open: int, close: int)
    requires 0 <= scan <= |summary|
    ensures close == -1 ==> Brackets(summary, scan) == []
    ensures close != -1 ==> IsPair(summary, scan, open, close)
  {
    open := IndexOfChar(summary, '[', scan);
    close := -1;
    if open != -1 {
      close := IndexOfChar(summary, ']', open + 1);
    }
    if close == -1 {
      NoMoreBrackets(summary, scan);
    }
  }

  lemma GroupScanned(summary: string, index: Index, scan: int, open: int, close: int, done: seq<Group>, spans: seq<MarkerSpan>,
                     nowSpans: seq<MarkerSpan>)
    requires Scanned(summary, index, scan, done, spans)
    requires IsPair(summary, scan, open, close)
    requires nowSpans == Spans(done + [Group(open, close)], ChipsOf(summary, index))
    ensures Scanned(summary, index, close + 1, done + [Group(open, close)], nowSpans)
  {
    BracketFound(summary, scan, open, close, done);
  }

  lemma ScanEnds(summary: string, index: Index, scan: int, done: seq<Group>, spans: seq<MarkerSpan>)
    requires Scanned(summary, index, scan, done, spans) && (scan == |summary| || Brackets(summary, scan) == [])
    ensures spans == Spans(Brackets(summary, 0), ChipsOf(summary, index))
  {
    if scan == |summary| {
      NoMoreBrackets(summary, scan);
    }
    assert done == Brackets(summary, 0);
  }

  lemma NoMoreBrackets(text: string, scan: nat)
    requires scan <= |text|
    requires IndexOfChar(text, '[', scan) == -1 || IndexOfChar(text, ']', IndexOfChar(text, '[', scan) + 1) == -1
    ensures Brackets(text, scan) == []
  {
  }

  lemma BracketFound(text: string, scan: nat, open: int, close: int, before: seq<Group>)
    requires scan <= |text| && open == IndexOfChar(text, '[', scan) != -1 && close == IndexOfChar(text, ']', open + 1) != -1
    ensures before + [Group(open, close)] + Brackets(text, close + 1) == before + Brackets(text, scan)
  {
    assert Brackets(text, scan) == [Group(open, close)] + Brackets(text, close + 1);
  }

  method AddSpan(summary: string, g: Group, index: Index, spans: seq<MarkerSpan>, ghost before: seq<Group>) returns (more: seq<MarkerSpan>)
    requires 0 <= g.open < g.close < |summary| && spans == Spans(before, ChipsOf(summary, index))
    ensures more == Spans(before + [g], ChipsOf(summary, index))
  {
    SpansAppend(before, g, ChipsOf(summary, index));
    var found := SpanOfBracket(summary, g, index);
    more := spans + found;
  }

  method SpanOfBracket(summary: string, g: Group, index: Index) returns (spans: seq<MarkerSpan>)
    requires 0 <= g.open < g.close < |summary|
    ensures spans == SpanOf(g, ChipsOf(summary, index)(g))
  {
    var bracket := summary[g.open..g.close + 1];
    if bracket in index {
      return [MarkerSpan(g.open, g.close + 1, [Chip(g.open, bracket, index[bracket])])];
    }
    var members := ResolveMergedBracket(g.open, Body(summary, g), index);
    spans := if members.Some? then [MarkerSpan(g.open, g.close + 1, members.value)] else [];
  }

  method SegmentSummary(summary: string, citations: seq<string>) returns (segments: seq<Segment>)
    ensures segments == Segments(summary, IndexOfMarkers(citations))
  {
    var index := MarkerToIndex(citations);
    var spans := FindSpans(summary, index);
    SummarySpansForward(summary, index);
    segments := Assemble(summary, spans);
  }

  method Assemble(summary: string, spans: seq<MarkerSpan>) returns (segments: seq<Segment>)
    requires Forward(summary, spans, 0)
    ensures segments == SegmentsFrom(summary, spans, 0)
  {
    segments := [];
    var pos := 0;
    ghost var all := SegmentsFrom(summary, spans, 0);
    ghost var rest := all;
    assert spans[0..] == spans;
    for i := 0 to |spans|
      invariant 0 <= pos && Forward(summary, spans[i..], pos)
      invariant rest == SegmentsFrom(summary, spans[i..], pos) && segments + rest == all
    {
      var span := spans[i];
      SegmentsStep(summary, spans, i, pos);
      ghost var after := SegmentsFrom(summary, spans[i + 1..], span.end);
      var found := Between(summary, pos, span.start) + Cites(span.markers);
      Moved(segments, rest, found, after, all);
      segments := segments + found;
      rest := after;
      pos := span.end;
    }
    segments := segments + Between(summary, pos, |summary|);
  }

  lemma SegmentsStep(text: string, spans: seq<MarkerSpan>, i: nat, pos: int)
    requires i < |spans| && 0 <= pos && Forward(text, spans[i..], pos)
    ensures pos <= spans[i].start < spans[i].end <= |text| && Forward(text, spans[i + 1..], spans[i].end)
    ensures SegmentsFrom(text, spans[i..], pos)
            == Between(text, pos, spans[i].start) + Cites(spans[i].markers) + SegmentsFrom(text, spans[i + 1..], spans[i].end)
  {
    assert spans[i..][0] == spans[i] && spans[i..][1..] == spans[i + 1..];
  }

  // ----- what the segments are worth -------------------------------------------------------------------

  predicate ExactSlice(text: string, s: Segment) {
    s.Prose? ==> 0 <= s.start < s.start + |s.text| <= |text| && s.text == text[s.start..s.start + |s.text|]
  }

  /** Starts strictly increase and text segments are non-empty exact slices. */
  ghost predicate WellPlaced(text: string, segments: seq<Segment>, from: int) {
    && (forall i :: 0 <= i < |segments| ==> from <= segments[i].start && ExactSlice(text, segments[i]))
    && forall i, j :: 0 <= i < j < |segments| ==> segments[i].start < segments[j].start
  }

  /** All starts lie before `to`. */
  ghost predicate EndsBefore(segments: seq<Segment>, to: int) {
    forall i :: 0 <= i < |segments| ==> segments[i].start < to
  }

  lemma PlacedThen(text: string, a: seq<Segment>, b: seq<Segment>, from: int, mid: int)
    requires WellPlaced(text, a, from) && EndsBefore(a, mid) && WellPlaced(text, b, mid) && from <= mid
    ensures WellPlaced(text, a + b, from)
  {
    var all, k := a + b, |a|;
    forall i | 0 <= i < |all|
      ensures all[i] == if i < k then a[i] else b[i - k]
    {
    }
    forall i, j | 0 <= i < j < |all|
      ensures all[i].start < all[j].start
    {
      if i < k <= j {
        assert all[i] == a[i] && all[j] == b[j - k];
      }
    }
  }

  lemma SpanPlaced(text: string, s: MarkerSpan, pos: int)
    requires 0 <= pos <= s.start < s.end <= |text| && InSpan(s)
    ensures WellPlaced(text, Between(text, pos, s.start) + Cites(s.markers), pos)
    ensures EndsBefore(Between(text, pos, s.start) + Cites(s.markers), s.end)
  {
    PlacedThen(text, Between(text, pos, s.start), Cites(s.markers), pos, s.start);
  }

  lemma {:induction false} SegmentsPlaced(text: string, spans: seq<MarkerSpan>, pos: int)
    requires 0 <= pos && Forward(text, spans, pos)
    ensures WellPlaced(text, SegmentsFrom(text, spans, pos), pos)
  {
    if spans != [] {
      var s := spans[0];
      SpanPlaced(text, s, pos);
      SegmentsPlaced(text, spans[1..], s.end);
      PlacedThen(text, Between(text, pos, s.start) + Cites(s.markers), SegmentsFrom(text, spans[1..], s.end), pos, s.end);
    }
  }

  /** For every summary and every citation list: starts strictly increase and text is quoted exactly. */
  lemma SummarySegmentsPlaced(summary: string, index: Index)
    ensures WellPlaced(summary, Segments(summary, index), 0)
  {
    SummarySpansForward(summary, index);
    SegmentsPlaced(summary, Spans(Brackets(summary, 0), ChipsOf(summary, index)), 0);
  }

  /** What the reader sees. */
  function Shown(segments: seq<Segment>): string {
    if segments == [] then [] else (if segments[0].Prose? then segments[0].text else segments[0].marker) + Shown(segments[1..])
  }

  lemma {:induction false} ShownAppend(a: seq<Segment>, b: seq<Segment>)
    ensures Shown(a + b) == Shown(a) + Shown(b)
  {
    if a == [] {
      assert a + b == b;
    } else {
      assert (a + b)[1..] == a[1..] + b;
      ShownAppend(a[1..], b);
    }
  }

  /** A span made of one marker verbatim, not of the members of a merged bracket. */
  predicate Verbatim(text: string, s: MarkerSpan)
    requires 0 <= s.start < s.end <= |text|
  {
    |s.markers| == 1 && s.markers[0].marker == text[s.start..s.end]
  }

  ghost predicate AllVerbatim(text: string, spans: seq<MarkerSpan>, pos: int)
    requires 0 <= pos && Forward(text, spans, pos)
  {
    spans == [] || (Verbatim(text, spans[0]) && AllVerbatim(text, spans[1..], spans[0].end))
  }

  lemma {:induction false} ShownIsText(text: string, spans: seq<MarkerSpan>, pos: int)
    requires 0 <= pos && Forward(text, spans, pos) && AllVerbatim(text, spans, pos)
    ensures pos <= |text| && Shown(SegmentsFrom(text, spans, pos)) == text[pos..]
  {
    if spans == [] {
      ShownBetween(text, pos, |text|);
    } else {
      var s := spans[0];
      ShownIsText(text, spans[1..], s.end);
      ShownAppend(Between(text, pos, s.start) + Cites(s.markers), SegmentsFrom(text, spans[1..], s.end));
      ShownThroughSpan(text, s, pos);
      PrefixAndRest(text, pos, s.end);
    }
  }

  lemma ShownBetween(text: string, from: int, to: int)
    requires 0 <= from <= to <= |text|
    ensures Shown(Between(text, from, to)) == text[from..to]
  {
  }

  lemma ShownThroughSpan(text: string, s: MarkerSpan, pos: int)
    requires 0 <= pos <= s.start < s.end <= |text| && Verbatim(text, s)
    ensures Shown(Between(text, pos, s.start) + Cites(s.markers)) == text[pos..s.end]
  {
    ShownAppend(Between(text, pos, s.start), Cites(s.markers));
    ShownBetween(text, pos, s.start);
    assert Cites(s.markers)[1..] == [];
    PrefixAndRest(text[..s.end], pos, s.start);
    assert text[..s.end][pos..s.start] == text[pos..s.start];
  }

  lemma PrefixAndRest(s: string, a: int, b: int)
    requires 0 <= a <= b <= |s|
    ensures s[a..b] + s[b..] == s[a..]
  {
  }

  /** No bracket of the summary is exploded: each one that resolves is a marker verbatim. */
  ghost predicate NothingMerged(summary: string, groups: seq<Group>, index: Index)
    requires forall g <- groups :: 0 <= g.open < g.close < |summary|
  {
    forall g <- groups :: summary[g.open..g.close + 1] in index || MergedChips(g.open, Body(summary, g), index) == []
  }
}
