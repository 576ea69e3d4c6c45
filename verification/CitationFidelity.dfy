/** When what the reader sees is the summary itself: web/lib/summary.ts drops the separators of a merged bracket. */
module CitationFidelity {
  import opened CitationExtract
  import opened CitationSegments

  /** The first chip ends with a bracket where the summary has none. */
  predicate Exploded(text: string, s: MarkerSpan)
    requires 0 <= s.start < s.end <= |text|
  {
    s.markers != []
    && var marker := s.markers[0].marker;
       var n := |marker|;
       n > 0 && s.start + n <= s.end && marker[n - 1] == ']' && text[s.start + n - 1] != ']'
  }

  ghost predicate EachReads(text: string, spans: seq<MarkerSpan>, pos: int)
    requires 0 <= pos && Forward(text, spans, pos)
  {
    spans == [] || ((Verbatim(text, spans[0]) || Exploded(text, spans[0])) && EachReads(text, spans[1..], spans[0].end))
  }

  lemma ShownOfCites(chips: seq<Chip>)
    requires chips != []
    ensures Shown(Cites(chips)) == chips[0].marker + Shown(Cites(chips)[1..])
  {
  }

  lemma DiffersAt(shown: string, text: string, head: string, marker: string, rest: string)
    requires shown == head + (marker + rest) && marker != [] && |head| + |marker| <= |text|
    requires marker[|marker| - 1] != text[|head| + |marker| - 1]
    ensures shown != text
  {
    assert shown[|head| + |marker| - 1] == marker[|marker| - 1];
  }

  /** An exploded span cannot be read as the summary. */
  lemma ExplodedDiffers(text: string, s: MarkerSpan, pos: int, rest: seq<Segment>)
    requires 0 <= pos <= s.start < s.end <= |text| && Exploded(text, s)
    ensures Shown(Between(text, pos, s.start) + Cites(s.markers) + rest) != text[pos..]
  {
    var before, cites := Between(text, pos, s.start), Cites(s.markers);
    ShownAppend(before + cites, rest);
    ShownAppend(before, cites);
    ShownBetween(text, pos, s.start);
    ShownOfCites(s.markers);
    var marker, tail := s.markers[0].marker, Shown(cites[1..]) + Shown(rest);
    Grouped(text[pos..s.start], marker, Shown(cites[1..]), Shown(rest));
    assert text[pos..][(s.start - pos) + |marker| - 1] == text[s.start + |marker| - 1];
    DiffersAt(Shown(before + cites + rest), text[pos..], text[pos..s.start], marker, tail);
  }

  lemma Grouped(a: string, b: string, c: string, d: string)
    ensures a + (b + c) + d == a + (b + (c + d))
  {
  }

  lemma SamePrefix(a: string, b: string, c: string)
    ensures a + b == a + c <==> b == c
  {
    if a + b == a + c {
      assert b == (a + b)[|a|..] && c == (a + c)[|a|..];
    }
  }

  /** Spans that are verbatim or exploded are read as the text if and only if all are verbatim. */
  lemma {:induction false} ReadIffVerbatim(text: string, spans: seq<MarkerSpan>, pos: int)
    requires 0 <= pos && Forward(text, spans, pos) && EachReads(text, spans, pos)
    ensures pos <= |text| && (Shown(SegmentsFrom(text, spans, pos)) == text[pos..] <==> AllVerbatim(text, spans, pos))
  {
    if AllVerbatim(text, spans, pos) {
      ShownIsText(text, spans, pos);
    } else if Verbatim(text, spans[0]) {
      var s := spans[0];
      var rest := SegmentsFrom(text, spans[1..], s.end);
      ReadIffVerbatim(text, spans[1..], s.end);
      ShownAppend(Between(text, pos, s.start) + Cites(s.markers), rest);
      ShownThroughSpan(text, s, pos);
      PrefixAndRest(text, pos, s.end);
      SamePrefix(text[pos..s.end], Shown(rest), text[s.end..]);
    } else {
      ExplodedDiffers(text, spans[0], pos, SegmentsFrom(text, spans[1..], spans[0].end));
    }
  }

  // ----- the brackets of a summary ------------------------------------------------------------

  /** A bracket as the scan finds it: nothing closes before its end. */
  predicate Scanned(text: string, g: Group) {
    0 <= g.open < g.close < |text| && text[g.open] == '[' && text[g.close] == ']' && Without(text, ']', g.open + 1, g.close)
  }

  lemma {:induction false} BracketsScanned(text: string, scan: nat)
    requires scan <= |text|
    ensures forall g <- Brackets(text, scan) :: Scanned(text, g)
    decreases |text| - scan
  {
    var open := IndexOfChar(text, '[', scan);
    if open != -1 && IndexOfChar(text, ']', open + 1) != -1 {
      IndexOfCharIsFirst(text, ']', open + 1);
      BracketsScanned(text, IndexOfChar(text, ']', open + 1) + 1);
    }
  }

  /** Every chip of a merged bracket carries a marker of the index. */
  lemma {:induction false} PartsInIndex(base: int, inner: string, parts: seq<string>, cursor: nat, index: Index)
    ensures forall c <- ResolveParts(base, inner, parts, cursor, Finder(index)) :: c.marker in index
    decreases |parts|
  {
    if parts != [] {
      var (chips, next) := PartChips(base, inner, parts[0], cursor, Finder(index));
      PartsInIndex(base, inner, parts[1..], next, index);
      OneInIndex(base, inner, parts[0], cursor, index);
    }
  }

  lemma OneInIndex(base: int, inner: string, part: string, cursor: nat, index: Index)
    ensures forall c <- PartChips(base, inner, part, cursor, Finder(index)).0 :: c.marker in index
  {
  }

  lemma MergedInIndex(start: int, body: string, index: Index)
    ensures forall c <- MergedChips(start, body, index) :: c.marker in index
  {
    PartsInIndex(start + 1, body, Split(body), 0, index);
  }

  lemma ProperPart(s: string, at: int, k: int)
    requires 0 <= at && 0 <= k && at + k <= |s| && s[at..at + k] != s
    ensures k < |s|
  {
    assert s[0..|s|] == s;
  }

  /** A chip whose marker is not the bracket itself ends inside the bracket. */
  lemma PartIsExploded(text: string, g: Group, chips: seq<Chip>, at: int, k: int)
    requires Scanned(text, g) && chips != [] && 0 <= at && 0 < k && at + k <= |Body(text, g)|
    requires chips[0].marker == Mark(Body(text, g)[at..at + k]) && Body(text, g)[at..at + k] != Body(text, g)
    ensures Exploded(text, MarkerSpan(g.open, g.close + 1, chips))
  {
    ProperPart(Body(text, g), at, k);
    assert chips[0].marker[k + 1] == ']';
  }

  lemma MergedIsExploded(text: string, g: Group, index: Index, chips: seq<Chip>)
    requires Scanned(text, g) && chips != [] && ChipStands(g.open + 1, Body(text, g), chips[0], 0)
    requires chips[0].marker in index && Bracket(text, g) !in index
    ensures Exploded(text, MarkerSpan(g.open, g.close + 1, chips))
  {
    assert Bracket(text, g) == Mark(Body(text, g));
    PartIsExploded(text, g, chips, chips[0].start - g.open - 1, |chips[0].marker| - 2);
  }

  lemma NotBoth(text: string, s: MarkerSpan)
    requires 0 <= s.start < s.end <= |text| && Exploded(text, s)
    ensures !Verbatim(text, s)
  {
  }

  predicate Reads(text: string, g: Group, chips: seq<Chip>, verbatim: bool) {
    0 <= g.open < g.close < |text|
    && (chips != [] ==>
          var s := MarkerSpan(g.open, g.close + 1, chips);
          (Verbatim(text, s) <==> verbatim) && (!verbatim ==> Exploded(text, s)))
  }

  /** The span of a bracket is verbatim if and only if the bracket is a marker, and exploded otherwise. */
  lemma SpanReads(text: string, g: Group, index: Index, merged: seq<Chip>)
    requires Scanned(text, g)
    requires merged != [] ==> ChipStands(g.open + 1, Body(text, g), merged[0], 0) && merged[0].marker in index
    ensures var bracket := Bracket(text, g);
            var chips := if bracket in index then [Chip(g.open, bracket, index[bracket])] else merged;
            Reads(text, g, chips, bracket in index)
  {
    if Bracket(text, g) !in index && merged != [] {
      MergedIsExploded(text, g, index, merged);
      NotBoth(text, MarkerSpan(g.open, g.close + 1, merged));
    }
  }

  lemma MergedFirst(text: string, g: Group, index: Index)
    requires 0 <= g.open < g.close < |text|
    ensures var merged := MergedChips(g.open, Body(text, g), index);
            merged != [] ==> ChipStands(g.open + 1, Body(text, g), merged[0], 0) && merged[0].marker in index
  {
    MergedChipsStand(g.open, Body(text, g), index);
    MergedInIndex(g.open, Body(text, g), index);
  }

  /** The bracket resolves to nothing, or to itself. */
  predicate Kept(chips: Chipper, verbatim: Group -> bool, g: Group) {
    chips(g) == [] || verbatim(g)
  }

  lemma {:induction false} SpansRead(text: string, groups: seq<Group>, chips: Chipper, verbatim: Group -> bool, from: int)
    requires forall g <- groups :: Reads(text, g, chips(g), verbatim(g))
    requires 0 <= from && Forward(text, Spans(groups, chips), from)
    ensures EachReads(text, Spans(groups, chips), from)
    ensures AllVerbatim(text, Spans(groups, chips), from) <==> forall g <- groups :: Kept(chips, verbatim, g)
  {
    if groups != [] {
      var g := groups[0];
      assert Reads(text, g, chips(g), verbatim(g));
      assert groups == [g] + groups[1..];
      if chips(g) == [] {
        assert Spans(groups, chips) == Spans(groups[1..], chips);
        SpansRead(text, groups[1..], chips, verbatim, from);
      } else {
        assert Spans(groups, chips)[1..] == Spans(groups[1..], chips);
        SpansRead(text, groups[1..], chips, verbatim, g.close + 1);
      }
      assert (forall h <- groups :: Kept(chips, verbatim, h))
        <==> Kept(chips, verbatim, g) && forall h <- groups[1..] :: Kept(chips, verbatim, h);
    }
  }

  /** The segments put together are the summary if and only if no merged bracket is exploded. */
  lemma SegmentsSpellIff(summary: string, index: Index)
    ensures Shown(Segments(summary, index)) == summary <==> NothingMerged(summary, Brackets(summary, 0), index)
  {
    var groups, chips := Brackets(summary, 0), ChipsOf(summary, index);
    var verbatim := (g: Group) => 0 <= g.open < g.close < |summary| && Bracket(summary, g) in index;
    SummarySpansForward(summary, index);
    BracketsScanned(summary, 0);
    forall g <- groups
      ensures Reads(summary, g, chips(g), verbatim(g))
      ensures Kept(chips, verbatim, g) <==> (Bracket(summary, g) in index || MergedChips(g.open, Body(summary, g), index) == [])
    {
      MergedFirst(summary, g, index);
      SpanReads(summary, g, index, MergedChips(g.open, Body(summary, g), index));
    }
    SpansRead(summary, groups, chips, verbatim, 0);
    ReadIffVerbatim(summary, Spans(groups, chips), 0);
    assert summary[0..] == summary;
    assert NothingMerged(summary, groups, index) <==> forall g <- groups :: Kept(chips, verbatim, g);
  }
}
