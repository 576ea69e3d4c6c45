/** When the chips of the client name the citations of the server, in the same order. */
module CitationAgreement {
  import opened Common
  import opened CitationLabels
  import opened CitationExtract
  import opened CitationSegments

  // ----- the condition, as a reader of the summary could check it -------------------------------

  /** Blanks before the member and nothing after it. */
  predicate PlainPart(part: string) {
    part[SkipBlanks(part, 0)..] == Trim(part)
  }

  /** Members set apart by a comma and blanks only; a single member stands alone without any. */
  predicate PlainBody(body: string) {
    var parts := Split(body);
    AllPlain(parts) && (|parts| == 1 ==> Trim(body) == body)
  }

  predicate NoneNested(text: string, groups: seq<Group>) {
    groups == []
    || ((0 <= groups[0].open < groups[0].close < |text| ==> '[' !in Body(text, groups[0])) && NoneNested(text, groups[1..]))
  }

  predicate PlainSummary(summary: string) {
    && NoneNested(summary, Brackets(summary, 0))
    && forall g <- Brackets(summary, 0) :: PlainBody(Body(summary, g))
  }

  ghost predicate CommaFree(known: set<string>) {
    AllInner(known) && forall s <- known :: ',' !in s
  }

  // ----- both parsers meet the same brackets ------------------------------------------------------

  lemma {:induction false} GroupsSkip(text: string, from: nat, to: nat)
    requires from <= to <= |text| && Without(text, '[', from, to)
    ensures Groups(text, from) == Groups(text, to)
    decreases |text| - from
  {
    if from < to {
      GroupsSkip(text, from + 1, to);
    }
  }

  lemma {:induction false} NoGroupsLeft(text: string, from: nat)
    requires from <= |text| && Without(text, ']', from, |text|)
    ensures Groups(text, from) == []
    decreases |text| - from
  {
    if from < |text| {
      NoGroupsLeft(text, from + 1);
    }
  }

  lemma CloseIsNextBracket(text: string, open: nat, close: nat)
    requires open < close < |text| && close == IndexOfChar(text, ']', open + 1)
    requires '[' !in text[open + 1..close]
    ensures NextBracket(text, open + 1) == close
  {
    IndexOfCharIsFirst(text, ']', open + 1);
    assert forall j :: open + 1 <= j < close ==> text[j] == text[open + 1..close][j - open - 1];
    var i := NextBracket(text, open + 1);
    assert i >= close;
  }

  lemma {:induction false} BracketsAreGroups(text: string, scan: nat)
    requires scan <= |text| && NoneNested(text, Brackets(text, scan))
    ensures Brackets(text, scan) == Groups(text, scan)
    decreases |text| - scan
  {
    var open := IndexOfChar(text, '[', scan);
    if open == -1 {
      NoOpening(text, scan);
    } else {
      var close := IndexOfChar(text, ']', open + 1);
      if close == -1 {
        NoClosing(text, scan, open);
      } else {
        FirstNotNested(text, scan, open, close);
        BracketsAreGroups(text, close + 1);
        FirstGroup(text, open, close);
        FirstPair(text, scan, open);
      }
    }
  }

  lemma NoOpening(text: string, scan: nat)
    requires scan <= |text| && IndexOfChar(text, '[', scan) == -1
    ensures Brackets(text, scan) == [] && Groups(text, scan) == []
  {
    IndexOfCharIsFirst(text, '[', scan);
    GroupsSkip(text, scan, |text|);
  }

  lemma NoClosing(text: string, scan: nat, open: int)
    requires scan <= |text| && open == IndexOfChar(text, '[', scan) != -1 && IndexOfChar(text, ']', open + 1) == -1
    ensures Brackets(text, scan) == [] && Groups(text, scan) == []
  {
    FirstPair(text, scan, open);
    IndexOfCharIsFirst(text, ']', open + 1);
    NoGroupsLeft(text, open);
  }

  lemma FirstPair(text: string, scan: nat, open: int)
    requires scan <= |text| && open == IndexOfChar(text, '[', scan) != -1
    ensures Groups(text, scan) == Groups(text, open)
  {
    IndexOfCharIsFirst(text, '[', scan);
    GroupsSkip(text, scan, open);
  }

  lemma FirstGroup(text: string, open: nat, close: nat)
    requires open < close < |text| && text[open] == '[' && close == IndexOfChar(text, ']', open + 1)
    requires '[' !in text[open + 1..close]
    ensures Groups(text, open) == [Group(open, close)] + Groups(text, close + 1)
  {
    CloseIsNextBracket(text, open, close);
  }

  lemma FirstNotNested(text: string, scan: nat, open: int, close: int)
    requires scan <= |text| && open == IndexOfChar(text, '[', scan) != -1 && close == IndexOfChar(text, ']', open + 1) != -1
    requires NoneNested(text, Brackets(text, scan))
    ensures Brackets(text, scan) == [Group(open, close)] + Brackets(text, close + 1)
    ensures '[' !in text[open + 1..close] && NoneNested(text, Brackets(text, close + 1))
  {
    var rest := Brackets(text, close + 1);
    assert Brackets(text, scan) == [Group(open, close)] + rest;
    assert Brackets(text, scan)[1..] == rest;
  }

  // ----- one body ------------------------------------------------------------------------------------

  /** The trimmed parts that are known. */
  function KnownParts(known: set<string>, parts: seq<string>): seq<string> {
    if parts == [] then []
    else (if Trim(parts[0]) in known then [Trim(parts[0])] else []) + KnownParts(known, parts[1..])
  }

  lemma {:induction false} NextCommaMeaning(s: string, pos: nat)
    requires pos <= |s|
    ensures var i := NextComma(s, pos);
            && (i != -1 ==> s[i] == ',')
            && forall j :: pos <= j < (if i == -1 then |s| else i) ==> s[j] != ','
    decreases |s| - pos
  {
    if pos < |s| && s[pos] != ',' {
      NextCommaMeaning(s, pos + 1);
    }
  }

  /** The first part of the text from `at` on ends at `end`, at a comma or the end of the text. */
  predicate PartTo(inner: string, at: int, end: int) {
    && 0 <= at <= end <= |inner| && (forall j :: at <= j < end ==> inner[j] != ',')
    && (end < |inner| ==> inner[end] == ',')
  }

  lemma FirstPart(inner: string, at: nat)
    requires at <= |inner|
    ensures var parts := SplitFrom(inner, at);
            var end := at + |parts[0]|;
            && PartTo(inner, at, end) && parts[0] == inner[at..end]
            && parts[1..] == if end == |inner| then [] else SplitFrom(inner, end + 1)
  {
    NextCommaMeaning(inner, at);
    SplitStep(inner, at);
  }

  lemma {:induction false} NextCommaIs(inner: string, p: nat, end: nat)
    requires PartTo(inner, p, end)
    ensures NextComma(inner, p) == if end == |inner| then -1 else end
    decreases |inner| - p
  {
    if p < end {
      NextCommaIs(inner, p + 1, end);
    }
  }

  lemma {:induction false} BlanksOfPart(inner: string, at: nat, end: nat)
    requires PartTo(inner, at, end)
    ensures SkipBlanks(inner, at) == at + SkipBlanks(inner[at..end], 0)
    ensures PartTo(inner, SkipBlanks(inner, at), end)
    decreases |inner| - at
  {
    var part := inner[at..end];
    if at < end && inner[at] == ' ' {
      BlanksOfPart(inner, at + 1, end);
      BlanksShift(part, 1);
      assert part[1..] == inner[at + 1..end];
    }
  }

  lemma {:induction false} BlanksShift(s: string, k: nat)
    requires k <= |s|
    ensures SkipBlanks(s, k) == k + SkipBlanks(s[k..], 0)
    decreases |s| - k
  {
    if k < |s| && s[k] == ' ' {
      BlanksShift(s, k + 1);
      BlanksShift(s[k..], 1);
      assert s[k..][1..] == s[k + 1..];
    }
  }

  /** In a comma-free vocabulary what stands at the start of a member is the whole member. */
  lemma StandsIsWhole(inner: string, p: nat, end: nat, d: string)
    requires PartTo(inner, p, end) && ',' !in d
    ensures Stands(inner, p, d) <==> d != [] && d == inner[p..end]
  {
    if Stands(inner, p, d) {
      assert forall x :: 0 <= x < |d| ==> d[x] == inner[p + x];
      assert p + |d| == end;
    }
  }

  lemma BestOfPart(known: set<string>, inner: string, p: nat, end: nat)
    requires CommaFree(known) && PartTo(inner, p, end)
    ensures Best(known, inner, p) == if inner[p..end] in known then Some(inner[p..end]) else None
  {
    var core := inner[p..end];
    forall d | d in known
      ensures Stands(inner, p, d) <==> d == core
    {
      StandsIsWhole(inner, p, end, d);
      MarkerStarts(d);
    }
    if core in known {
      LongestUnique(known, inner, p, core);
    }
  }

  /** `parts` lie one behind the other from `at` on, set apart by single commas. */
  ghost predicate Parted(inner: string, at: int, parts: seq<string>)
    decreases |parts|
  {
    && parts != [] && PartTo(inner, at, at + |parts[0]|) && parts[0] == inner[at..at + |parts[0]|]
    && if |parts| == 1 then at + |parts[0]| == |inner| else at + |parts[0]| < |inner| && Parted(inner, at + |parts[0]| + 1, parts[1..])
  }

  lemma {:induction false} SplitIsParted(inner: string, at: nat)
    requires at <= |inner|
    ensures Parted(inner, at, SplitFrom(inner, at))
    decreases |inner| - at
  {
    FirstPart(inner, at);
    var end := at + |SplitFrom(inner, at)[0]|;
    if end < |inner| {
      SplitIsParted(inner, end + 1);
    }
  }

  /** What the reader makes of one part: its core if that is recognised, otherwise nothing. */
  predicate ReadsPart(read: Reader, inner: string, at: int, end: int, core: string, found: bool)
    requires PartTo(inner, at, end)
  {
    var p := SkipBlanks(inner, at);
    && PartTo(inner, p, end) && |core| == end - p
    && NextComma(inner, p) == (if end == |inner| then -1 else end)
    && read(p) == (if found then Some(core) else None) && (found ==> core != [])
  }

  lemma PartRead(read: Reader, inner: string, at: int, end: int, core: string, found: bool)
    requires PartTo(inner, at, end) && ReadsPart(read, inner, at, end, core, found)
    ensures MembersFrom(read, inner, at)
            == (if found then [core] else []) + if end == |inner| then [] else MembersFrom(read, inner, end + 1)
  {
    var p := SkipBlanks(inner, at);
    SkippedBlanks(read, inner, at, p);
    var rest := if end == |inner| then [] else MembersFrom(read, inner, end + 1);
    if found {
      MemberFound(read, inner, p, core);
      BehindPart(read, inner, end);
    } else {
      PartSkipped(read, inner, p, end);
      NothingBefore(rest);
    }
  }

  lemma BehindPart(read: Reader, inner: string, end: int)
    requires 0 <= end <= |inner| && (end < |inner| ==> inner[end] == ',')
    ensures MembersFrom(read, inner, PastComma(inner, end)) == if end == |inner| then [] else MembersFrom(read, inner, end + 1)
  {
  }

  lemma NothingBefore(rest: seq<string>)
    ensures [] + rest == rest
  {
  }

  lemma PartSkipped(read: Reader, inner: string, p: int, end: int)
    requires PartTo(inner, p, end) && SkipBlanks(inner, p) == p && read(p) == None
    requires NextComma(inner, p) == if end == |inner| then -1 else end
    ensures MembersFrom(read, inner, p) == if end == |inner| then [] else MembersFrom(read, inner, end + 1)
  {
  }

  lemma PlainPartIsRead(known: set<string>, inner: string, at: int, end: int)
    requires CommaFree(known) && PartTo(inner, at, end) && PlainPart(inner[at..end])
    ensures ReadsPart(Reading(known, inner), inner, at, end, Trim(inner[at..end]), Trim(inner[at..end]) in known)
  {
    BlanksOfPart(inner, at, end);
    var p := SkipBlanks(inner, at);
    CoreOfPart(inner, at, end);
    BestOfPart(known, inner, p, end);
    NextCommaIs(inner, p, end);
    if [] in known {
      MarkerStarts([]);
    }
    PartIsRead(Reading(known, inner), inner, at, end, Trim(inner[at..end]), known);
  }

  lemma CoreOfPart(inner: string, at: nat, end: nat)
    requires PartTo(inner, at, end) && PlainPart(inner[at..end])
    ensures at <= SkipBlanks(inner, at) <= end && Trim(inner[at..end]) == inner[SkipBlanks(inner, at)..end]
  {
    BlanksOfPart(inner, at, end);
    SuffixOfSlice(inner, at, SkipBlanks(inner, at), end);
  }

  lemma SuffixOfSlice(s: string, a: nat, b: nat, c: nat)
    requires a <= b <= c <= |s|
    ensures s[a..c][b - a..] == s[b..c]
  {
  }

  lemma PartIsRead(read: Reader, inner: string, at: int, end: int, core: string, known: set<string>)
    requires PartTo(inner, at, end) && PartTo(inner, SkipBlanks(inner, at), end) && |core| == end - SkipBlanks(inner, at)
    requires NextComma(inner, SkipBlanks(inner, at)) == if end == |inner| then -1 else end
    requires read(SkipBlanks(inner, at)) == (if core in known then Some(core) else None) && [] !in known
    ensures ReadsPart(read, inner, at, end, core, core in known)
  {
  }

  predicate AllPlain(parts: seq<string>) {
    forall i :: 0 <= i < |parts| ==> PlainPart(parts[i])
  }

  lemma RestPlain(parts: seq<string>)
    requires parts != [] && AllPlain(parts)
    ensures PlainPart(parts[0]) && AllPlain(parts[1..])
  {
  }

  /** The reader makes the core of every part of it that is known, and nothing of the others. */
  ghost predicate ReadsParts(read: Reader, inner: string, at: int, parts: seq<string>, known: set<string>)
    decreases |parts|
  {
    parts != []
    && var end := at + |parts[0]|;
       && PartTo(inner, at, end) && ReadsPart(read, inner, at, end, Trim(parts[0]), Trim(parts[0]) in known)
       && if |parts| == 1 then end == |inner| else end < |inner| && ReadsParts(read, inner, end + 1, parts[1..], known)
  }

  lemma {:induction false} PlainPartsAreRead(known: set<string>, inner: string, at: int, parts: seq<string>)
    requires CommaFree(known) && Parted(inner, at, parts) && AllPlain(parts)
    ensures ReadsParts(Reading(known, inner), inner, at, parts, known)
    decreases |parts|
  {
    RestPlain(parts);
    PlainPartIsRead(known, inner, at, at + |parts[0]|);
    if |parts| > 1 {
      PlainPartsAreRead(known, inner, at + |parts[0]| + 1, parts[1..]);
    }
  }

  lemma {:induction false} ReadPartsAreMembers(read: Reader, inner: string, at: int, parts: seq<string>, known: set<string>)
    requires ReadsParts(read, inner, at, parts, known)
    ensures 0 <= at <= |inner| && MembersFrom(read, inner, at) == KnownParts(known, parts)
    decreases |parts|
  {
    var end := at + |parts[0]|;
    PartRead(read, inner, at, end, Trim(parts[0]), Trim(parts[0]) in known);
    var core := if Trim(parts[0]) in known then [Trim(parts[0])] else [];
    if |parts| > 1 {
      ReadPartsAreMembers(read, inner, end + 1, parts[1..], known);
      KnownPartsStep(known, parts, core, MembersFrom(read, inner, end + 1));
    } else {
      KnownPartsStep(known, parts, core, []);
    }
  }

  lemma KnownPartsStep(known: set<string>, parts: seq<string>, core: seq<string>, rest: seq<string>)
    requires parts != [] && core == if Trim(parts[0]) in known then [Trim(parts[0])] else []
    requires if |parts| == 1 then rest == [] else rest == KnownParts(known, parts[1..])
    ensures core + rest == KnownParts(known, parts)
  {
    if |parts| == 1 {
      assert KnownParts(known, parts[1..]) == [];
    }
  }

  /** The server resolves a plain body part by part. */
  lemma PlainMembers(known: set<string>, inner: string)
    requires CommaFree(known) && AllPlain(Split(inner))
    ensures Members(known, inner, 0) == KnownParts(known, Split(inner))
  {
    SplitIsParted(inner, 0);
    PlainPartsAreRead(known, inner, 0, Split(inner));
    ReadPartsAreMembers(Reading(known, inner), inner, 0, Split(inner), known);
  }

  // ----- the client's chips ------------------------------------------------------------------------

  function Marks(inners: seq<string>): (marks: seq<string>)
    ensures |marks| == |inners| && forall i :: 0 <= i < |inners| ==> marks[i] == Mark(inners[i])
  {
    seq(|inners|, i requires 0 <= i < |inners| => Mark(inners[i]))
  }

  lemma MarksAppend(a: seq<string>, b: seq<string>)
    ensures Marks(a + b) == Marks(a) + Marks(b)
  {
  }

  lemma MarkInjective(a: string, b: string)
    requires Mark(a) == Mark(b)
    ensures a == b
  {
    assert Mark(a)[1..|Mark(a)| - 1] == a && Mark(b)[1..|Mark(b)| - 1] == b;
  }

  function MarkersOf(chips: seq<Chip>): (markers: seq<string>)
    ensures |markers| == |chips|
  {
    seq(|chips|, i requires 0 <= i < |chips| => chips[i].marker)
  }

  function SetOf(members: seq<string>): set<string> {
    set m | m in members
  }

  /** The index has exactly the markers of `cited`. */
  ghost predicate Indexes(index: Index, cited: set<string>) {
    forall inner :: Mark(inner) in index <==> inner in cited
  }

  lemma {:induction false} LastIndexFinds(s: string, c: char)
    requires c in s
    ensures LastIndexOf(s, c) != -1
  {
    if s[|s| - 1] != c {
      assert c in s[..|s| - 1];
      LastIndexFinds(s[..|s| - 1], c);
    }
  }

  lemma InnerParses(inner: string)
    requires IsInner(inner)
    ensures ParseMarker(Mark(inner)).Some?
  {
    var tag, k :| InnerAs(inner, tag, k);
    assert inner[|tag|] == ':';
    LastIndexFinds(inner, ':');
    assert Mark(inner)[1..|Mark(inner)| - 1] == inner;
  }

  lemma FinderFinds(index: Index, cited: set<string>, inner: string)
    requires Indexes(index, cited) && AllInner(cited)
    ensures Finder(index)(inner).Some? <==> inner in cited
  {
    assert Mark(inner) in index <==> inner in cited;
    if inner in cited {
      InnerParses(inner);
    }
  }

  lemma {:induction false} PartChipMarkers(base: int, inner: string, parts: seq<string>, cursor: nat, find: Lookup, cited: set<string>)
    requires forall s :: find(s).Some? <==> s in cited
    ensures MarkersOf(ResolveParts(base, inner, parts, cursor, find)) == Marks(KnownParts(cited, parts))
    decreases |parts|
  {
    if parts != [] {
      var (chips, next) := PartChips(base, inner, parts[0], cursor, find);
      PartChipMarkers(base, inner, parts[1..], next, find, cited);
      MarksAppend(if Trim(parts[0]) in cited then [Trim(parts[0])] else [], KnownParts(cited, parts[1..]));
      MarkersAppend(chips, ResolveParts(base, inner, parts[1..], next, find));
    }
  }

  lemma MarkersAppend(a: seq<Chip>, b: seq<Chip>)
    ensures MarkersOf(a + b) == MarkersOf(a) + MarkersOf(b)
  {
  }

  lemma SingleHasNoComma(body: string)
    ensures |Split(body)| == 1 <==> ',' !in body
    ensures |Split(body)| == 1 ==> Split(body)[0] == body
  {
    NextCommaMeaning(body, 0);
  }

  lemma KnownSingle(cited: set<string>, body: string)
    requires ',' !in body && Trim(body) == body
    ensures |Split(body)| == 1 && KnownParts(cited, Split(body)) == if body in cited then [body] else []
  {
    SingleHasNoComma(body);
    assert Split(body)[1..] == [];
  }

  lemma MergedMarkers(start: int, body: string, index: Index, cited: set<string>)
    requires Indexes(index, cited) && AllInner(cited) && |Split(body)| >= 2
    ensures MarkersOf(MergedChips(start, body, index)) == Marks(KnownParts(cited, Split(body)))
  {
    forall s
      ensures Finder(index)(s).Some? <==> s in cited
    {
      FinderFinds(index, cited, s);
    }
    PartChipMarkers(start + 1, body, Split(body), 0, Finder(index), cited);
  }

  /** The chips of a plain bracket are its cited members, if those of a merged one are. */
  lemma PlainChips(open: int, body: string, index: Index, cited: set<string>, merge: Merger, known: seq<string>)
    requires Mark(body) in index <==> body in cited
    requires MarkersOf(merge(open, body)) == if ',' in body then Marks(known) else []
    requires ',' !in body ==> known == if body in cited then [body] else []
    requires body in cited ==> ',' !in body
    ensures MarkersOf(BracketChips(open, Mark(body), body, index, merge)) == Marks(known)
  {
  }

  lemma PlainSingle(cited: set<string>, body: string)
    requires PlainBody(body)
    ensures ',' !in body ==> KnownParts(cited, Split(body)) == if body in cited then [body] else []
  {
    SingleHasNoComma(body);
    if ',' !in body {
      KnownSingle(cited, body);
    }
  }

  lemma BracketIsMark(text: string, g: Group)
    requires 0 <= g.open < g.close < |text| && text[g.open] == '[' && text[g.close] == ']'
    ensures Bracket(text, g) == Mark(Body(text, g))
  {
  }

  lemma MergerMarkers(start: int, body: string, index: Index, cited: set<string>)
    requires Indexes(index, cited) && AllInner(cited)
    ensures MarkersOf(Merging(index)(start, body)) == if ',' in body then Marks(KnownParts(cited, Split(body))) else []
  {
    SingleHasNoComma(body);
    if ',' in body {
      MergedMarkers(start, body, index, cited);
    }
  }

  /** The rule the client documents: a bracket explodes only with two or more members resolved. */
  predicate ExplodesInTwos(chips: seq<Chip>) {
    chips == [] || |chips| >= 2
  }

  /** The code keeps that rule for a bracket body if and only if not exactly one of two or more members is cited. */
  lemma ExplodesInTwosIff(start: int, body: string, index: Index, cited: set<string>)
    requires Indexes(index, cited) && AllInner(cited)
    ensures ExplodesInTwos(MergedChips(start, body, index)) <==> !(|Split(body)| >= 2 && |KnownParts(cited, Split(body))| == 1)
  {
    if |Split(body)| >= 2 {
      MergedMarkers(start, body, index, cited);
      SameCount(MergedChips(start, body, index), KnownParts(cited, Split(body)));
    }
  }

  lemma SameCount(chips: seq<Chip>, inners: seq<string>)
    requires MarkersOf(chips) == Marks(inners)
    ensures |chips| == |inners|
  {
  }

  lemma TwoParts(s: string, comma: nat)
    requires PartTo(s, 0, comma) && comma < |s| && PartTo(s, comma + 1, |s|)
    ensures Split(s) == [s[..comma], s[comma + 1..]]
  {
    NextCommaIs(s, 0, comma);
    NextCommaIs(s, comma + 1, |s|);
    assert SplitFrom(s, comma + 1) == [s[comma + 1..]];
    assert s[0..comma] == s[..comma];
  }

  lemma OnlyCited()
    ensures AllInner({"A:1"}) && Indexes(map["[A:1]" := 0], {"A:1"})
  {
    assert InnerAs("A:1", "A", 1);
    assert Mark("A:1") == "[A:1]";
    forall inner
      ensures Mark(inner) in map["[A:1]" := 0] <==> inner in {"A:1"}
    {
      if Mark(inner) == "[A:1]" {
        MarkInjective(inner, "A:1");
      }
    }
  }

  /** One cited member beside an invented one explodes the bracket. */
  lemma OneMemberExplodes()
    ensures !ExplodesInTwos(MergedChips(0, "A:1,B", map["[A:1]" := 0]))
  {
    var body := "A:1,B";
    TwoParts(body, 3);
    assert body[..3] == "A:1" && body[4..] == "B";
    assert Trim("A:1") == "A:1" && Trim("B") == "B";
    assert ["A:1", "B"][1..] == ["B"] && ["B"][1..] == [];
    assert |"B"| != |"A:1"|;
    assert KnownParts({"A:1"}, ["B"]) == [];
    assert KnownParts({"A:1"}, ["A:1", "B"]) == ["A:1"];
    OnlyCited();
    ExplodesInTwosIff(0, body, map["[A:1]" := 0], {"A:1"});
  }

  // ----- the whole summary ---------------------------------------------------------------------------

  /** The markers of the chips among the segments. */
  function CitedMarkers(segments: seq<Segment>): seq<string> {
    if segments == [] then []
    else (if segments[0].Cite? then [segments[0].marker] else []) + CitedMarkers(segments[1..])
  }

  lemma CitedFront(s: Segment, all: seq<Segment>, rest: seq<Segment>)
    requires all != [] && all[0] == s && all[1..] == rest
    ensures CitedMarkers(all) == (if s.Cite? then [s.marker] else []) + CitedMarkers(rest)
  {
  }

  lemma {:induction false} CitedAppend(a: seq<Segment>, b: seq<Segment>)
    ensures CitedMarkers(a + b) == CitedMarkers(a) + CitedMarkers(b)
  {
    if a == [] {
      assert a + b == b;
    } else {
      var rest := a[1..];
      CitedAppend(rest, b);
      CitedFront(a[0], a, rest);
      assert (a + b)[1..] == rest + b;
      CitedFront(a[0], a + b, rest + b);
      Regroup(if a[0].Cite? then [a[0].marker] else [], CitedMarkers(rest), CitedMarkers(b));
    }
  }

  lemma {:induction false} CitedOfChips(chips: seq<Chip>)
    ensures CitedMarkers(Cites(chips)) == MarkersOf(chips)
  {
    if chips != [] {
      assert Cites(chips)[1..] == Cites(chips[1..]);
      CitedOfChips(chips[1..]);
      assert MarkersOf(chips) == [chips[0].marker] + MarkersOf(chips[1..]);
    }
  }

  function SpanMarkers(spans: seq<MarkerSpan>): seq<string> {
    if spans == [] then [] else MarkersOf(spans[0].markers) + SpanMarkers(spans[1..])
  }

  lemma {:induction false} CitedOfSpans(text: string, spans: seq<MarkerSpan>, pos: int)
    requires 0 <= pos && Forward(text, spans, pos)
    ensures CitedMarkers(SegmentsFrom(text, spans, pos)) == SpanMarkers(spans)
  {
    if spans != [] {
      CitedOfSpans(text, spans[1..], spans[0].end);
      CitedOfSpan(text, pos, spans[0]);
      CitedAppend(Between(text, pos, spans[0].start) + Cites(spans[0].markers), SegmentsFrom(text, spans[1..], spans[0].end));
    }
  }

  lemma CitedOfSpan(text: string, pos: int, s: MarkerSpan)
    requires 0 <= pos <= s.start <= |text|
    ensures CitedMarkers(Between(text, pos, s.start) + Cites(s.markers)) == MarkersOf(s.markers)
  {
    CitedAppend(Between(text, pos, s.start), Cites(s.markers));
    CitedOfChips(s.markers);
    assert CitedMarkers(Between(text, pos, s.start)) == [];
  }

  /** All the known parts of the bodies, front to back. */
  function KnownOf(known: set<string>, bodies: seq<string>): seq<string> {
    if bodies == [] then [] else KnownParts(known, Split(bodies[0])) + KnownOf(known, bodies[1..])
  }

  ghost predicate PlainBodies(bodies: seq<string>) {
    forall i :: 0 <= i < |bodies| ==> PlainBody(bodies[i])
  }

  lemma {:induction false} ReadAllFront(read: string -> seq<string>, body: string, bodies: seq<string>)
    ensures ReadAll(read, [body] + bodies) == read(body) + ReadAll(read, bodies)
  {
    if bodies == [] {
      assert [body] + bodies == [] + [body];
      ReadAllAppend(read, [], body);
      assert ReadAll(read, []) == [];
    } else {
      var before, last := bodies[..|bodies| - 1], bodies[|bodies| - 1];
      ReadAllFront(read, body, before);
      assert [body] + bodies == [body] + before + [last];
      ReadAllAppend(read, [body] + before, last);
      Regroup(read(body), ReadAll(read, before), read(last));
    }
  }

  lemma Regroup(a: seq<string>, b: seq<string>, c: seq<string>)
    ensures (a + b) + c == a + (b + c)
  {
  }

  lemma {:induction false} ServerReadsKnownParts(known: set<string>, bodies: seq<string>)
    requires CommaFree(known) && PlainBodies(bodies)
    ensures AllMembers(known, bodies) == KnownOf(known, bodies)
  {
    if bodies != [] {
      var body := bodies[0];
      assert PlainBody(body);
      PlainMembers(known, body);
      assert forall i :: 0 <= i < |bodies[1..]| ==> bodies[1..][i] == bodies[i + 1];
      ServerReadsKnownParts(known, bodies[1..]);
      ReadAllFront(MembersIn(known), body, bodies[1..]);
      assert bodies == [body] + bodies[1..];
    }
  }

  /** Every marker among the bodies' known parts that is known stays found when only cited ones count. */
  lemma {:induction false} CitedPartsSame(known: set<string>, cited: set<string>, parts: seq<string>)
    requires forall m <- KnownParts(known, parts) :: m in cited
    requires forall m <- cited :: m in known
    ensures KnownParts(cited, parts) == KnownParts(known, parts)
  {
    if parts != [] {
      var rest := KnownParts(known, parts[1..]);
      assert forall m <- rest :: m in KnownParts(known, parts);
      CitedPartsSame(known, cited, parts[1..]);
      if Trim(parts[0]) in known {
        assert Trim(parts[0]) == KnownParts(known, parts)[0];
      }
    }
  }

  lemma {:induction false} CitedOfSame(known: set<string>, cited: set<string>, bodies: seq<string>)
    requires forall m <- KnownOf(known, bodies) :: m in cited
    requires forall m <- cited :: m in known
    ensures KnownOf(cited, bodies) == KnownOf(known, bodies)
  {
    if bodies != [] {
      var first, rest := KnownParts(known, Split(bodies[0])), KnownOf(known, bodies[1..]);
      assert forall m <- first :: m in first + rest;
      assert forall m <- rest :: m in first + rest;
      CitedPartsSame(known, cited, Split(bodies[0]));
      CitedOfSame(known, cited, bodies[1..]);
    }
  }

  ghost predicate PlainGroups(text: string, groups: seq<Group>) {
    forall g <- groups ::
      0 <= g.open < g.close < |text| && text[g.open] == '[' && text[g.close] == ']' && PlainBody(Body(text, g))
  }

  /** The client's spans carry the cited parts of the bodies. */
  lemma {:induction false} SpansCarryParts(text: string, groups: seq<Group>, index: Index, cited: set<string>)
    requires PlainGroups(text, groups) && Indexes(index, cited) && CommaFree(cited)
    ensures SpanMarkers(Spans(groups, ChipsOf(text, index))) == Marks(KnownOf(cited, Bodies(text, groups)))
  {
    if groups != [] {
      var g, chips := groups[0], ChipsOf(text, index);
      assert PlainGroups(text, groups[1..]);
      SpansCarryParts(text, groups[1..], index, cited);
      MergerMarkers(g.open, Body(text, g), index, cited);
      PlainSingle(cited, Body(text, g));
      PlainChips(g.open, Body(text, g), index, cited, Merging(index), KnownParts(cited, Split(Body(text, g))));
      BracketIsMark(text, g);
      assert chips(g) == BracketChips(g.open, Bracket(text, g), Body(text, g), index, Merging(index));
      FirstSpan(groups, chips);
      BodiesFront(text, groups);
      MarksAppend(KnownParts(cited, Split(Body(text, g))), KnownOf(cited, Bodies(text, groups[1..])));
    }
  }

  lemma FirstSpan(groups: seq<Group>, chips: Chipper)
    requires groups != []
    ensures SpanMarkers(Spans(groups, chips)) == MarkersOf(chips(groups[0])) + SpanMarkers(Spans(groups[1..], chips))
  {
    var rest := Spans(groups[1..], chips);
    if chips(groups[0]) == [] {
      assert Spans(groups, chips) == rest;
    } else {
      assert Spans(groups, chips)[1..] == rest;
    }
  }

  lemma BodiesFront(text: string, groups: seq<Group>)
    requires groups != [] && forall g <- groups :: 0 <= g.open < g.close < |text|
    ensures Bodies(text, groups)[0] == Body(text, groups[0]) && Bodies(text, groups)[1..] == Bodies(text, groups[1..])
  {
  }

  /** The index built from the citations has exactly their markers. */
  lemma {:induction false} IndexHasMarkers(citations: seq<string>)
    ensures forall m :: m in IndexOfMarkers(citations) <==> m in citations
  {
    if citations != [] {
      IndexHasMarkers(citations[..|citations| - 1]);
      assert citations == citations[..|citations| - 1] + [citations[|citations| - 1]];
    }
  }

  lemma IndexOfCited(citations: seq<string>)
    ensures Indexes(IndexOfMarkers(Marks(citations)), SetOf(citations))
  {
    IndexHasMarkers(Marks(citations));
    forall inner
      ensures Mark(inner) in IndexOfMarkers(Marks(citations)) <==> inner in citations
    {
      InMarks(inner, citations);
    }
  }

  lemma InMarks(inner: string, inners: seq<string>)
    ensures Mark(inner) in Marks(inners) <==> inner in inners
  {
    if Mark(inner) in Marks(inners) {
      var i :| 0 <= i < |inners| && Marks(inners)[i] == Mark(inner);
      MarkInjective(inners[i], inner);
    }
    if inner in inners {
      var i :| 0 <= i < |inners| && inners[i] == inner;
      assert Marks(inners)[i] == Mark(inner);
    }
  }

  lemma {:induction false} BracketsClose(text: string, scan: nat)
    requires scan <= |text|
    ensures forall g <- Brackets(text, scan) :: text[g.open] == '[' && text[g.close] == ']'
    decreases |text| - scan
  {
    var open := IndexOfChar(text, '[', scan);
    if open != -1 && IndexOfChar(text, ']', open + 1) != -1 {
      BracketsClose(text, IndexOfChar(text, ']', open + 1) + 1);
    }
  }

  /** What the server returns as citations, by inner text. */
  ghost function Cited(summary: string, known: set<string>): seq<string> {
    Firsts(AllMembers(known, Bodies(summary, Groups(summary, 0))))
  }

  lemma PlainSummaryBrackets(summary: string)
    requires PlainSummary(summary)
    ensures Brackets(summary, 0) == Groups(summary, 0) && PlainGroups(summary, Brackets(summary, 0))
  {
    BracketsAreGroups(summary, 0);
    BracketsClose(summary, 0);
  }

  lemma {:induction false} PlainGroupBodies(text: string, groups: seq<Group>)
    requires PlainGroups(text, groups)
    ensures PlainBodies(Bodies(text, groups))
  {
    if groups != [] {
      var g := groups[0];
      assert PlainBody(Body(text, g));
      PlainGroupBodies(text, groups[1..]);
      var rest := Bodies(text, groups[1..]);
      assert Bodies(text, groups) == [Body(text, g)] + rest;
    }
  }

  /** What the server found, the client's index finds too. */
  lemma CitedSuffices(known: set<string>, bodies: seq<string>, citations: seq<string>)
    requires CommaFree(known) && PlainBodies(bodies) && citations == Firsts(AllMembers(known, bodies))
    ensures AllMembers(known, bodies) == KnownOf(SetOf(citations), bodies)
    ensures CommaFree(SetOf(citations))
  {
    ServerReadsKnownParts(known, bodies);
    FirstsMeaning(KnownOf(known, bodies));
    MembersKnown(known, bodies);
    CitedOfSame(known, SetOf(citations), bodies);
  }

  lemma ChipsAreMembers(summary: string, known: set<string>)
    requires CommaFree(known) && PlainSummary(summary)
    ensures CitedMarkers(Segments(summary, IndexOfMarkers(Marks(Cited(summary, known)))))
            == Marks(AllMembers(known, Bodies(summary, Groups(summary, 0))))
  {
    PlainSummaryBrackets(summary);
    PlainGroupBodies(summary, Groups(summary, 0));
    CitedSuffices(known, Bodies(summary, Groups(summary, 0)), Cited(summary, known));
    IndexOfCited(Cited(summary, known));
    ChipsOfCited(summary, IndexOfMarkers(Marks(Cited(summary, known))), SetOf(Cited(summary, known)));
  }

  lemma ChipsOfCited(summary: string, index: Index, cited: set<string>)
    requires PlainGroups(summary, Brackets(summary, 0)) && Indexes(index, cited) && CommaFree(cited)
    ensures CitedMarkers(Segments(summary, index)) == Marks(KnownOf(cited, Bodies(summary, Brackets(summary, 0))))
  {
    SpansCarryParts(summary, Brackets(summary, 0), index, cited);
    SummarySpansForward(summary, index);
    CitedOfSpans(summary, Spans(Brackets(summary, 0), ChipsOf(summary, index)), 0);
  }

  lemma {:induction false} KnownPartsKnown(known: set<string>, parts: seq<string>)
    ensures forall m <- KnownParts(known, parts) :: m in known
  {
    if parts != [] {
      KnownPartsKnown(known, parts[1..]);
    }
  }

  lemma {:induction false} MembersKnown(known: set<string>, bodies: seq<string>)
    ensures forall m <- KnownOf(known, bodies) :: m in known
  {
    if bodies != [] {
      KnownPartsKnown(known, Split(bodies[0]));
      MembersKnown(known, bodies[1..]);
    }
  }

  lemma {:induction false} FirstsOfMarks(inners: seq<string>)
    ensures Firsts(Marks(inners)) == Marks(Firsts(inners))
  {
    if inners != [] {
      var n := |inners| - 1;
      FirstsOfMarks(inners[..n]);
      assert Marks(inners)[..n] == Marks(inners[..n]);
      var before := Firsts(inners[..n]);
      InMarks(inners[n], before);
      MarksAppend(before, [inners[n]]);
    }
  }

  /** On plain summaries with comma-free labels, the chips with first occurrences kept are the citations in order. */
  lemma ChipsAreCitations(summary: string, known: set<string>)
    requires CommaFree(known) && PlainSummary(summary)
    ensures Firsts(CitedMarkers(Segments(summary, IndexOfMarkers(Marks(Cited(summary, known)))))) == Marks(Cited(summary, known))
  {
    ChipsAreMembers(summary, known);
    FirstsOfMarks(AllMembers(known, Bodies(summary, Groups(summary, 0))));
  }
}
