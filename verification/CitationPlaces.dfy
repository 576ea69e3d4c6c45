/** Where the chips of a merged bracket stand, against where their members stand. */
module CitationPlaces {
  import opened Common
  import opened CitationLabels
  import opened CitationExtract
  import opened CitationSegments
  import opened CitationAgreement

  // ----- white space around a member --------------------------------------------------------

  function Leading(part: string): nat {
    StripLeftSlice(IsTrimmed, part);
    |part| - |StripLeft(IsTrimmed, part)|
  }

  function Trailing(part: string): nat {
    StripRightSlice(IsTrimmed, StripLeft(IsTrimmed, part));
    |StripLeft(IsTrimmed, part)| - |Trim(part)|
  }

  lemma {:induction false} LeftIsSpace(space: char -> bool, s: string)
    ensures |StripLeft(space, s)| <= |s|
    ensures forall i :: 0 <= i < |s| - |StripLeft(space, s)| ==> space(s[i])
    ensures StripLeft(space, s) != [] ==> !space(StripLeft(space, s)[0])
  {
    if s != [] && space(s[0]) {
      LeftIsSpace(space, s[1..]);
      assert forall i :: 1 <= i < |s| ==> s[i] == s[1..][i - 1];
    }
  }

  lemma {:induction false} RightIsSpace(space: char -> bool, s: string)
    ensures |StripRight(space, s)| <= |s|
    ensures forall i :: |StripRight(space, s)| <= i < |s| ==> space(s[i])
  {
    if s != [] && space(s[|s| - 1]) {
      RightIsSpace(space, s[..|s| - 1]);
      assert forall i :: 0 <= i < |s| - 1 ==> s[i] == s[..|s| - 1][i];
    }
  }

  lemma SliceOfSuffix(s: string, a: nat, n: nat)
    requires a + n <= |s|
    ensures s[a..][..n] == s[a..a + n]
  {
  }

  lemma LeadingSplits(part: string)
    ensures Leading(part) <= |part| && StripLeft(IsTrimmed, part) == part[Leading(part)..]
    ensures forall i :: 0 <= i < Leading(part) ==> IsTrimmed(part[i])
  {
    StripLeftSlice(IsTrimmed, part);
    LeftIsSpace(IsTrimmed, part);
  }

  lemma TrailingSplits(left: string)
    ensures |StripRight(IsTrimmed, left)| <= |left| && StripRight(IsTrimmed, left) == left[..|StripRight(IsTrimmed, left)|]
    ensures forall i :: |StripRight(IsTrimmed, left)| <= i < |left| ==> IsTrimmed(left[i])
  {
    StripRightSlice(IsTrimmed, left);
    RightIsSpace(IsTrimmed, left);
  }

  /** A part is white space, its trimmed text, and white space again. */
  lemma PartSplits(part: string)
    ensures Leading(part) + |Trim(part)| + Trailing(part) == |part|
    ensures part[Leading(part)..Leading(part) + |Trim(part)|] == Trim(part)
    ensures forall i :: 0 <= i < Leading(part) ==> IsTrimmed(part[i])
    ensures forall i :: |part| - Trailing(part) <= i < |part| ==> IsTrimmed(part[i])
    ensures Trim(part) != [] ==> !IsTrimmed(Trim(part)[0])
  {
    var left := StripLeft(IsTrimmed, part);
    LeadingSplits(part);
    TrailingSplits(left);
    LeftIsSpace(IsTrimmed, part);
    SliceOfSuffix(part, Leading(part), |Trim(part)|);
    forall i | |part| - Trailing(part) <= i < |part|
      ensures IsTrimmed(part[i])
    {
      assert part[i] == left[i - Leading(part)];
    }
  }

  // ----- one member ----------------------------------------------------------------------------

  predicate OccursAt(s: string, sub: string, j: int) {
    0 <= j && j + |sub| <= |s| && s[j..j + |sub|] == sub
  }

  /** `sub` starts somewhere in `lo..hi`. */
  predicate OccursIn(s: string, sub: string, lo: int, hi: int) {
    exists j :: lo <= j < hi && OccursAt(s, sub, j)
  }

  /** The search finds a member in its own part, and then at its own place, unless its text occurs between cursor and part. */
  lemma FoundInPlaceIff(inner: string, at: nat, part: string, cursor: nat)
    requires cursor <= at && at + |part| <= |inner| && inner[at..at + |part|] == part && Trim(part) != []
    ensures IndexOf(inner, Trim(part), cursor) == at + Leading(part) <==> !OccursIn(inner, Trim(part), cursor, at)
    ensures OccursIn(inner, Trim(part), cursor, at) ==> cursor <= IndexOf(inner, Trim(part), cursor) < at
  {
    var t, found := Trim(part), IndexOf(inner, Trim(part), cursor);
    PartSplits(part);
    OwnPlace(inner, at, part);
    IndexOfFirst(inner, t, cursor, at + Leading(part));
    if OccursIn(inner, t, cursor, at) {
      var j :| cursor <= j < at && OccursAt(inner, t, j);
      IndexOfFirst(inner, t, cursor, j);
    } else {
      assert OccursAt(inner, t, found);
      if at <= found < at + Leading(part) {
        SpaceBefore(inner, at, part, found);
      }
    }
  }

  /** The white space before a member holds no start of its text. */
  lemma SpaceBefore(inner: string, at: nat, part: string, j: nat)
    requires at + |part| <= |inner| && inner[at..at + |part|] == part && Trim(part) != []
    requires at <= j < at + Leading(part)
    ensures !OccursAt(inner, Trim(part), j)
  {
    PartSplits(part);
    assert inner[j] == part[j - at];
    OccurrenceStarts(inner, Trim(part), j);
  }

  lemma OccurrenceStarts(s: string, sub: string, j: int)
    ensures OccursAt(s, sub, j) && sub != [] ==> s[j] == sub[0]
  {
    if OccursAt(s, sub, j) && sub != [] {
      assert s[j..j + |sub|][0] == s[j];
    }
  }

  lemma OwnPlace(inner: string, at: nat, part: string)
    requires at + |part| <= |inner| && inner[at..at + |part|] == part
    ensures OccursAt(inner, Trim(part), at + Leading(part))
  {
    PartSplits(part);
    SliceOfSlice(inner, at, at + |part|, Leading(part), Leading(part) + |Trim(part)|);
  }

  // ----- a whole bracket -------------------------------------------------------------------------

  /** The chip of the part at `at`, if it resolves, where its own text stands. */
  function OwnChip(base: int, at: int, part: string, find: Lookup): seq<Chip> {
    if find(Trim(part)).None? then [] else [Chip(base + at + Leading(part), Mark(Trim(part)), find(Trim(part)).value)]
  }

  ghost function Owning(base: int, find: Lookup): Own {
    (at, part) => OwnChip(base, at, part, find)
  }

  /** The chips as documented: one for each part that resolves, at its own place. */
  ghost function OwnChips(base: int, at: int, parts: seq<string>, find: Lookup): seq<Chip> {
    Owns(Owning(base, find), at, parts)
  }

  /**
   No part that resolves has its text starting in the `lag` characters before it, where the lag is that
   of the last part that resolved: its trailing white space and the comma.  (Nothing lags before it.)
  */
  predicate Undisturbed(inner: string, at: int, parts: seq<string>, lag: nat, find: Lookup)
    decreases |parts|
  {
    if parts == [] then true
    else if find(Trim(parts[0])).None? then Undisturbed(inner, at + |parts[0]| + 1, parts[1..], lag, find)
    else
      && !OccursIn(inner, Trim(parts[0]), at - lag, at)
      && Undisturbed(inner, at + |parts[0]| + 1, parts[1..], Trailing(parts[0]) + 1, find)
  }

  /** The parts from `at` on, each behind the comma of the one before. */
  predicate StandAt(inner: string, at: nat, parts: seq<string>)
    decreases |parts|
  {
    parts != [] ==>
      && at + |parts[0]| <= |inner| && inner[at..at + |parts[0]|] == parts[0]
      && (|parts| > 1 ==> at + |parts[0]| < |inner| && inner[at + |parts[0]|] == ',')
      && StandAt(inner, at + |parts[0]| + 1, parts[1..])
  }

  lemma {:induction false} SplitStands(inner: string, at: nat)
    requires at <= |inner|
    ensures StandAt(inner, at, SplitFrom(inner, at))
    decreases |inner| - at
  {
    SplitStep(inner, at);
    NextCommaMeaning(inner, at);
    if NextComma(inner, at) != -1 {
      SplitStands(inner, NextComma(inner, at) + 1);
    }
  }

  // ----- the walk over the parts, with the string work left open -------------------------------------

  /** One round of the loop: a part and the cursor give chips and the next cursor. */
  type Take = (string, int) -> (seq<Chip>, int)

  type Own = (int, string) -> seq<Chip>

  /** Whether a part at a place is found there by a cursor that lags behind by so much. */
  type Clear = (int, string, int) -> bool

  type NextLag = (string, int) -> int

  type Fits = (int, string) -> bool

  function Walk(take: Take, parts: seq<string>, cursor: int): seq<Chip> {
    if parts == [] then [] else take(parts[0], cursor).0 + Walk(take, parts[1..], take(parts[0], cursor).1)
  }

  function Owns(own: Own, at: int, parts: seq<string>): seq<Chip>
    decreases |parts|
  {
    if parts == [] then [] else own(at, parts[0]) + Owns(own, at + |parts[0]| + 1, parts[1..])
  }

  predicate AllClear(clear: Clear, nextLag: NextLag, at: int, parts: seq<string>, lag: int)
    decreases |parts|
  {
    parts != [] ==>
      clear(at, parts[0], lag) && AllClear(clear, nextLag, at + |parts[0]| + 1, parts[1..], nextLag(parts[0], lag))
  }

  predicate AllFit(fits: Fits, at: int, parts: seq<string>)
    decreases |parts|
  {
    parts != [] ==> fits(at, parts[0]) && AllFit(fits, at + |parts[0]| + 1, parts[1..])
  }

  predicate AgreesAt(take: Take, own: Own, clear: Clear, nextLag: NextLag, at: int, part: string, lag: int) {
    && |take(part, at - lag).0| == |own(at, part)|
    && (take(part, at - lag).0 == own(at, part) <==> clear(at, part, lag))
    && 0 <= nextLag(part, lag) <= at + |part| + 1
    && (clear(at, part, lag) ==> take(part, at - lag).1 == at + |part| + 1 - nextLag(part, lag))
  }

  ghost predicate Agrees(take: Take, own: Own, clear: Clear, nextLag: NextLag, fits: Fits) {
    forall at, part, lag :: 0 <= lag <= at && fits(at, part) ==> AgreesAt(take, own, clear, nextLag, at, part, lag)
  }

  lemma SplitEqual(a: seq<Chip>, b: seq<Chip>, c: seq<Chip>, d: seq<Chip>)
    requires |a| == |c|
    ensures a + b == c + d <==> a == c && b == d
  {
    assert (a + b)[..|a|] == a && (a + b)[|a|..] == b && (c + d)[..|c|] == c && (c + d)[|c|..] == d;
  }

  lemma {:induction false} WalkIff(take: Take, own: Own, clear: Clear, nextLag: NextLag, fits: Fits, at: int, parts: seq<string>, lag: int)
    requires Agrees(take, own, clear, nextLag, fits) && AllFit(fits, at, parts) && 0 <= lag <= at
    ensures Walk(take, parts, at - lag) == Owns(own, at, parts) <==> AllClear(clear, nextLag, at, parts, lag)
    decreases |parts|
  {
    if parts != [] {
      var part, behind := parts[0], at + |parts[0]| + 1;
      assert AgreesAt(take, own, clear, nextLag, at, part, lag);
      SplitEqual(take(part, at - lag).0, Walk(take, parts[1..], take(part, at - lag).1), own(at, part), Owns(own, behind, parts[1..]));
      if clear(at, part, lag) {
        WalkIff(take, own, clear, nextLag, fits, behind, parts[1..], nextLag(part, lag));
      }
    }
  }

  // ----- the string work ---------------------------------------------------------------------------

  ghost function Taking(base: int, inner: string, find: Lookup): Take {
    (part, cursor) => if cursor < 0 then ([], 0) else PartChips(base, inner, part, cursor, find)
  }

  ghost function Clearing(inner: string, find: Lookup): Clear {
    (at, part, lag) => find(Trim(part)).Some? ==> !OccursIn(inner, Trim(part), at - lag, at)
  }

  ghost function Lagging(find: Lookup): NextLag {
    (part, lag) => if find(Trim(part)).None? then lag else Trailing(part) + 1
  }

  ghost function Fitting(inner: string): Fits {
    (at, part) => 0 <= at && at + |part| <= |inner| && inner[at..at + |part|] == part
  }

  lemma {:induction false} ResolvingIsWalk(base: int, inner: string, parts: seq<string>, cursor: nat, find: Lookup)
    ensures ResolveParts(base, inner, parts, cursor, find) == Walk(Taking(base, inner, find), parts, cursor)
  {
    if parts != [] {
      ResolvingIsWalk(base, inner, parts[1..], PartChips(base, inner, parts[0], cursor, find).1, find);
    }
  }

  lemma {:induction false} UndisturbedIsClear(inner: string, at: int, parts: seq<string>, lag: nat, find: Lookup)
    ensures Undisturbed(inner, at, parts, lag, find) <==> AllClear(Clearing(inner, find), Lagging(find), at, parts, lag)
    decreases |parts|
  {
    if parts != [] {
      UndisturbedIsClear(inner, at + |parts[0]| + 1, parts[1..],
                         if find(Trim(parts[0])).None? then lag else Trailing(parts[0]) + 1, find);
    }
  }

  lemma {:induction false} StandingFits(inner: string, at: nat, parts: seq<string>)
    requires StandAt(inner, at, parts)
    ensures AllFit(Fitting(inner), at, parts)
    decreases |parts|
  {
    if parts != [] {
      StandingFits(inner, at + |parts[0]| + 1, parts[1..]);
    }
  }

  lemma PartPlaced(base: int, inner: string, at: nat, part: string, lag: nat, find: Lookup)
    requires Sound(find) && lag <= at && Fitting(inner)(at, part)
    ensures AgreesAt(Taking(base, inner, find), Owning(base, find), Clearing(inner, find), Lagging(find), at, part, lag)
  {
    PartSplits(part);
    if find(Trim(part)).Some? {
      FoundInPlaceIff(inner, at, part, at - lag);
      var chips, own := PartChips(base, inner, part, at - lag, find).0, OwnChip(base, at, part, find);
      assert chips == own <==> chips[0].start == own[0].start;
    }
  }

  lemma PartsPlaced(base: int, inner: string, find: Lookup)
    requires Sound(find)
    ensures Agrees(Taking(base, inner, find), Owning(base, find), Clearing(inner, find), Lagging(find), Fitting(inner))
  {
    forall at, part, lag | 0 <= lag <= at && Fitting(inner)(at, part)
      ensures AgreesAt(Taking(base, inner, find), Owning(base, find), Clearing(inner, find), Lagging(find), at, part, lag)
    {
      PartPlaced(base, inner, at, part, lag, find);
    }
  }

  /**
   For every bracket of two or more members: all chips stand where their members do if and only if no
   member that resolves has its text starting between the last resolved text before it and its own part.
  */
  lemma ChipsInPlaceIff(bracketStart: int, inner: string, index: Index)
    requires |Split(inner)| >= 2
    ensures MergedChips(bracketStart, inner, index) == OwnChips(bracketStart + 1, 0, Split(inner), Finder(index))
            <==> Undisturbed(inner, 0, Split(inner), 0, Finder(index))
  {
    var base, find, parts := bracketStart + 1, Finder(index), Split(inner);
    SplitStands(inner, 0);
    StandingFits(inner, 0, parts);
    PartsPlaced(base, inner, find);
    WalkIff(Taking(base, inner, find), Owning(base, find), Clearing(inner, find), Lagging(find), Fitting(inner), 0, parts, 0);
    ResolvingIsWalk(base, inner, parts, 0, find);
    UndisturbedIsClear(inner, 0, parts, 0, find);
  }

  // ----- brackets whose chips are all in place -----------------------------------------------------

  /** Between `lo` and `hi` there is nothing but white space and commas. */
  predicate Gap(inner: string, lo: int, hi: int) {
    0 <= lo && hi <= |inner| && forall j :: lo <= j < hi ==> IsTrimmed(inner[j]) || inner[j] == ','
  }

  lemma NothingInGap(inner: string, part: string, lo: int, hi: int)
    requires Gap(inner, lo, hi) && ',' !in part && Trim(part) != []
    ensures !OccursIn(inner, Trim(part), lo, hi)
  {
    PartSplits(part);
    assert Trim(part)[0] in part;
    forall j | lo <= j < hi
      ensures !OccursAt(inner, Trim(part), j)
    {
      OccurrenceStarts(inner, Trim(part), j);
    }
  }

  predicate NoCommas(parts: seq<string>) {
    forall part <- parts :: ',' !in part
  }

  lemma {:induction false} SplitHasNoCommas(inner: string, at: nat)
    requires at <= |inner|
    ensures NoCommas(SplitFrom(inner, at))
    decreases |inner| - at
  {
    NextCommaMeaning(inner, at);
    if NextComma(inner, at) != -1 {
      SplitHasNoCommas(inner, NextComma(inner, at) + 1);
    }
  }

  /** No part that resolves has white space before its comma. */
  predicate Tight(parts: seq<string>, find: Lookup) {
    forall part <- parts :: find(Trim(part)).Some? ==> Trailing(part) == 0
  }

  /** Every part resolves. */
  predicate AllResolve(parts: seq<string>, find: Lookup) {
    forall part <- parts :: find(Trim(part)).Some?
  }

  lemma PartsRest(parts: seq<string>, find: Lookup)
    requires parts != [] && NoCommas(parts)
    ensures ',' !in parts[0] && NoCommas(parts[1..])
    ensures Tight(parts, find) ==> Tight(parts[1..], find) && (find(Trim(parts[0])).Some? ==> Trailing(parts[0]) == 0)
    ensures AllResolve(parts, find) ==> AllResolve(parts[1..], find) && find(Trim(parts[0])).Some?
  {
  }

  /** What lies behind a part: its trailing white space and a comma. */
  lemma GapBehind(inner: string, at: nat, part: string)
    requires at + |part| < |inner| && inner[at..at + |part|] == part && inner[at + |part|] == ','
    ensures Trailing(part) <= |part| && Gap(inner, at + |part| - Trailing(part), at + |part| + 1)
  {
    PartSplits(part);
    assert forall j :: at <= j < at + |part| ==> inner[j] == part[j - at];
  }

  lemma {:induction false} GapsAreUndisturbed(inner: string, at: nat, parts: seq<string>, lag: nat, find: Lookup)
    requires Sound(find) && StandAt(inner, at, parts) && NoCommas(parts) && lag <= at && Gap(inner, at - lag, at)
    requires AllResolve(parts, find) || (Tight(parts, find) && lag <= 1)
    ensures Undisturbed(inner, at, parts, lag, find)
    decreases |parts|
  {
    if parts != [] {
      var part, behind := parts[0], at + |parts[0]| + 1;
      PartsRest(parts, find);
      var next := if find(Trim(part)).Some? then Trailing(part) + 1 else lag;
      if find(Trim(part)).Some? {
        NothingInGap(inner, part, at - lag, at);
      }
      if |parts| > 1 {
        GapBehind(inner, at, part);
        GapsAreUndisturbed(inner, behind, parts[1..], next, find);
      }
    }
  }

  /**
   In particular all chips are in place when every member is cited, and when no cited member has white
   space before its comma.
  */
  lemma ChipsInPlace(bracketStart: int, inner: string, index: Index)
    requires |Split(inner)| >= 2
    requires AllResolve(Split(inner), Finder(index)) || Tight(Split(inner), Finder(index))
    ensures MergedChips(bracketStart, inner, index) == OwnChips(bracketStart + 1, 0, Split(inner), Finder(index))
  {
    SplitStands(inner, 0);
    SplitHasNoCommas(inner, 0);
    GapsAreUndisturbed(inner, 0, Split(inner), 0, Finder(index));
    ChipsInPlaceIff(bracketStart, inner, index);
  }

  lemma {:induction false} BlanksAreSpace(s: string, pos: nat)
    requires pos <= |s|
    ensures pos <= SkipBlanks(s, pos) <= |s| && |StripLeft(IsTrimmed, s[pos..])| <= |s| - SkipBlanks(s, pos)
    decreases |s| - pos
  {
    StripLeftSlice(IsTrimmed, s[pos..]);
    if pos < |s| && s[pos] == ' ' {
      BlanksAreSpace(s, pos + 1);
      assert s[pos..][1..] == s[pos + 1..];
    }
  }

  lemma PlainIsTight(part: string)
    requires PlainPart(part)
    ensures Trailing(part) == 0
  {
    BlanksAreSpace(part, 0);
    assert part[0..] == part;
    PartSplits(part);
  }

  /** So are those of a plain body, on which client and server agree. */
  lemma PlainChipsInPlace(bracketStart: int, body: string, index: Index)
    requires PlainBody(body) && |Split(body)| >= 2
    ensures MergedChips(bracketStart, body, index) == OwnChips(bracketStart + 1, 0, Split(body), Finder(index))
  {
    forall part <- Split(body)
      ensures Trailing(part) == 0
    {
      var i :| 0 <= i < |Split(body)| && Split(body)[i] == part;
      PlainIsTight(part);
    }
    ChipsInPlace(bracketStart, body, index);
  }

  // ----- a misplaced chip --------------------------------------------------------------------------

  const BODY := "A:1   ,xA:2,A:2"
  const CITED: Index := map["[A:1]" := 0, "[A:2]" := 1]

  lemma JoinedSplits(a: string, b: string, c: string)
    requires ',' !in a && ',' !in b && ',' !in c
    ensures Split(a + "," + b + "," + c) == [a, b, c]
  {
    var s := a + "," + b + "," + c;
    var i, j := |a|, |a| + 1 + |b|;
    assert PartTo(s, 0, i) && s[0..i] == a;
    assert PartTo(s, i + 1, j) && s[i + 1..j] == b;
    assert PartTo(s, j + 1, |s|) && s[j + 1..] == c;
    NextCommaIs(s, 0, i);
    NextCommaIs(s, i + 1, j);
    NextCommaIs(s, j + 1, |s|);
    assert SplitFrom(s, j + 1) == [c];
    assert SplitFrom(s, i + 1) == [b] + [c];
  }

  lemma BodySplits()
    ensures Split(BODY) == ["A:1   ", "xA:2", "A:2"]
  {
    JoinedSplits("A:1   ", "xA:2", "A:2");
    assert BODY == "A:1   " + "," + "xA:2" + "," + "A:2";
  }

  lemma TrimKeepsCore(core: string, spaces: string)
    requires core != [] && !IsTrimmed(core[0]) && !IsTrimmed(core[|core| - 1])
    requires forall i :: 0 <= i < |spaces| ==> IsTrimmed(spaces[i])
    ensures Trim(core + spaces) == core
  {
    if spaces == [] {
      assert core + spaces == core;
    } else {
      var all := core + spaces;
      TrimKeepsCore(core, spaces[..|spaces| - 1]);
      assert all[..|all| - 1] == core + spaces[..|spaces| - 1];
    }
  }

  lemma BodyTrims()
    ensures Trim("A:1   ") == "A:1" && Trim("xA:2") == "xA:2" && Trim("A:2") == "A:2"
  {
    TrimKeepsCore("A:1", "   ");
    TrimKeepsCore("xA:2", "");
    TrimKeepsCore("A:2", "");
    assert "A:1" + "   " == "A:1   " && "xA:2" + "" == "xA:2" && "A:2" + "" == "A:2";
  }

  lemma BodyResolves()
    ensures Find(CITED, "A:1") == Some(0) && Find(CITED, "xA:2") == None && Find(CITED, "A:2") == Some(1)
  {
    assert Mark("A:1") == "[A:1]" && Mark("xA:2") == "[xA:2]" && Mark("A:2") == "[A:2]";
    assert "[A:1]"[1..4] == "A:1" && "[A:2]"[1..4] == "A:2";
    assert LastIndexOf("A:1", ':') == 1 by { assert "A:1"[..2] == "A:"; }
    assert LastIndexOf("A:2", ':') == 1 by { assert "A:2"[..2] == "A:"; }
    assert |"[xA:2]"| != |"[A:1]"| && |"[xA:2]"| != |"[A:2]"|;
  }

  /** The chip of the last member stands inside the invented one before it. */
  lemma MemberMayBeMisplaced()
    ensures MergedChips(0, BODY, CITED) == [Chip(1, "[A:1]", 0), Chip(9, "[A:2]", 1)]
    ensures OwnChips(1, 0, Split(BODY), Finder(CITED)) == [Chip(1, "[A:1]", 0), Chip(13, "[A:2]", 1)]
  {
    BodySplits();
    BodyChips();
    BodyOwnChips();
  }

  lemma BodyChips()
    ensures ResolveParts(1, BODY, ["A:1   ", "xA:2", "A:2"], 0, Finder(CITED)) == [Chip(1, "[A:1]", 0), Chip(9, "[A:2]", 1)]
  {
    var find := Finder(CITED);
    FirstSearch();
    MiddleSearch();
    LastSearch();
    ThreeParts(1, BODY, "A:1   ", "xA:2", "A:2", find);
  }

  lemma ThreeParts(base: int, inner: string, a: string, b: string, c: string, find: Lookup)
    ensures var first := PartChips(base, inner, a, 0, find);
            var second := PartChips(base, inner, b, first.1, find);
            ResolveParts(base, inner, [a, b, c], 0, find) == first.0 + (second.0 + (PartChips(base, inner, c, second.1, find).0 + []))
  {
    assert [a, b, c][1..] == [b, c] && [b, c][1..] == [c] && [c][1..] == [];
    var first := PartChips(base, inner, a, 0, find);
    var second := PartChips(base, inner, b, first.1, find);
    assert ResolveParts(base, inner, [c], second.1, find) == PartChips(base, inner, c, second.1, find).0 + [];
    assert ResolveParts(base, inner, [b, c], first.1, find) == second.0 + ResolveParts(base, inner, [c], second.1, find);
  }

  lemma FirstSearch()
    ensures PartChips(1, BODY, "A:1   ", 0, Finder(CITED)) == ([Chip(1, "[A:1]", 0)], 3)
  {
    BodyTrims();
    BodyResolves();
    assert BODY[0..3] == "A:1";
  }

  lemma MiddleSearch()
    ensures PartChips(1, BODY, "xA:2", 3, Finder(CITED)) == ([], 8)
  {
    BodyTrims();
    BodyResolves();
  }

  lemma LastSearch()
    ensures PartChips(1, BODY, "A:2", 8, Finder(CITED)) == ([Chip(9, "[A:2]", 1)], 11)
  {
    BodyTrims();
    BodyResolves();
    assert BODY[8..11] == "A:2";
  }

  lemma BodyOwnChips()
    ensures OwnChips(1, 0, ["A:1   ", "xA:2", "A:2"], Finder(CITED)) == [Chip(1, "[A:1]", 0), Chip(13, "[A:2]", 1)]
  {
    BodyOwnPlaces();
    ThreeOwns(Owning(1, Finder(CITED)), "A:1   ", "xA:2", "A:2");
  }

  lemma ThreeOwns(own: Own, a: string, b: string, c: string)
    ensures Owns(own, 0, [a, b, c]) == own(0, a) + (own(|a| + 1, b) + (own(|a| + |b| + 2, c) + []))
  {
    assert [a, b, c][1..] == [b, c] && [b, c][1..] == [c] && [c][1..] == [];
    assert Owns(own, |a| + |b| + 2, [c]) == own(|a| + |b| + 2, c) + [];
    assert Owns(own, |a| + 1, [b, c]) == own(|a| + 1, b) + Owns(own, |a| + |b| + 2, [c]);
  }

  lemma OwnChipAtStart(base: int, at: int, part: string, core: string, find: Lookup, k: int)
    requires part != [] && !IsTrimmed(part[0]) && Trim(part) == core && find(core) == Some(k)
    ensures OwnChip(base, at, part, find) == [Chip(base + at, Mark(core), k)]
  {
    assert StripLeft(IsTrimmed, part) == part;
  }

  lemma BodyOwnPlaces()
    ensures OwnChip(1, 0, "A:1   ", Finder(CITED)) == [Chip(1, "[A:1]", 0)]
    ensures OwnChip(1, 7, "xA:2", Finder(CITED)) == [] && OwnChip(1, 12, "A:2", Finder(CITED)) == [Chip(13, "[A:2]", 1)]
  {
    FirstPlace();
    LastPlace();
    BodyTrims();
    BodyResolves();
  }

  lemma FirstPlace()
    ensures OwnChip(1, 0, "A:1   ", Finder(CITED)) == [Chip(1, "[A:1]", 0)]
  {
    BodyTrims();
    BodyResolves();
    OwnChipAtStart(1, 0, "A:1   ", "A:1", Finder(CITED), 0);
    assert Mark("A:1") == "[A:1]";
  }

  lemma LastPlace()
    ensures OwnChip(1, 12, "A:2", Finder(CITED)) == [Chip(13, "[A:2]", 1)]
  {
    BodyTrims();
    BodyResolves();
    OwnChipAtStart(1, 12, "A:2", "A:2", Finder(CITED), 1);
    assert Mark("A:2") == "[A:2]";
  }
}
