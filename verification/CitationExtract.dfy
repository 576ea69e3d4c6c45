/** Reading citation markers back out of a summary, as api/summary.py does. */
module CitationExtract {
  import opened Common
  import opened Decimals
  import opened CitationLabels

  /** A passage handed to the model; its marker is bracketed. */
  datatype Source = Source(marker: string, book: int, chunkIndex: int)

  function InnerOf(s: Source): string {
    if |s.marker| >= 2 then s.marker[1..|s.marker| - 1] else []
  }

  function Inners(sources: seq<Source>): seq<string> {
    if sources == [] then [] else Inners(sources[..|sources| - 1]) + [InnerOf(sources[|sources| - 1])]
  }

  lemma InnersAppend(a: seq<Source>, s: Source)
    ensures Inners(a + [s]) == Inners(a) + [InnerOf(s)]
  {
    assert (a + [s])[..|a|] == a;
  }

  function InnerSet(sources: seq<Source>): set<string> {
    set s | s in sources :: InnerOf(s)
  }

  lemma {:induction false} InnersAreSet(sources: seq<Source>)
    ensures forall m :: m in Inners(sources) <==> m in InnerSet(sources)
  {
    if sources != [] {
      var before, last := sources[..|sources| - 1], sources[|sources| - 1];
      InnersAreSet(before);
      assert sources == before + [last];
    }
  }

  // ----- one bracket group --------------------------------------------------------------------

  /** `c` stands at `pos` and is bounded by the end of the group or a comma. */
  predicate Stands(inner: string, pos: int, c: string) {
    && 0 <= pos && 0 < |c| && pos + |c| <= |inner| && inner[pos..pos + |c|] == c
    && (pos + |c| == |inner| || inner[pos + |c|] == ',')
  }

  ghost predicate Longest(known: set<string>, inner: string, pos: int, c: string) {
    c in known && Stands(inner, pos, c) && forall d <- known :: AtMost(inner, pos, d, |c|)
  }

  /** If `d` stands here, it is no longer than `n`. */
  predicate AtMost(inner: string, pos: int, d: string, n: int) {
    Stands(inner, pos, d) ==> |d| <= n
  }

  ghost function Best(known: set<string>, inner: string, pos: int): (r: Option<string>)
    ensures r.Some? ==> Longest(known, inner, pos, r.value)
    ensures r.None? ==> forall c :: !Longest(known, inner, pos, c)
  {
    if exists c :: Longest(known, inner, pos, c) then
      var c :| Longest(known, inner, pos, c);
      Some(c)
    else None
  }

  lemma LongestUnique(known: set<string>, inner: string, pos: int, c: string)
    requires Longest(known, inner, pos, c)
    ensures Best(known, inner, pos) == Some(c)
  {
    var d := Best(known, inner, pos).value;
    assert AtMost(inner, pos, d, |c|) && AtMost(inner, pos, c, |d|);
  }

  function SkipBlanks(inner: string, pos: int): (p: int)
    requires 0 <= pos <= |inner|
    ensures pos <= p <= |inner|
    decreases |inner| - pos
  {
    if pos < |inner| && inner[pos] == ' ' then SkipBlanks(inner, pos + 1) else pos
  }

  /** The first comma from `pos` on, or -1. */
  function NextComma(inner: string, pos: int): (i: int)
    requires 0 <= pos <= |inner|
    ensures i == -1 || pos <= i < |inner|
    decreases |inner| - pos
  {
    if pos == |inner| then -1 else if inner[pos] == ',' then pos else NextComma(inner, pos + 1)
  }

  function PastComma(inner: string, pos: int): int {
    if 0 <= pos < |inner| && inner[pos] == ',' then pos + 1 else pos
  }

  /** What is recognised at a position. */
  type Reader = int -> Option<string>

  ghost function Reading(known: set<string>, inner: string): Reader {
    pos => Best(known, inner, pos)
  }

  /** The members read from `pos` on; where nothing is recognised, the text up to the next comma is skipped. */
  ghost function MembersFrom(read: Reader, inner: string, pos: int): seq<string>
    requires 0 <= pos <= |inner|
    decreases |inner| - pos
  {
    var p := SkipBlanks(inner, pos);
    if p == |inner| then []
    else if read(p).Some? && 0 < |read(p).value| <= |inner| - p
    then [read(p).value] + MembersFrom(read, inner, PastComma(inner, p + |read(p).value|))
    else
      var next := NextComma(inner, p);
      if next == -1 then [] else MembersFrom(read, inner, next + 1)
  }

  /** The known members of a group: at each place the longest that stands there. */
  ghost function Members(known: set<string>, inner: string, pos: int): seq<string>
    requires 0 <= pos <= |inner|
  {
    MembersFrom(Reading(known, inner), inner, pos)
  }

  /** The candidate loop: the strictly longest that stands wins. */
  method BestSource(inner: string, pos: int, byInner: seq<Source>) returns (best: Option<Source>, bestEnd: int)
    requires 0 <= pos <= |inner|
    ensures best.Some? ==> best.value in byInner && Stands(inner, pos, InnerOf(best.value)) && bestEnd == pos + |InnerOf(best.value)|
    ensures Reading(InnerSet(byInner), inner)(pos) == if best.Some? then Some(InnerOf(best.value)) else None
  {
    best, bestEnd := None, pos;
    for i := 0 to |byInner|
      invariant IsBest(inner, pos, byInner, i, best, bestEnd - pos)
    {
      best, bestEnd := Better(inner, pos, byInner, i, best, bestEnd);
    }
    BestFound(inner, pos, byInner, best, bestEnd - pos);
  }

  /** One candidate of the loop: longer than the best so far, here, and bounded by a comma or the end. */
  method Better(inner: string, pos: int, byInner: seq<Source>, i: nat, best: Option<Source>, bestEnd: int)
    returns (newBest: Option<Source>, newEnd: int)
    requires 0 <= pos <= |inner| && i < |byInner| && IsBest(inner, pos, byInner, i, best, bestEnd - pos)
    ensures IsBest(inner, pos, byInner, i + 1, newBest, newEnd - pos)
  {
    var end := pos + |InnerOf(byInner[i])|;
    if end > bestEnd && Stands(inner, pos, InnerOf(byInner[i])) {
      newBest, newEnd := Some(byInner[i]), end;
      BestGrows(inner, pos, byInner, i, bestEnd - pos, end - pos);
    } else {
      newBest, newEnd := best, bestEnd;
    }
  }

  lemma BestGrows(inner: string, pos: int, byInner: seq<Source>, i: nat, length: int, more: int)
    requires i < |byInner| && length <= more && |InnerOf(byInner[i])| <= more
    requires forall j :: 0 <= j < i ==> NotLonger(inner, pos, byInner[j], length)
    ensures forall j :: 0 <= j < i + 1 ==> NotLonger(inner, pos, byInner[j], more)
  {
  }

  /** The longest of the first `i` that stand, or none and length 0. */
  ghost predicate IsBest(inner: string, pos: int, byInner: seq<Source>, i: nat, best: Option<Source>, length: int)
    requires i <= |byInner|
  {
    && (best.None? ==> length == 0)
    && (best.Some? ==> best.value in byInner && Stands(inner, pos, InnerOf(best.value)) && length == |InnerOf(best.value)|)
    && forall j :: 0 <= j < i ==> NotLonger(inner, pos, byInner[j], length)
  }

  predicate NotLonger(inner: string, pos: int, s: Source, length: int) {
    AtMost(inner, pos, InnerOf(s), length)
  }

  lemma BestFound(inner: string, pos: int, byInner: seq<Source>, best: Option<Source>, length: int)
    requires IsBest(inner, pos, byInner, |byInner|, best, length)
    ensures Reading(InnerSet(byInner), inner)(pos) == if best.Some? then Some(InnerOf(best.value)) else None
  {
    var known := InnerSet(byInner);
    forall d | d in known
      ensures AtMost(inner, pos, d, length)
    {
      var s :| s in byInner && InnerOf(s) == d;
      var j :| 0 <= j < |byInner| && byInner[j] == s;
      assert NotLonger(inner, pos, byInner[j], length);
    }
    if best.Some? {
      LongestUnique(known, inner, pos, InnerOf(best.value));
    }
  }

  lemma SkippedBlanks(read: Reader, inner: string, from: int, pos: int)
    requires 0 <= from <= pos <= |inner| && SkipBlanks(inner, from) == pos
    ensures SkipBlanks(inner, pos) == pos && MembersFrom(read, inner, from) == MembersFrom(read, inner, pos)
  {
    BlanksEnd(inner, from);
  }

  lemma {:induction false} BlanksEnd(inner: string, from: int)
    requires 0 <= from <= |inner|
    ensures var p := SkipBlanks(inner, from); SkipBlanks(inner, p) == p && (p < |inner| ==> inner[p] != ' ')
    decreases |inner| - from
  {
    if from < |inner| && inner[from] == ' ' {
      BlanksEnd(inner, from + 1);
    }
  }

  method SkipBlanksFrom(inner: string, from: int) returns (pos: int)
    requires 0 <= from <= |inner|
    ensures pos == SkipBlanks(inner, from)
  {
    pos := from;
    while pos < |inner| && inner[pos] == ' '
      invariant from <= pos <= |inner| && SkipBlanks(inner, pos) == SkipBlanks(inner, from)
    {
      pos := pos + 1;
    }
  }

  /** Where to go on after `pos`, given what was found there; that is the end if nothing is left. */
  method NextMember(inner: string, pos: int, found: Option<Source>, end: int, ghost read: Reader)
    returns (next: int, ghost m: seq<string>)
    requires 0 <= pos < |inner| && SkipBlanks(inner, pos) == pos
    requires found.None? ==> read(pos) == None
    requires found.Some? ==> read(pos) == Some(InnerOf(found.value)) && end == pos + |InnerOf(found.value)| && pos < end <= |inner|
    ensures pos < next <= |inner|
    ensures m == if found.Some? then [InnerOf(found.value)] else []
    ensures MembersFrom(read, inner, pos) == m + MembersFrom(read, inner, next)
  {
    if found.Some? {
      next := end;
      if next < |inner| && inner[next] == ',' {
        next := next + 1;
      }
      m := [InnerOf(found.value)];
      MemberFound(read, inner, pos, InnerOf(found.value));
    } else {
      next := NextComma(inner, pos);
      next := if next == -1 then |inner| else next + 1;
      m := [];
      NoMemberFound(read, inner, pos);
    }
  }

  method SourceAt(inner: string, pos: int, byInner: seq<Source>, ghost read: Reader) returns (found: Option<Source>, end: int)
    requires 0 <= pos < |inner| && read == Reading(InnerSet(byInner), inner)
    ensures found.None? ==> read(pos) == None
    ensures found.Some? ==> found.value in byInner && read(pos) == Some(InnerOf(found.value))
    ensures found.Some? ==> end == pos + |InnerOf(found.value)| && pos < end <= |inner|
  {
    found, end := BestSource(inner, pos, byInner);
  }

  lemma MemberFound(read: Reader, inner: string, pos: int, m: string)
    requires 0 <= pos < |inner| && SkipBlanks(inner, pos) == pos
    requires read(pos) == Some(m) && 0 < |m| <= |inner| - pos
    ensures MembersFrom(read, inner, pos) == [m] + MembersFrom(read, inner, PastComma(inner, pos + |m|))
  {
  }

  lemma NoMemberFound(read: Reader, inner: string, pos: int)
    requires 0 <= pos < |inner| && SkipBlanks(inner, pos) == pos && read(pos) == None
    ensures MembersFrom(read, inner, pos)
            == MembersFrom(read, inner, if NextComma(inner, pos) == -1 then |inner| else NextComma(inner, pos) + 1)
  {
  }

  /** Moving the front of what is still to come to what has been got. */
  lemma Moved<T>(got: seq<T>, rest: seq<T>, m: seq<T>, after: seq<T>, all: seq<T>)
    requires got + rest == all && rest == m + after
    ensures got + m + after == all
  {
  }

  method ResolveGroupMembers(inner: string, byInner: seq<Source>) returns (resolved: seq<Source>)
    ensures Inners(resolved) == Members(InnerSet(byInner), inner, 0)
    ensures forall s <- resolved :: s in byInner
  {
    resolved := [];
    var pos := 0;
    ghost var read := Reading(InnerSet(byInner), inner);
    ghost var all := MembersFrom(read, inner, 0);
    ghost var got, rest: seq<string> := [], all;
    while pos < |inner|
      invariant 0 <= pos <= |inner|
      invariant got == Inners(resolved) && rest == MembersFrom(read, inner, pos) && got + rest == all
      invariant forall s <- resolved :: s in byInner
      decreases |inner| - pos
    {
      var start := SkipBlanksFrom(inner, pos);
      SkippedBlanks(read, inner, pos, start);
      pos := start;
      if pos < |inner| {
        var found, end := SourceAt(inner, pos, byInner, read);
        var next;
        ghost var m;
        next, m := NextMember(inner, pos, found, end, read);
        ghost var after := MembersFrom(read, inner, next);
        Moved(got, rest, m, after, all);
        got, rest := got + m, after;
        if found.Some? {
          InnersAppend(resolved, found.value);
          resolved := resolved + [found.value];
        }
        pos := next;
      }
    }
  }

  // ----- what was joined is read back ----------------------------------------------------------

  ghost predicate IsInner(s: string) {
    exists tag, k :: InnerAs(s, tag, k)
  }

  predicate InnerAs(s: string, tag: string, k: int) {
    Clean(tag) && s == Inner(tag, k)
  }

  ghost predicate AllInner(known: set<string>) {
    forall s <- known :: IsInner(s)
  }

  predicate AllIn(members: seq<string>, known: set<string>) {
    forall i :: 0 <= i < |members| ==> members[i] in known
  }

  function Joined(members: seq<string>): string {
    if members == [] then []
    else if |members| == 1 then members[0]
    else members[0] + ", " + Joined(members[1..])
  }

  lemma NoCommaInNumber(k: int)
    ensures ',' !in ToString(k) && ':' !in ToString(k)
  {
    DecimalOf(if k < 0 then -k else k);
  }

  /** A marker that continues another one does not continue it with a comma. */
  lemma NoCommaAfterMarker(tagM: string, i: int, tagD: string, j: int)
    requires Clean(tagM) && Clean(tagD)
    requires var m, d := Inner(tagM, i), Inner(tagD, j); |m| < |d| && d[..|m|] == m
    ensures Inner(tagD, j)[|Inner(tagM, i)|] != ','
  {
    var m, d := Inner(tagM, i), Inner(tagD, j);
    FirstColon(tagM, i);
    FirstColon(tagD, j);
    assert forall x :: 0 <= x < |m| ==> d[x] == m[x];
    assert |tagD| == |tagM|;
    NoCommaInNumber(j);
    assert d[|m|] == d[|tagD| + 1..][|m| - |tagD| - 1];
  }

  /** A known marker that stands where another does is no longer than it, commas in labels or not. */
  lemma NoLongerMarkerStands(inner: string, pos: int, m: string, d: string)
    requires IsInner(m) && IsInner(d) && Stands(inner, pos, m) && Stands(inner, pos, d)
    ensures |d| <= |m|
  {
    if |d| > |m| {
      var tagM, i :| InnerAs(m, tagM, i);
      var tagD, j :| InnerAs(d, tagD, j);
      LongerPrefix(inner, pos, m, d);
      NoCommaAfterMarker(tagM, i, tagD, j);
      assert false;
    }
  }

  lemma LongerPrefix(inner: string, pos: int, m: string, d: string)
    requires Stands(inner, pos, m) && Stands(inner, pos, d) && |m| < |d|
    ensures d[..|m|] == m && d[|m|] == ','
  {
    assert forall x :: 0 <= x < |m| ==> m[x] == inner[pos + x] && d[x] == inner[pos + x];
    assert d[|m|] == inner[pos + |m|];
  }

  lemma MarkerStarts(m: string)
    requires IsInner(m)
    ensures |m| > 0 && m[0] != ' '
  {
    var tag, k :| InnerAs(m, tag, k);
    assert m[0] == tag[0];
  }

  /** The first member stands where the joined text starts, and the rest follows a comma and a blank. */
  lemma JoinedStep(inner: string, p: int, members: seq<string>)
    requires 0 <= p <= |inner| && inner[p..] == Joined(members) && members != [] && members[0] != []
    ensures Stands(inner, p, members[0])
    ensures var end := p + |members[0]|;
            if |members| == 1 then end == |inner|
            else end + 2 <= |inner| && inner[end] == ',' && inner[end + 1] == ' ' && inner[end + 2..] == Joined(members[1..])
  {
    var m, tail := members[0], inner[p..];
    assert tail[..|m|] == m && inner[p..p + |m|] == tail[..|m|];
    if |members| > 1 {
      assert tail == m + ", " + Joined(members[1..]);
      assert inner[p + |m|] == tail[|m|] && inner[p + |m| + 1] == tail[|m| + 1];
      assert inner[p + |m| + 2..] == tail[|m| + 2..];
    }
  }

  lemma BestIsMember(known: set<string>, inner: string, p: int, m: string)
    requires AllInner(known) && m in known && Stands(inner, p, m)
    ensures Reading(known, inner)(p) == Some(m)
  {
    forall d | d in known
      ensures AtMost(inner, p, d, |m|)
    {
      if Stands(inner, p, d) {
        NoLongerMarkerStands(inner, p, m, d);
      }
    }
    LongestUnique(known, inner, p, m);
  }

  /** Where the text goes on after the first member: at the end, or one blank before the second. */
  lemma NextJoined(known: set<string>, inner: string, p: int, members: seq<string>)
    requires AllInner(known) && AllIn(members, known)
    requires 0 <= p <= |inner| && inner[p..] == Joined(members) && members != []
    ensures members[0] in known && Stands(inner, p, members[0])
    ensures var next := PastComma(inner, p + |members[0]|);
            p < next <= |inner| && inner[SkipBlanks(inner, next)..] == Joined(members[1..])
  {
    RestIn(members, known);
    MarkerStarts(members[0]);
    JoinedStep(inner, p, members);
    var end := p + |members[0]|;
    if |members| == 1 {
      NothingJoined(inner, end, members[1..]);
    } else {
      JoinedStarts(known, members[1..]);
      BehindBlank(inner, end, Joined(members[1..]));
    }
  }

  lemma NothingJoined(inner: string, end: int, rest: seq<string>)
    requires end == |inner| && rest == []
    ensures PastComma(inner, end) == end && inner[SkipBlanks(inner, end)..] == Joined(rest)
  {
  }

  lemma BehindBlank(inner: string, end: int, rest: string)
    requires 0 <= end && end + 2 <= |inner| && inner[end] == ',' && inner[end + 1] == ' '
    requires inner[end + 2..] == rest && rest != [] && rest[0] != ' '
    ensures PastComma(inner, end) == end + 1 && inner[SkipBlanks(inner, PastComma(inner, end))..] == rest
  {
    OneBlank(inner, end + 1, rest);
  }

  lemma OneBlank(inner: string, pos: int, rest: string)
    requires 0 <= pos && pos + 1 <= |inner| && inner[pos] == ' ' && inner[pos + 1..] == rest && rest != [] && rest[0] != ' '
    ensures SkipBlanks(inner, pos) == pos + 1
  {
    assert inner[pos + 1] == inner[pos + 1..][0];
  }

  /** From `pos` on the reader recognises `members` one after the other, up to the end. */
  predicate Spells(read: Reader, inner: string, pos: int, members: seq<string>)
    requires 0 <= pos <= |inner|
    decreases |members|
  {
    var p := SkipBlanks(inner, pos);
    if members == [] then p == |inner|
    else
      && p < |inner| && read(p) == Some(members[0]) && 0 < |members[0]| <= |inner| - p
      && Spells(read, inner, PastComma(inner, p + |members[0]|), members[1..])
  }

  lemma {:induction false} SpelledIsRead(read: Reader, inner: string, pos: int, members: seq<string>)
    requires 0 <= pos <= |inner| && Spells(read, inner, pos, members)
    ensures MembersFrom(read, inner, pos) == members
    decreases |members|
  {
    if members != [] {
      var p := SkipBlanks(inner, pos);
      SkippedBlanks(read, inner, pos, p);
      MemberFound(read, inner, p, members[0]);
      SpelledIsRead(read, inner, PastComma(inner, p + |members[0]|), members[1..]);
      assert members == [members[0]] + members[1..];
    }
  }

  /** Wherever `at` holds, the reader recognises the first member, and `at` holds behind it for the others. */
  ghost predicate Advances(read: Reader, inner: string, at: (int, seq<string>) -> bool) {
    forall pos, members :: at(pos, members) ==> AdvancesAt(read, inner, at, pos, members)
  }

  predicate AdvancesAt(read: Reader, inner: string, at: (int, seq<string>) -> bool, pos: int, members: seq<string>) {
    0 <= pos <= |inner|
    && var p := SkipBlanks(inner, pos);
       if members == [] then p == |inner|
       else
         && p < |inner| && read(p) == Some(members[0]) && 0 < |members[0]| <= |inner| - p
         && at(PastComma(inner, p + |members[0]|), members[1..])
  }

  lemma {:induction false} AdvancingSpells(read: Reader, inner: string, at: (int, seq<string>) -> bool, pos: int, members: seq<string>)
    requires Advances(read, inner, at) && at(pos, members)
    ensures 0 <= pos <= |inner| && Spells(read, inner, pos, members)
    decreases |members|
  {
    assert AdvancesAt(read, inner, at, pos, members);
    if members != [] {
      AdvancingSpells(read, inner, at, PastComma(inner, SkipBlanks(inner, pos) + |members[0]|), members[1..]);
    }
  }

  /** The joined text of known members stands at `pos`. */
  ghost predicate JoinedAt(known: set<string>, inner: string, pos: int, members: seq<string>) {
    0 <= pos <= |inner| && AllIn(members, known) && inner[SkipBlanks(inner, pos)..] == Joined(members)
  }

  ghost function AtJoined(known: set<string>, inner: string): (int, seq<string>) -> bool {
    (pos, members) => JoinedAt(known, inner, pos, members)
  }

  lemma JoinedAdvancesAt(known: set<string>, inner: string, pos: int, members: seq<string>)
    requires AllInner(known) && JoinedAt(known, inner, pos, members)
    ensures AdvancesAt(Reading(known, inner), inner, AtJoined(known, inner), pos, members)
  {
    var p := SkipBlanks(inner, pos);
    if members == [] {
      assert |inner[p..]| == 0;
    } else {
      NextJoined(known, inner, p, members);
      RestIn(members, known);
      IsAtJoined(known, inner, PastComma(inner, p + |members[0]|), members[1..]);
      BestIsMember(known, inner, p, members[0]);
      MemberAdvances(Reading(known, inner), inner, AtJoined(known, inner), pos, members);
    }
  }

  lemma IsAtJoined(known: set<string>, inner: string, pos: int, rest: seq<string>)
    requires 0 <= pos <= |inner| && AllIn(rest, known) && inner[SkipBlanks(inner, pos)..] == Joined(rest)
    ensures AtJoined(known, inner)(pos, rest)
  {
  }

  lemma MemberAdvances(read: Reader, inner: string, at: (int, seq<string>) -> bool, pos: int, members: seq<string>)
    requires 0 <= pos <= |inner| && members != [] && Stands(inner, SkipBlanks(inner, pos), members[0])
    requires read(SkipBlanks(inner, pos)) == Some(members[0])
    requires at(PastComma(inner, SkipBlanks(inner, pos) + |members[0]|), members[1..])
    ensures AdvancesAt(read, inner, at, pos, members)
  {
  }

  lemma RestIn(members: seq<string>, known: set<string>)
    requires AllIn(members, known) && members != []
    ensures members[0] in known && AllIn(members[1..], known)
  {
  }

  lemma JoinedStarts(known: set<string>, members: seq<string>)
    requires members != [] && members[0] in known && AllInner(known)
    ensures |Joined(members)| > 0 && Joined(members)[0] != ' '
  {
    MarkerStarts(members[0]);
  }

  /** Any markers of known passages, joined by a comma and a blank, are resolved to exactly that list. */
  lemma JoinedResolves(known: set<string>, members: seq<string>)
    requires AllInner(known) && AllIn(members, known)
    ensures Members(known, Joined(members), 0) == members
  {
    var inner := Joined(members);
    if members != [] {
      JoinedStarts(known, members);
    }
    assert SkipBlanks(inner, 0) == 0 && inner[0..] == inner;
    assert JoinedAt(known, inner, 0, members);
    ReadsJoined(known, inner, members);
  }

  lemma ReadsJoined(known: set<string>, inner: string, members: seq<string>)
    requires AllInner(known) && JoinedAt(known, inner, 0, members)
    ensures Members(known, inner, 0) == members
  {
    var read, at := Reading(known, inner), AtJoined(known, inner);
    forall pos, ms | at(pos, ms)
      ensures AdvancesAt(read, inner, at, pos, ms)
    {
      JoinedAdvancesAt(known, inner, pos, ms);
    }
    AdvancingSpells(read, inner, at, 0, members);
    SpelledIsRead(read, inner, 0, members);
  }

  // ----- the markers handed out --------------------------------------------------------------------

  function SourceFor(labels: map<int, string>, hit: Hit): Source {
    Source(Marker(if hit.book in labels then labels[hit.book] else "", hit.chunkIndex), hit.book, hit.chunkIndex)
  }

  /** One source per hit, in order, under its book's label. */
  predicate IsSources(sources: seq<Source>, hits: seq<Hit>, sourceFor: Hit -> Source) {
    |sources| == |hits| && forall i :: 0 <= i < |hits| ==> sources[i] == sourceFor(hits[i])
  }

  function SourceUnder(labels: map<int, string>): Hit -> Source {
    hit => SourceFor(labels, hit)
  }

  ghost predicate BuiltFrom(sources: seq<Source>, hits: seq<Hit>, labels: map<int, string>) {
    && Distinct(labels) && AllClean(labels) && labels.Keys == Books(hits)
    && IsSources(sources, hits, SourceUnder(labels))
  }

  method BuildSources(hits: seq<Hit>, titles: map<int, string>, idText: int -> string)
    returns (sources: seq<Source>, ghost labels: map<int, string>)
    requires forall b :: IdText(idText(b))
    ensures BuiltFrom(sources, hits, labels) && AsAsked(hits, titles, idText, labels)
  {
    var byBook := AssignBookLabels(hits, titles, idText);
    labels := byBook;
    sources := OnePerHit(hits, SourceUnder(byBook));
  }

  method OnePerHit(hits: seq<Hit>, sourceFor: Hit -> Source) returns (sources: seq<Source>)
    ensures IsSources(sources, hits, sourceFor)
  {
    sources := [];
    for i := 0 to |hits|
      invariant |sources| == i && forall j :: 0 <= j < i ==> sources[j] == sourceFor(hits[j])
    {
      sources := sources + [sourceFor(hits[i])];
    }
  }

  /** Different passages get different markers, so a resolved marker names the passage it was made for. */
  lemma BuiltMarkersAreNames(sources: seq<Source>, hits: seq<Hit>, labels: map<int, string>, i: nat, j: nat)
    requires BuiltFrom(sources, hits, labels) && i < |hits| && j < |hits|
    ensures InnerOf(sources[i]) == InnerOf(sources[j])
            <==> sources[i].book == sources[j].book && sources[i].chunkIndex == sources[j].chunkIndex
  {
    BuiltInner(sources, hits, labels, i);
    BuiltInner(sources, hits, labels, j);
    MarkersNamePassages(labels, hits[i], hits[j]);
  }

  lemma BuiltInner(sources: seq<Source>, hits: seq<Hit>, labels: map<int, string>, i: nat)
    requires BuiltFrom(sources, hits, labels) && i < |hits|
    ensures hits[i].book in labels && sources[i].book == hits[i].book && sources[i].chunkIndex == hits[i].chunkIndex
    ensures InnerOf(sources[i]) == Inner(labels[hits[i].book], hits[i].chunkIndex) && IsInner(InnerOf(sources[i]))
    ensures sources[i].marker == "[" + InnerOf(sources[i]) + "]"
  {
    assert hits[i].book in Books(hits);
    assert sources[i] == SourceFor(labels, hits[i]);
    assert InnerAs(InnerOf(sources[i]), labels[hits[i].book], hits[i].chunkIndex);
  }

  /** End to end: markers handed out for any hits and titles, joined by a comma and a blank, are read back exactly. */
  lemma HandedOutMarkersResolve(sources: seq<Source>, hits: seq<Hit>, labels: map<int, string>, members: seq<string>)
    requires BuiltFrom(sources, hits, labels) && AllIn(members, InnerSet(sources))
    ensures Members(InnerSet(sources), Joined(members), 0) == members
  {
    forall m | m in InnerSet(sources)
      ensures IsInner(m)
    {
      var s :| s in sources && InnerOf(s) == m;
      var i :| 0 <= i < |sources| && sources[i] == s;
      BuiltInner(sources, hits, labels, i);
    }
    JoinedResolves(InnerSet(sources), members);
  }

  // ----- the whole summary -----------------------------------------------------------------------

  /** A bracket group: the positions of its two brackets. */
  datatype Group = Group(open: int, close: int)

  /** The first bracket of either kind from `pos` on, or the length. */
  function NextBracket(text: string, pos: int): (i: int)
    requires 0 <= pos <= |text|
    ensures pos <= i <= |text|
    ensures i < |text| ==> text[i] == '[' || text[i] == ']'
    ensures forall j :: pos <= j < i ==> text[j] != '[' && text[j] != ']'
    decreases |text| - pos
  {
    if pos == |text| || text[pos] == '[' || text[pos] == ']' then pos else NextBracket(text, pos + 1)
  }

  /** The matches of the pattern `\[[^\[\]]*\]`, left to right. */
  function Groups(text: string, from: int): (groups: seq<Group>)
    requires 0 <= from <= |text|
    ensures forall g <- groups :: from <= g.open < g.close < |text|
    decreases |text| - from
  {
    if from == |text| then []
    else if text[from] != '[' then Groups(text, from + 1)
    else
      var close := NextBracket(text, from + 1);
      if close < |text| && text[close] == ']' then [Group(from, close)] + Groups(text, close + 1)
      else Groups(text, from + 1)
  }

  function Body(text: string, g: Group): string
    requires 0 <= g.open < g.close < |text|
  {
    text[g.open + 1..g.close]
  }

  function Bodies(text: string, groups: seq<Group>): (bodies: seq<string>)
    requires forall g <- groups :: 0 <= g.open < g.close < |text|
  {
    if groups == [] then [] else [Body(text, groups[0])] + Bodies(text, groups[1..])
  }

  /** What `read` finds in the bodies, in order. */
  ghost function ReadAll(read: string -> seq<string>, bodies: seq<string>): seq<string> {
    if bodies == [] then [] else ReadAll(read, bodies[..|bodies| - 1]) + read(bodies[|bodies| - 1])
  }

  ghost function MembersIn(known: set<string>): string -> seq<string> {
    body => Members(known, body, 0)
  }

  /** The known members of all bodies in order, repetitions included. */
  ghost function AllMembers(known: set<string>, bodies: seq<string>): seq<string> {
    ReadAll(MembersIn(known), bodies)
  }

  /** The dictionary of the sources by inner text; the first of equal markers stays. */
  method ByInner(sources: seq<Source>) returns (byInner: seq<Source>)
    ensures Inners(byInner) == Firsts(Inners(sources))
    ensures forall s <- byInner :: s in sources
  {
    byInner := [];
    for i := 0 to |sources|
      invariant Inners(byInner) == Firsts(Inners(sources[..i]))
      invariant forall s <- byInner :: s in sources
    {
      OneMoreSource(sources, i);
      if InnerOf(sources[i]) !in Inners(byInner) {
        InnersAppend(byInner, sources[i]);
        byInner := byInner + [sources[i]];
      }
    }
    assert sources[..|sources|] == sources;
  }

  lemma OneMoreSource(sources: seq<Source>, i: nat)
    requires i < |sources|
    ensures var firsts, m := Firsts(Inners(sources[..i])), InnerOf(sources[i]);
            Firsts(Inners(sources[..i + 1])) == if m in firsts then firsts else firsts + [m]
  {
    InnersAppend(sources[..i], sources[i]);
    assert sources[..i + 1] == sources[..i] + [sources[i]];
    FirstsAppend(Inners(sources[..i]), InnerOf(sources[i]));
  }

  method AddUnseen(citations: seq<Source>, members: seq<Source>, ghost before: seq<string>) returns (more: seq<Source>)
    requires Inners(citations) == Firsts(before)
    ensures Inners(more) == Firsts(before + Inners(members))
    ensures forall s <- more :: s in citations || s in members
  {
    more := citations;
    assert before + Inners(members[..0]) == before;
    for i := 0 to |members|
      invariant Inners(more) == Firsts(before + Inners(members[..i]))
      invariant forall s <- more :: s in citations || s in members
    {
      OneMore(before, members, i);
      if InnerOf(members[i]) !in Inners(more) {
        InnersAppend(more, members[i]);
        more := more + [members[i]];
      }
    }
    assert members[..|members|] == members;
  }

  lemma OneMore(before: seq<string>, members: seq<Source>, i: nat)
    requires i < |members|
    ensures var firsts, m := Firsts(before + Inners(members[..i])), InnerOf(members[i]);
            Firsts(before + Inners(members[..i + 1])) == if m in firsts then firsts else firsts + [m]
  {
    InnersAppend(members[..i], members[i]);
    assert members[..i + 1] == members[..i] + [members[i]];
    assert before + Inners(members[..i + 1]) == before + Inners(members[..i]) + [InnerOf(members[i])];
    FirstsAppend(before + Inners(members[..i]), InnerOf(members[i]));
  }

  lemma ReadAllAppend(read: string -> seq<string>, bodies: seq<string>, body: string)
    ensures ReadAll(read, bodies + [body]) == ReadAll(read, bodies) + read(body)
  {
    assert (bodies + [body])[..|bodies|] == bodies;
  }

  /** The citations are the first occurrences, in order, of the known members of the summary's groups. */
  method ExtractCitations(summary: string, sources: seq<Source>) returns (citations: seq<Source>)
    ensures Inners(citations) == Firsts(AllMembers(InnerSet(sources), Bodies(summary, Groups(summary, 0))))
    ensures forall c <- citations :: c in sources
  {
    var byInner := ByInner(sources);
    SameKeys(sources, byInner);
    citations := CitationsOf(Bodies(summary, Groups(summary, 0)), byInner);
  }

  lemma SameKeys(sources: seq<Source>, byInner: seq<Source>)
    requires Inners(byInner) == Firsts(Inners(sources))
    ensures InnerSet(byInner) == InnerSet(sources)
  {
    InnersAreSet(sources);
    InnersAreSet(byInner);
    FirstsMeaning(Inners(sources));
  }

  /** The loop over the groups, on the text between their brackets. */
  method CitationsOf(bodies: seq<string>, byInner: seq<Source>) returns (citations: seq<Source>)
    ensures Inners(citations) == Firsts(AllMembers(InnerSet(byInner), bodies))
    ensures forall c <- citations :: c in byInner
  {
    ghost var read := MembersIn(InnerSet(byInner));
    citations := [];
    for i := 0 to |bodies|
      invariant Inners(citations) == Firsts(ReadAll(read, bodies[..i]))
      invariant forall c <- citations :: c in byInner
    {
      var members := ResolveGroupMembers(bodies[i], byInner);
      assert Inners(members) == read(bodies[i]);
      citations := AddUnseen(citations, members, ReadAll(read, bodies[..i]));
      ReadAllAppend(read, bodies[..i], bodies[i]);
      assert bodies[..i + 1] == bodies[..i] + [bodies[i]];
    }
    assert bodies[..|bodies|] == bodies;
  }
}
