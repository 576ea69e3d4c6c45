/**
 The remote version cursor of an editor link (api/editor_links.py) while the remote editor types at
 any time.  Each Drive call is a step of its own: a pull reads the version, then exports, then
 commits; status reads the row, then the version; link uploads, then reads the version, then inserts.  One link row is
 followed from its upload on; what outlives it can only write the document, which `LocalWrite` covers.
*/
module DriveCursor {
  import opened Common
  import opened ContentText

  type Convert = string -> Json  // export, pandoc and the TipTap leg

  /** `stored` is history: the content committed with this version, when a pull wrote it. */
  datatype Cursor = Cursor(version: int, stored: Option<Json>)

  datatype Pull = GotVersion(version: int) | Exported(version: int, text: string)

  datatype Linking = NotLinking | Uploaded(text: string) | GotLinkVersion(text: string, version: int)

  /**
   `version` and `text` are the Doc's; `texts` is history, the text each version ever had.
   `checks` are status requests that have read the row.  `touched` says that the document was
   written by something else since the last pull committed.
  */
  datatype State = State(version: int, text: string, texts: map<int, string>,
                         linking: Linking, cursor: Option<Cursor>, content: Json, touched: bool,
                         pulls: map<int, Pull>, checks: map<int, Cursor>)

  datatype Event =
    | RemoteEdit(text: string, version: int)
    | Upload(text: string, version: int)
    | LinkReadVersion
    | LinkInsert
    | PullReadVersion(id: int)
    | PullExport(id: int)
    | PullCommit(id: int)
    | PullAbort(id: int)
    | LocalWrite(content: Json)
    | StatusReadRow(id: int)
    | StatusReadVersion(id: int)

  ghost predicate Enabled(s: State, e: Event) {
    match e
    case RemoteEdit(_, v) => v !in s.texts  // every edit changes the version, and none repeats
    case Upload(_, v) => s.linking.NotLinking? && s.cursor.None? && v !in s.texts
    case LinkReadVersion => s.linking.Uploaded?
    case LinkInsert => s.linking.GotLinkVersion?
    case PullReadVersion(p) => s.cursor.Some? && p !in s.pulls
    case PullExport(p) => p in s.pulls && s.pulls[p].GotVersion?
    case PullCommit(p) => p in s.pulls && s.pulls[p].Exported? && s.cursor.Some?
    case PullAbort(p) => p in s.pulls
    case LocalWrite(_) => true
    case StatusReadRow(k) => s.cursor.Some? && k !in s.checks
    case StatusReadVersion(k) => k in s.checks
  }

  ghost function Step(convert: Convert, s: State, e: Event): State
    requires Enabled(s, e)
  {
    match e
    case RemoteEdit(t, v) => s.(text := t, version := v, texts := s.texts[v := t])
    case Upload(t, v) => s.(text := t, version := v, texts := s.texts[v := t], linking := Uploaded(t))
    case LinkReadVersion => s.(linking := GotLinkVersion(s.linking.text, s.version))
    case LinkInsert => s.(linking := NotLinking, cursor := Some(Cursor(s.linking.version, None)))
    case PullReadVersion(p) => s.(pulls := s.pulls[p := GotVersion(s.version)])
    case PullExport(p) => s.(pulls := s.pulls[p := Exported(s.pulls[p].version, s.text)])
    case PullCommit(p) =>
      var stored := convert(s.pulls[p].text);
      s.(content := stored, touched := false, cursor := Some(Cursor(s.pulls[p].version, Some(stored))), pulls := s.pulls - {p})
    case PullAbort(p) => s.(pulls := s.pulls - {p})
    case LocalWrite(c) => s.(content := c, touched := true)
    case StatusReadRow(k) => s.(checks := s.checks[k := s.cursor.value])
    case StatusReadVersion(k) => s.(checks := s.checks - {k})
  }

  /** What status answers at StatusReadVersion(k): an equality compare, never parsed. */
  predicate RemoteChanged(s: State, k: int)
    requires k in s.checks
  {
    s.version != s.checks[k].version
  }

  ghost predicate Run(convert: Convert, ss: seq<State>, es: seq<Event>) {
    && |ss| == |es| + 1
    && ss[0].texts == map[ss[0].version := ss[0].text] && ss[0].linking.NotLinking? && ss[0].cursor.None?
    && ss[0].pulls == map[] && ss[0].checks == map[]
    && forall i :: 0 <= i < |es| ==> StepAt(convert, ss, es, i)
  }

  ghost predicate StepAt(convert: Convert, ss: seq<State>, es: seq<Event>, i: nat)
    requires i < |es| && |ss| == |es| + 1
  {
    Enabled(ss[i], es[i]) && ss[i + 1] == Step(convert, ss[i], es[i])
  }

  // ----- invariant -------------------------------------------------------------------

  /** A pull's cursor that still equals the Doc's version stands for the Doc's text. */
  ghost predicate CursorOk(convert: Convert, s: State, c: Cursor) {
    && c.version in s.texts
    && (c.stored.Some? && s.version == c.version ==> c.stored.value == convert(s.text))
  }

  ghost predicate PullOk(s: State, p: Pull) {
    && p.version in s.texts
    && (p.Exported? && s.version == p.version ==> p.text == s.text)
  }

  ghost predicate Inv(convert: Convert, s: State) {
    && s.version in s.texts && s.texts[s.version] == s.text
    && (s.linking.GotLinkVersion? ==> s.linking.version in s.texts)
    && (s.cursor.Some? ==> CursorOk(convert, s, s.cursor.value))
    && (s.cursor.Some? && s.cursor.value.stored.Some? && !s.touched ==> s.content == s.cursor.value.stored.value)
    && (forall p :: p in s.pulls ==> PullOk(s, s.pulls[p]))
    && (forall k :: k in s.checks ==> CursorOk(convert, s, s.checks[k]))
  }

  lemma StepKeepsInv(convert: Convert, s: State, e: Event)
    requires Inv(convert, s) && Enabled(s, e)
    ensures Inv(convert, Step(convert, s, e))
  {
    var n := Step(convert, s, e);
    forall p | p in n.pulls ensures PullOk(n, n.pulls[p]) {
      if p in s.pulls { assert PullOk(s, s.pulls[p]); }
    }
    forall k | k in n.checks ensures CursorOk(convert, n, n.checks[k]) {
      if k in s.checks { assert CursorOk(convert, s, s.checks[k]); }
    }
  }

  lemma {:induction false} RunKeepsInv(convert: Convert, ss: seq<State>, es: seq<Event>, i: nat)
    requires Run(convert, ss, es) && i < |ss|
    ensures Inv(convert, ss[i])
  {
    if i > 0 {
      RunKeepsInv(convert, ss, es, i - 1);
      assert StepAt(convert, ss, es, i - 1);
      StepKeepsInv(convert, ss[i - 1], es[i - 1]);
    }
  }

  // ----- what status promises ------------------------------------------------------------

  /**
   Whenever status answers remote_changed = false against a cursor a pull wrote, the content that
   pull stored is the conversion of the Doc's text at that moment, however remote edits, other pulls
   and writes of the document interleave.
  */
  lemma UnchangedMeansCurrent(convert: Convert, ss: seq<State>, es: seq<Event>, i: nat, k: int)
    requires Run(convert, ss, es) && i < |es| && es[i] == StatusReadVersion(k)
    ensures k in ss[i].checks
    ensures !RemoteChanged(ss[i], k) && ss[i].checks[k].stored.Some? ==>
              ss[i].checks[k].stored.value == convert(ss[i].text)
  {
    RunKeepsInv(convert, ss, es, i);
    assert StepAt(convert, ss, es, i);
    assert CursorOk(convert, ss[i], ss[i].checks[k]);
  }

  /** While nothing else wrote the document since the pull, the document itself is that conversion. */
  lemma UntouchedDocumentIsCurrent(convert: Convert, ss: seq<State>, es: seq<Event>, i: nat)
    requires Run(convert, ss, es) && i < |ss|
    requires ss[i].cursor.Some? && ss[i].cursor.value.stored.Some? && !ss[i].touched
    requires ss[i].cursor.value.version == ss[i].version
    ensures ss[i].content == convert(ss[i].text)
  {
    RunKeepsInv(convert, ss, es, i);
  }

  /**
   A cursor written by link does not have the property: the version is read after the upload, so an
   edit in between is taken for the uploaded text (api/editor_links.py:426-432).
  */
  lemma LinkCursorMayHideAnEdit(convert: Convert, c: Json) returns (ss: seq<State>, es: seq<Event>)
    ensures Run(convert, ss, es) && |es| == 5 && es[0] == Upload("uploaded", 1)
    ensures var s := ss[5];
      && 0 in s.checks && !RemoteChanged(s, 0) && s.text == "edited" && s.cursor.Some?
  {
    var s0 := State(0, "", map[0 := ""], NotLinking, None, c, false, map[], map[]);
    var s1 := Step(convert, s0, Upload("uploaded", 1));
    var s2 := Step(convert, s1, RemoteEdit("edited", 2));
    var s3 := Step(convert, s2, LinkReadVersion);
    var s4 := Step(convert, s3, LinkInsert);
    var s5 := Step(convert, s4, StatusReadRow(0));
    ss := [s0, s1, s2, s3, s4, s5];
    es := [Upload("uploaded", 1), RemoteEdit("edited", 2), LinkReadVersion, LinkInsert, StatusReadRow(0)];
    forall i | 0 <= i < |es| ensures StepAt(convert, ss, es, i) {
    }
  }

  // ----- when a link's cursor is safe ------------------------------------------------------

  /** What a version stood for it stands for ever after. */
  lemma {:induction false} TextsPersist(convert: Convert, ss: seq<State>, es: seq<Event>, i: nat, j: nat, v: int)
    requires Run(convert, ss, es) && i <= j < |ss| && v in ss[i].texts
    ensures v in ss[j].texts && ss[j].texts[v] == ss[i].texts[v]
    decreases j
  {
    if i < j {
      TextsPersist(convert, ss, es, i, j - 1, v);
      assert StepAt(convert, ss, es, j - 1);
    }
  }

  /** Event `m` is the version read of the link, and found version `v` while the link had uploaded `text`. */
  predicate LinkRead(ss: seq<State>, es: seq<Event>, m: int, v: int) {
    0 <= m < |es| && m < |ss| && es[m].LinkReadVersion? && ss[m].linking.Uploaded? && ss[m].version == v
  }

  ghost predicate ReadBefore(ss: seq<State>, es: seq<Event>, i: int, v: int) {
    exists m :: 0 <= m < i && LinkRead(ss, es, m, v)
  }

  ghost predicate FromLink(ss: seq<State>, es: seq<Event>, i: int, c: Cursor) {
    c.stored.None? ==> ReadBefore(ss, es, i, c.version)
  }

  /** Every cursor no pull wrote carries the version that the link read. */
  ghost predicate OriginsOk(ss: seq<State>, es: seq<Event>, i: nat)
    requires i < |ss|
  {
    && (ss[i].linking.GotLinkVersion? ==> ReadBefore(ss, es, i, ss[i].linking.version))
    && (ss[i].cursor.Some? ==> FromLink(ss, es, i, ss[i].cursor.value))
    && (forall k :: k in ss[i].checks ==> FromLink(ss, es, i, ss[i].checks[k]))
  }

  lemma ReadStays(ss: seq<State>, es: seq<Event>, i: nat, v: int)
    requires ReadBefore(ss, es, i, v)
    ensures ReadBefore(ss, es, i + 1, v)
  {
    var m :| 0 <= m < i && LinkRead(ss, es, m, v);
    assert 0 <= m < i + 1 && LinkRead(ss, es, m, v);
  }

  lemma {:induction false} RunKeepsOrigins(convert: Convert, ss: seq<State>, es: seq<Event>, i: nat)
    requires Run(convert, ss, es) && i < |ss|
    ensures OriginsOk(ss, es, i)
  {
    if i > 0 {
      var p := i - 1;
      RunKeepsOrigins(convert, ss, es, p);
      assert StepAt(convert, ss, es, p);
      if es[p].LinkReadVersion? {
        assert LinkRead(ss, es, p, ss[p].version);
      }
      forall v | ReadBefore(ss, es, p, v)
        ensures ReadBefore(ss, es, i, v)
      {
        ReadStays(ss, es, p, v);
      }
      forall k | k in ss[i].checks
        ensures FromLink(ss, es, i, ss[i].checks[k])
      {
        if k in ss[p].checks {
          assert FromLink(ss, es, p, ss[p].checks[k]);
        }
      }
    }
  }

  /**
   For every run: when status reports no change against a cursor that link wrote, the Doc still holds
   what link uploaded if and only if it held that text when link read the version.
  */
  lemma LinkCursorSafeIff(convert: Convert, ss: seq<State>, es: seq<Event>, i: nat, k: int) returns (m: nat)
    requires Run(convert, ss, es) && i < |es| && es[i] == StatusReadVersion(k)
    requires k in ss[i].checks && ss[i].checks[k].stored.None? && !RemoteChanged(ss[i], k)
    ensures m < i && LinkRead(ss, es, m, ss[i].checks[k].version)
    ensures ss[i].text == ss[m].linking.text <==> ss[m].text == ss[m].linking.text
  {
    RunKeepsOrigins(convert, ss, es, i);
    assert FromLink(ss, es, i, ss[i].checks[k]);
    m :| 0 <= m < i && LinkRead(ss, es, m, ss[i].checks[k].version);
    RunKeepsInv(convert, ss, es, m);
    RunKeepsInv(convert, ss, es, i);
    TextsPersist(convert, ss, es, m, i, ss[m].version);
  }
}
