/** What the documents resource guarantees over whole runs of requests. */
module DocumentRuns {
  import opened ContentText
  import opened DocumentApi

  datatype Call = Call(user: UserId, now: Time, request: Request)

  ghost function Answer(rules: Rules, db: Db, c: Call): Result {
    Handle(rules, db, c.user, c.now, c.request)
  }

  /** `dbs` are the databases before, between and after the requests `cs`. */
  ghost predicate Run(rules: Rules, dbs: seq<Db>, cs: seq<Call>) {
    && |dbs| == |cs| + 1 && dbs[0] == Db(map[], [], map[])
    && forall i :: 0 <= i < |cs| ==> StepAt(rules, dbs, cs, i)
  }

  ghost predicate StepAt(rules: Rules, dbs: seq<Db>, cs: seq<Call>, i: nat)
    requires i < |cs| && |dbs| == |cs| + 1
  {
    FreshIds(dbs[i], cs[i].request) && dbs[i + 1] == Answer(rules, dbs[i], cs[i]).db
  }

  // ----- invariant -----------------------------------------------------------------

  ghost predicate TextOk(db: Db) {
    && (forall id :: id in db.docs ==> db.docs[id].contentText == Project(db.docs[id].content))
    && (forall i :: 0 <= i < |db.revisions| ==> db.revisions[i].contentText == Project(db.revisions[i].content))
  }

  ghost predicate RowsOk(db: Db) {
    && (forall i :: 0 <= i < |db.revisions| ==>
          db.revisions[i].doc in db.docs && db.docs[db.revisions[i].doc].user == db.revisions[i].user)
    && (forall k :: k in db.links ==> db.links[k].doc in db.docs && db.docs[db.links[k].doc].user == db.links[k].user)
  }

  ghost predicate OneLiveLink(db: Db) {
    forall j, k :: j in db.links && k in db.links && BothLive(db.links[j], db.links[k]) ==> j == k
  }

  predicate BothLive(a: Link, b: Link) {
    a.state.Linked? && b.state.Linked? && a.doc == b.doc
  }

  ghost predicate Inv(db: Db) {
    TextOk(db) && RowsOk(db) && OneLiveLink(db)
  }

  lemma OverwriteKeepsInv(db: Db, u: UserId, now: Time, id: DocId, content: Json, source: Source)
    requires Inv(db) && Owned(db, u, id)
    ensures Inv(Overwritten(db, u, now, id, content, source))
  {
  }

  lemma VersionKeepsInv(db: Db, k: LinkId, version: Version)
    requires Inv(db) && k in db.links
    ensures Inv(db.(links := db.links[k := db.links[k].(version := version)]))
  {
  }

  lemma StateKeepsInv(db: Db, k: LinkId, state: LinkState)
    requires Inv(db) && k in db.links && !state.Linked?
    ensures Inv(SetState(db, k, state))
  {
  }

  lemma PullKeepsInv(rules: Rules, db: Db, u: UserId, now: Time, id: DocId, k: LinkId, drive: Drive)
    requires Inv(db) && Owned(db, u, id) && k in db.links
    ensures Inv(PullBody(rules, db, u, now, id, k, drive).db) && PullBody(rules, db, u, now, id, k, drive).db.links.Keys == db.links.Keys
  {
    if drive.version.Some? && drive.exported.Converted? {
      OverwriteKeepsInv(db, u, now, id, drive.exported.content, ByPull);
      VersionKeepsInv(Overwritten(db, u, now, id, drive.exported.content, ByPull), k, drive.version.value);
    }
  }

  lemma DocumentStepKeepsInv(rules: Rules, db: Db, c: Call)
    requires Inv(db) && FreshIds(db, c.request)
    requires !AboutLink(c.request)
    ensures Inv(Answer(rules, db, c).db)
  {
    if c.request.Import? && c.request.upload.Docx? && Owned(db, c.user, c.request.id) {
      OverwriteKeepsInv(db, c.user, c.now, c.request.id, c.request.upload.content, ByImport);
    }
  }

  lemma DetachKeepsInv(rules: Rules, db: Db, u: UserId, now: Time, id: DocId, k: LinkId, mode: Mode, drive: Drive)
    requires Inv(db) && Owned(db, u, id) && k in LiveLinks(db, u, id)
    ensures Inv(Detach(rules, db, u, now, id, k, mode, drive).db)
  {
    StateKeepsInv(db, k, Unlinked);
    PullKeepsInv(rules, db, u, now, id, k, drive);
    StateKeepsInv(PullBody(rules, db, u, now, id, k, drive).db, k, Unlinked);
  }

  lemma LinkStepKeepsInv(rules: Rules, db: Db, c: Call)
    requires Inv(db) && FreshIds(db, c.request)
    requires AboutLink(c.request)
    ensures Inv(Answer(rules, db, c).db)
  {
    var id := c.request.id;
    var live := LiveLinks(db, c.user, id);
    if Owned(db, c.user, id) && live != {} && !c.request.LinkDoc? && !c.request.LateLink? {
      var k := Pick(live);
      StateKeepsInv(db, k, Errored);
      if c.request.Pull? {
        PullKeepsInv(rules, db, c.user, c.now, id, k, c.request.drive);
      } else if c.request.Unlink? {
        DetachKeepsInv(rules, db, c.user, c.now, id, k, c.request.mode, c.request.drive);
      }
    }
    if live == {} && id in db.docs && db.docs[id].user == c.user {
      forall k | k in db.links && db.links[k].doc == id ensures !db.links[k].state.Linked? {
        assert k !in live;
      }
    }
  }

  lemma {:induction false} RunKeepsInv(rules: Rules, dbs: seq<Db>, cs: seq<Call>, i: nat)
    requires Run(rules, dbs, cs) && i < |dbs|
    ensures Inv(dbs[i])
  {
    if i > 0 {
      RunKeepsInv(rules, dbs, cs, i - 1);
      assert StepAt(rules, dbs, cs, i - 1);
      var r := cs[i - 1].request;
      if AboutLink(r) {
        LinkStepKeepsInv(rules, dbs[i - 1], cs[i - 1]);
      } else {
        DocumentStepKeepsInv(rules, dbs[i - 1], cs[i - 1]);
      }
    }
  }

  // ----- one step, seen from outside -------------------------------------------------

  /** The reply says that an import or a pull replaced the document's content. */
  ghost predicate Overwrites(rules: Rules, db: Db, c: Call) {
    var reply := Answer(rules, db, c).reply;
    match c.request
    case Import(_, _) => reply.DocReply?
    case Pull(_, _) => reply.DocReply?
    case Unlink(_, mode, _) => mode.PullFinal? && (reply.LinkReply? || reply == Failed(500))
    case _ => false
  }

  /** An import or pull adds exactly one revision, holding what it replaced; nothing else adds any. */
  lemma StepLogs(rules: Rules, db: Db, c: Call)
    ensures var after := Answer(rules, db, c).db;
      if Overwrites(rules, db, c)
      then Owned(db, c.user, c.request.id) &&
           after.revisions == db.revisions + [Revision(c.request.id, c.user, db.docs[c.request.id].content,
                                                       db.docs[c.request.id].contentText,
                                                       if c.request.Import? then ByImport else ByPull)]
      else after.revisions == db.revisions
  {
  }

  /** Rows stay; a document's fields change only with its `updatedAt`, which then is the request's time. */
  ghost predicate KeepsRows(db: Db, after: Db, now: Time) {
    && db.docs.Keys <= after.docs.Keys && db.links.Keys <= after.links.Keys
    && (forall id :: id in db.docs ==> SameOrStamped(db.docs[id], after.docs[id], now))
    && (forall id :: id in after.docs && id !in db.docs ==> after.docs[id].updatedAt == now)
    && (forall k :: k in db.links && !db.links[k].state.Linked? ==> after.links[k] == db.links[k])
  }

  lemma DocumentStepKeepsRows(rules: Rules, db: Db, c: Call)
    requires FreshIds(db, c.request)
    requires !AboutLink(c.request)
    ensures KeepsRows(db, Answer(rules, db, c).db, c.now)
  {
  }

  lemma StepKeepsRows(rules: Rules, db: Db, c: Call)
    requires FreshIds(db, c.request)
    ensures KeepsRows(db, Answer(rules, db, c).db, c.now)
  {
    var r := c.request;
    if !AboutLink(r) {
      DocumentStepKeepsRows(rules, db, c);
    } else if r.Unlink? {
      UnlinkKeepsRows(rules, db, c);
    } else {
      LinkStepKeepsRows(rules, db, c);
    }
  }

  lemma LinkStepKeepsRows(rules: Rules, db: Db, c: Call)
    requires FreshIds(db, c.request) && AboutLink(c.request) && !c.request.Unlink?
    ensures KeepsRows(db, Answer(rules, db, c).db, c.now)
  {
  }

  lemma UnlinkKeepsRows(rules: Rules, db: Db, c: Call)
    requires c.request.Unlink?
    ensures KeepsRows(db, Answer(rules, db, c).db, c.now)
  {
    var id, drive := c.request.id, c.request.drive;
    if AsksDrive(db, c.user, id, drive, true) {
      DetachKeepsRows(rules, db, c.user, c.now, id, Pick(LiveLinks(db, c.user, id)), c.request.mode, drive);
    }
  }

  lemma DetachKeepsRows(rules: Rules, db: Db, u: UserId, now: Time, id: DocId, k: LinkId, mode: Mode, drive: Drive)
    requires Owned(db, u, id) && k in LiveLinks(db, u, id)
    ensures KeepsRows(db, Detach(rules, db, u, now, id, k, mode, drive).db, now)
  {
  }

  predicate SameText(a: Doc, b: Doc) {
    b == a.(deletedAt := b.deletedAt)
  }

  predicate SameOrStamped(a: Doc, b: Doc, now: Time) {
    SameText(a, b) || b.updatedAt == now
  }

  /** Outside PATCH, a changed content was logged as a revision. */
  lemma ChangeIsOverwrite(rules: Rules, db: Db, c: Call, id: DocId)
    requires FreshIds(db, c.request) && id in db.docs && !c.request.Patch?
    requires Answer(rules, db, c).db.docs[id].content != db.docs[id].content
    ensures Overwrites(rules, db, c) && c.request.id == id && db.docs[id].user == c.user
  {
  }

  // ----- runs ----------------------------------------------------------------------------

  /** In every reachable state. */
  lemma EveryStateIsSound(rules: Rules, dbs: seq<Db>, cs: seq<Call>, i: nat)
    requires Run(rules, dbs, cs) && i < |dbs|
    ensures var db := dbs[i];
      && (forall id :: id in db.docs ==> db.docs[id].contentText == Join(Texts(db.docs[id].content)))
      && (forall j :: 0 <= j < |db.revisions| ==> db.revisions[j].contentText == Join(Texts(db.revisions[j].content)))
      && (forall j, k :: j in db.links && k in db.links && BothLive(db.links[j], db.links[k]) ==> j == k)
      && (forall k :: k in db.links ==> db.links[k].doc in db.docs && db.docs[db.links[k].doc].user == db.links[k].user)
  {
    RunKeepsInv(rules, dbs, cs, i);
    var db := dbs[i];
    forall id | id in db.docs ensures db.docs[id].contentText == Join(Texts(db.docs[id].content)) {
      ProjectionIsFlat(db.docs[id].content);
    }
    forall j | 0 <= j < |db.revisions| ensures db.revisions[j].contentText == Join(Texts(db.revisions[j].content)) {
      ProjectionIsFlat(db.revisions[j].content);
    }
  }

  /** An error or unlinked row never changes again, and revisions are only appended. */
  lemma {:induction false} EndedLinksAndLogPersist(rules: Rules, dbs: seq<Db>, cs: seq<Call>, i: nat, j: nat)
    requires Run(rules, dbs, cs) && i <= j < |dbs|
    ensures dbs[i].docs.Keys <= dbs[j].docs.Keys
    ensures forall k :: k in dbs[i].links && !dbs[i].links[k].state.Linked? ==>
              k in dbs[j].links && dbs[j].links[k] == dbs[i].links[k]
    ensures dbs[i].revisions <= dbs[j].revisions
    decreases j - i
  {
    if i < j {
      EndedLinksAndLogPersist(rules, dbs, cs, i, j - 1);
      assert StepAt(rules, dbs, cs, j - 1);
      StepKeepsRows(rules, dbs[j - 1], cs[j - 1]);
      StepLogs(rules, dbs[j - 1], cs[j - 1]);
    }
  }

  /** Every content an import or pull ever replaced is still in the log, with its text and owner. */
  lemma ReplacedContentIsInLog(rules: Rules, dbs: seq<Db>, cs: seq<Call>, i: nat, j: nat, id: DocId)
    requires Run(rules, dbs, cs) && i < j < |dbs| && id in dbs[i].docs && !cs[i].request.Patch?
    requires id in dbs[i + 1].docs && dbs[i + 1].docs[id].content != dbs[i].docs[id].content
    ensures var n, doc := |dbs[i].revisions|, dbs[i].docs[id];
      && n < |dbs[j].revisions| && dbs[j].revisions[n].doc == id && dbs[j].revisions[n].user == doc.user
      && dbs[j].revisions[n].content == doc.content && dbs[j].revisions[n].contentText == doc.contentText
  {
    assert StepAt(rules, dbs, cs, i);
    ChangeIsOverwrite(rules, dbs[i], cs[i], id);
    StepLogs(rules, dbs[i], cs[i]);
    EndedLinksAndLogPersist(rules, dbs, cs, i + 1, j);
  }

  ghost function CountOverwrites(rules: Rules, dbs: seq<Db>, cs: seq<Call>, n: nat): nat
    requires n <= |cs| && |dbs| == |cs| + 1
  {
    if n == 0 then 0
    else CountOverwrites(rules, dbs, cs, n - 1) + if Overwrites(rules, dbs[n - 1], cs[n - 1]) then 1 else 0
  }

  /** There are exactly as many revisions as successful imports and pulls. */
  lemma {:induction false} RevisionsCountOverwrites(rules: Rules, dbs: seq<Db>, cs: seq<Call>, n: nat)
    requires Run(rules, dbs, cs) && n <= |cs|
    ensures |dbs[n].revisions| == CountOverwrites(rules, dbs, cs, n)
  {
    if n > 0 {
      RevisionsCountOverwrites(rules, dbs, cs, n - 1);
      assert StepAt(rules, dbs, cs, n - 1);
      StepLogs(rules, dbs[n - 1], cs[n - 1]);
    }
  }

  // ----- optimistic concurrency ---------------------------------------------------------

  /** The database clock gives each request a later time. */
  ghost predicate Ticking(cs: seq<Call>) {
    forall i, j :: 0 <= i < j < |cs| ==> cs[i].now < cs[j].now
  }

  lemma {:induction false} StampsAreOld(rules: Rules, dbs: seq<Db>, cs: seq<Call>, i: nat, k: nat)
    requires Run(rules, dbs, cs) && Ticking(cs) && i <= k < |cs|
    ensures forall id :: id in dbs[i].docs ==> dbs[i].docs[id].updatedAt < cs[k].now
    decreases i
  {
    if i > 0 {
      StampsAreOld(rules, dbs, cs, i - 1, k);
      assert StepAt(rules, dbs, cs, i - 1);
      StepKeepsRows(rules, dbs[i - 1], cs[i - 1]);
    }
  }

  lemma {:induction false} SameStampSameText(rules: Rules, dbs: seq<Db>, cs: seq<Call>, i: nat, j: nat, id: DocId)
    requires Run(rules, dbs, cs) && Ticking(cs) && i <= j < |dbs| && id in dbs[i].docs
    ensures id in dbs[j].docs && dbs[i].docs[id].updatedAt <= dbs[j].docs[id].updatedAt
    ensures dbs[j].docs[id].updatedAt == dbs[i].docs[id].updatedAt ==> SameText(dbs[i].docs[id], dbs[j].docs[id])
    decreases j - i
  {
    if i < j {
      SameStampSameText(rules, dbs, cs, i, j - 1, id);
      StampsAreOld(rules, dbs, cs, j - 1, j - 1);
      StepStamps(rules, dbs, cs, j - 1, id);
      StampsAddUp(dbs[i].docs[id], dbs[j - 1].docs[id], dbs[j].docs[id], cs[j - 1].now);
    }
  }

  lemma StepStamps(rules: Rules, dbs: seq<Db>, cs: seq<Call>, i: nat, id: DocId)
    requires |dbs| == |cs| + 1 && i < |cs| && StepAt(rules, dbs, cs, i) && id in dbs[i].docs
    ensures id in dbs[i + 1].docs && SameOrStamped(dbs[i].docs[id], dbs[i + 1].docs[id], cs[i].now)
  {
    StepKeepsRows(rules, dbs[i], cs[i]);
  }

  lemma StampsAddUp(a: Doc, b: Doc, c: Doc, now: Time)
    requires a.updatedAt <= b.updatedAt < now && (b.updatedAt == a.updatedAt ==> SameText(a, b)) && SameOrStamped(b, c, now)
    ensures a.updatedAt <= c.updatedAt && (c.updatedAt == a.updatedAt ==> SameText(a, c))
  {
  }

  /** A PATCH that succeeds overwrites exactly the text its base was read with: no update in between is lost. */
  lemma NoLostUpdate(rules: Rules, dbs: seq<Db>, cs: seq<Call>, i: nat, j: nat)
    requires Run(rules, dbs, cs) && Ticking(cs) && i <= j < |cs|
    requires cs[j].request.Patch? && Answer(rules, dbs[j], cs[j]).reply.DocReply?
    requires cs[j].request.id in dbs[i].docs && dbs[i].docs[cs[j].request.id].updatedAt == cs[j].request.base
    ensures cs[j].request.id in dbs[j].docs && SameText(dbs[i].docs[cs[j].request.id], dbs[j].docs[cs[j].request.id])
  {
    SameStampSameText(rules, dbs, cs, i, j, cs[j].request.id);
  }

  /** Of two PATCHes of one document with the same base, at most one succeeds. */
  lemma SameBaseSucceedsOnce(rules: Rules, dbs: seq<Db>, cs: seq<Call>, i: nat, j: nat)
    requires Run(rules, dbs, cs) && Ticking(cs) && i < j < |cs|
    requires cs[i].request.Patch? && cs[j].request.Patch? && cs[i].request.id == cs[j].request.id
    requires cs[i].request.base == cs[j].request.base
    requires Answer(rules, dbs[i], cs[i]).reply.DocReply?
    ensures Answer(rules, dbs[j], cs[j]).reply.Failed?
  {
    assert StepAt(rules, dbs, cs, i);
    StampsAreOld(rules, dbs, cs, i, i);
    SameStampSameText(rules, dbs, cs, i + 1, j, cs[i].request.id);
  }

  // ----- tenants ------------------------------------------------------------------------

  function RevisionsOf(rs: seq<Revision>, u: UserId): seq<Revision> {
    if rs == [] then []
    else RevisionsOf(rs[..|rs| - 1], u) + if rs[|rs| - 1].user == u then [rs[|rs| - 1]] else []
  }

  /** The two databases hold the same documents and links of user `u`. */
  ghost predicate SameRows(a: Db, b: Db, u: UserId) {
    && (forall id :: OwnDoc(a, u, id) <==> OwnDoc(b, u, id))
    && (forall id :: OwnDoc(a, u, id) ==> a.docs[id] == b.docs[id])
    && (forall k :: OwnLink(a, u, k) <==> OwnLink(b, u, k))
    && (forall k :: OwnLink(a, u, k) ==> a.links[k] == b.links[k])
  }

  /** And the same revisions, in the same order. */
  ghost predicate SameFor(a: Db, b: Db, u: UserId) {
    SameRows(a, b, u) && RevisionsOf(a.revisions, u) == RevisionsOf(b.revisions, u)
  }

  predicate OwnDoc(db: Db, u: UserId, id: DocId) { id in db.docs && db.docs[id].user == u }

  predicate OwnLink(db: Db, u: UserId, k: LinkId) { k in db.links && db.links[k].user == u }

  lemma RevisionAppended(rs: seq<Revision>, r: Revision, u: UserId)
    ensures RevisionsOf(rs + [r], u) == RevisionsOf(rs, u) + if r.user == u then [r] else []
  {
    assert (rs + [r])[..|rs|] == rs;
  }

  lemma OthersDocumentRequest(rules: Rules, db: Db, c: Call, v: UserId)
    requires FreshIds(db, c.request) && v != c.user
    requires !AboutLink(c.request)
    ensures SameRows(db, Answer(rules, db, c).db, v)
  {
  }

  lemma OthersLinkRequest(rules: Rules, db: Db, c: Call, v: UserId)
    requires FreshIds(db, c.request) && v != c.user
    requires AboutLink(c.request) && !c.request.Unlink?
    ensures SameRows(db, Answer(rules, db, c).db, v)
  {
  }

  lemma OthersUnlinkRequest(rules: Rules, db: Db, c: Call, v: UserId)
    requires c.request.Unlink? && v != c.user
    ensures SameRows(db, Answer(rules, db, c).db, v)
  {
    var id := c.request.id;
    if Owned(db, c.user, id) && LiveLinks(db, c.user, id) != {} {
      OthersDetach(rules, db, c.user, c.now, id, Pick(LiveLinks(db, c.user, id)), c.request.mode, c.request.drive, v);
    }
  }

  lemma OthersDetach(rules: Rules, db: Db, u: UserId, now: Time, id: DocId, k: LinkId, mode: Mode, drive: Drive, v: UserId)
    requires OwnDoc(db, u, id) && OwnLink(db, u, k) && v != u
    ensures SameRows(db, Detach(rules, db, u, now, id, k, mode, drive).db, v)
  {
  }

  /** A request leaves every other user's rows as they are. */
  lemma OthersUntouched(rules: Rules, db: Db, c: Call, v: UserId)
    requires FreshIds(db, c.request) && v != c.user
    ensures SameFor(db, Answer(rules, db, c).db, v)
  {
    var r := c.request;
    if r.Unlink? {
      OthersUnlinkRequest(rules, db, c, v);
    } else if AboutLink(r) {
      OthersLinkRequest(rules, db, c, v);
    } else {
      OthersDocumentRequest(rules, db, c, v);
    }
    OthersRevisions(rules, db, c, v);
  }

  lemma OthersRevisions(rules: Rules, db: Db, c: Call, v: UserId)
    requires FreshIds(db, c.request) && v != c.user
    ensures RevisionsOf(Answer(rules, db, c).db.revisions, v) == RevisionsOf(db.revisions, v)
  {
    StepLogs(rules, db, c);
    if Overwrites(rules, db, c) {
      RevisionAppended(db.revisions, Answer(rules, db, c).db.revisions[|db.revisions|], v);
    }
  }

  lemma SameDocWrite(a: Db, b: Db, u: UserId, id: DocId, doc: Doc)
    requires SameFor(a, b, u) && doc.user == u
    requires OwnDoc(a, u, id) || (id !in a.docs && id !in b.docs)
    ensures SameFor(a.(docs := a.docs[id := doc]), b.(docs := b.docs[id := doc]), u)
  {
    var x, y := a.(docs := a.docs[id := doc]), b.(docs := b.docs[id := doc]);
    forall i ensures OwnDoc(x, u, i) <==> OwnDoc(y, u, i)
      ensures OwnDoc(x, u, i) ==> x.docs[i] == y.docs[i]
    {
      assert OwnDoc(a, u, i) <==> OwnDoc(b, u, i);
    }
    forall k ensures OwnLink(x, u, k) <==> OwnLink(y, u, k) {
      assert OwnLink(a, u, k) <==> OwnLink(b, u, k);
    }
  }

  lemma SameLinkWrite(a: Db, b: Db, u: UserId, k: LinkId, l: Link)
    requires SameFor(a, b, u) && l.user == u
    requires OwnLink(a, u, k) || (k !in a.links && k !in b.links)
    ensures SameFor(a.(links := a.links[k := l]), b.(links := b.links[k := l]), u)
  {
    var x, y := a.(links := a.links[k := l]), b.(links := b.links[k := l]);
    forall i ensures OwnLink(x, u, i) <==> OwnLink(y, u, i)
      ensures OwnLink(x, u, i) ==> x.links[i] == y.links[i]
    {
      assert OwnLink(a, u, i) <==> OwnLink(b, u, i);
    }
    forall i ensures OwnDoc(x, u, i) <==> OwnDoc(y, u, i)
      ensures OwnDoc(x, u, i) ==> x.docs[i] == y.docs[i]
    {
      assert OwnDoc(a, u, i) <==> OwnDoc(b, u, i);
    }
  }

  lemma SameRowsSameFor(a: Db, b: Db, x: Db, y: Db, u: UserId)
    requires SameFor(a, b, u) && x.docs == a.docs && y.docs == b.docs && x.links == a.links && y.links == b.links
    requires RevisionsOf(x.revisions, u) == RevisionsOf(y.revisions, u)
    ensures SameFor(x, y, u)
  {
    forall i ensures OwnDoc(x, u, i) <==> OwnDoc(y, u, i)
      ensures OwnDoc(x, u, i) ==> x.docs[i] == y.docs[i]
    {
      assert OwnDoc(a, u, i) <==> OwnDoc(b, u, i);
    }
    forall i ensures OwnLink(x, u, i) <==> OwnLink(y, u, i)
      ensures OwnLink(x, u, i) ==> x.links[i] == y.links[i]
    {
      assert OwnLink(a, u, i) <==> OwnLink(b, u, i);
    }
  }

  lemma SameOverwrite(a: Db, b: Db, u: UserId, now: Time, id: DocId, content: Json, source: Source)
    requires SameFor(a, b, u) && OwnDoc(a, u, id)
    ensures OwnDoc(b, u, id)
    ensures SameFor(Overwritten(a, u, now, id, content, source), Overwritten(b, u, now, id, content, source), u)
  {
    assert OwnDoc(b, u, id);
    var doc := a.docs[id].(content := content, contentText := Project(content), updatedAt := now);
    var r := Revision(id, u, a.docs[id].content, a.docs[id].contentText, source);
    SameDocWrite(a, b, u, id, doc);
    RevisionAppended(a.revisions, r, u);
    RevisionAppended(b.revisions, r, u);
    var x, y := Overwritten(a, u, now, id, content, source), Overwritten(b, u, now, id, content, source);
    var a', b' := a.(docs := a.docs[id := doc]), b.(docs := b.docs[id := doc]);
    assert x.docs == a'.docs && y.docs == b'.docs && x.links == a'.links && y.links == b'.links;
    SameRowsSameFor(a', b', x, y, u);
  }

  lemma SamePull(rules: Rules, a: Db, b: Db, u: UserId, now: Time, id: DocId, k: LinkId, drive: Drive)
    requires SameFor(a, b, u) && OwnDoc(a, u, id) && OwnLink(a, u, k)
    ensures OwnDoc(b, u, id) && OwnLink(b, u, k)
    ensures var x, y := PullBody(rules, a, u, now, id, k, drive), PullBody(rules, b, u, now, id, k, drive);
      x.reply == y.reply && SameFor(x.db, y.db, u) && OwnLink(x.db, u, k) && (!x.reply.Failed? ==> x.db.links[k] == y.db.links[k])
  {
    assert OwnDoc(b, u, id) && OwnLink(b, u, k);
    if drive.version.Some? && drive.exported.Converted? {
      var content := drive.exported.content;
      SameOverwrite(a, b, u, now, id, content, ByPull);
      SameLinkWrite(Overwritten(a, u, now, id, content, ByPull), Overwritten(b, u, now, id, content, ByPull), u, k,
                    a.links[k].(version := drive.version.value));
    }
  }

  lemma SameDocumentRequest(rules: Rules, a: Db, b: Db, c: Call)
    requires SameFor(a, b, c.user) && FreshIds(a, c.request) && FreshIds(b, c.request)
    requires !AboutLink(c.request)
    ensures Answer(rules, a, c).reply == Answer(rules, b, c).reply
    ensures SameFor(Answer(rules, a, c).db, Answer(rules, b, c).db, c.user)
  {
    var u, id := c.user, c.request.id;
    assert OwnDoc(a, u, id) <==> OwnDoc(b, u, id);
    if c.request.Import? {
      if c.request.upload.Docx? && OwnDoc(a, u, id) {
        SameOverwrite(a, b, u, c.now, id, c.request.upload.content, ByImport);
      }
    } else if id in Answer(rules, a, c).db.docs && (OwnDoc(a, u, id) || c.request.Create?) {
      SameDocWrite(a, b, u, id, Answer(rules, a, c).db.docs[id]);
    }
  }

  lemma SameLinkRequest(rules: Rules, a: Db, b: Db, c: Call)
    requires SameFor(a, b, c.user) && FreshIds(a, c.request) && FreshIds(b, c.request)
    requires AboutLink(c.request)
    ensures Answer(rules, a, c).reply == Answer(rules, b, c).reply
    ensures SameFor(Answer(rules, a, c).db, Answer(rules, b, c).db, c.user)
  {
    var u, id := c.user, c.request.id;
    assert OwnDoc(a, u, id) <==> OwnDoc(b, u, id);
    forall k ensures k in LiveLinks(a, u, id) <==> k in LiveLinks(b, u, id) {
      assert OwnLink(a, u, k) <==> OwnLink(b, u, k);
    }
    assert LiveLinks(a, u, id) == LiveLinks(b, u, id);
    if c.request.LinkDoc? {
      var t := c.request.target;
      if t.Uploaded? && t.file.Some? && t.version.Some? {
        SameLinkWrite(a, b, u, c.request.link, Link(id, u, t.file.value, t.version.value, Linked));
      }
    } else if c.request.LateLink? {
      SameLinkWrite(a, b, u, c.request.link, Link(id, u, c.request.file, c.request.version, Linked));
    } else if Owned(a, u, id) && LiveLinks(a, u, id) != {} {
      SameLiveRequest(rules, a, b, c, Pick(LiveLinks(a, u, id)));
    }
  }

  lemma SameLiveRequest(rules: Rules, a: Db, b: Db, c: Call, k: LinkId)
    requires SameFor(a, b, c.user) && OwnLink(a, c.user, k)
    requires var r := c.request; r.Status? || r.Pull? || r.Unlink?
    requires Owned(a, c.user, c.request.id) && LiveLinks(a, c.user, c.request.id) == LiveLinks(b, c.user, c.request.id) != {}
    requires k == Pick(LiveLinks(a, c.user, c.request.id))
    ensures Answer(rules, a, c).reply == Answer(rules, b, c).reply
    ensures SameFor(Answer(rules, a, c).db, Answer(rules, b, c).db, c.user)
  {
    var u, id := c.user, c.request.id;
    assert OwnDoc(a, u, id) && OwnDoc(b, u, id);
    assert OwnLink(b, u, k);
    SameLinkWrite(a, b, u, k, a.links[k].(state := Errored));
    if c.request.Pull? {
      SamePull(rules, a, b, u, c.now, id, k, c.request.drive);
      PullCases(rules, a, b, u, c.now, id, k, c.request.drive, (x, y) => SameFor(x, y, u));
    } else if c.request.Unlink? {
      SameUnlink(rules, a, b, u, c.now, id, k, c.request.mode, c.request.drive);
    }
  }

  lemma SameUnlink(rules: Rules, a: Db, b: Db, u: UserId, now: Time, id: DocId, k: LinkId, mode: Mode, drive: Drive)
    requires SameFor(a, b, u) && OwnLink(a, u, k) && Owned(a, u, id)
    requires k in b.links && SameFor(SetState(a, k, Errored), SetState(b, k, Errored), u)
    requires LiveLinks(a, u, id) == LiveLinks(b, u, id) != {} && k == Pick(LiveLinks(a, u, id))
    ensures var x, y := DoUnlink(rules, a, u, now, id, mode, drive), DoUnlink(rules, b, u, now, id, mode, drive);
      x.reply == y.reply && SameFor(x.db, y.db, u)
  {
    assert OwnDoc(a, u, id);
    SameDetach(rules, a, b, u, now, id, k, mode, drive);
    UnlinkCases(rules, a, b, u, now, id, k, mode, drive, (x, y) => SameFor(x, y, u));
  }

  /** Pull acts alike on two databases, in whatever sense its three outcomes are alike. */
  lemma PullCases(rules: Rules, a: Db, b: Db, u: UserId, now: Time, id: DocId, k: LinkId, drive: Drive, alike: (Db, Db) -> bool)
    requires Owned(a, u, id) && Owned(b, u, id) && k in a.links && k in b.links
    requires LiveLinks(a, u, id) == LiveLinks(b, u, id) != {} && k == Pick(LiveLinks(a, u, id))
    requires alike(a, b) && alike(SetState(a, k, Errored), SetState(b, k, Errored))
    requires var x, y := PullBody(rules, a, u, now, id, k, drive), PullBody(rules, b, u, now, id, k, drive);
      x.reply == y.reply && alike(x.db, y.db)
    ensures var x, y := DoPull(rules, a, u, now, id, drive), DoPull(rules, b, u, now, id, drive);
      x.reply == y.reply && alike(x.db, y.db)
  {
  }

  /** Unlink acts alike on two databases, in whatever sense its three outcomes are alike. */
  lemma UnlinkCases(rules: Rules, a: Db, b: Db, u: UserId, now: Time, id: DocId, k: LinkId, mode: Mode, drive: Drive,
                    alike: (Db, Db) -> bool)
    requires Owned(a, u, id) && Owned(b, u, id) && k in a.links && k in b.links
    requires LiveLinks(a, u, id) == LiveLinks(b, u, id) != {} && k == Pick(LiveLinks(a, u, id))
    requires alike(a, b) && alike(SetState(a, k, Errored), SetState(b, k, Errored))
    requires var x, y := Detach(rules, a, u, now, id, k, mode, drive), Detach(rules, b, u, now, id, k, mode, drive);
      x.reply == y.reply && alike(x.db, y.db)
    ensures var x, y := DoUnlink(rules, a, u, now, id, mode, drive), DoUnlink(rules, b, u, now, id, mode, drive);
      x.reply == y.reply && alike(x.db, y.db)
  {
  }

  lemma SameDetach(rules: Rules, a: Db, b: Db, u: UserId, now: Time, id: DocId, k: LinkId, mode: Mode, drive: Drive)
    requires SameFor(a, b, u) && OwnLink(a, u, k) && OwnDoc(a, u, id)
    ensures OwnDoc(b, u, id) && OwnLink(b, u, k)
    ensures var x, y := Detach(rules, a, u, now, id, k, mode, drive), Detach(rules, b, u, now, id, k, mode, drive);
      x.reply == y.reply && SameFor(x.db, y.db, u)
  {
    assert OwnDoc(b, u, id) && OwnLink(b, u, k);
    if mode.PullFinal? {
      SameFinalPull(rules, a, b, u, now, id, k, drive);
    } else {
      SameLinkWrite(a, b, u, k, a.links[k].(state := Unlinked));
    }
  }

  /** The final pull, and the row unlinked after it. */
  lemma SameFinalPull(rules: Rules, a: Db, b: Db, u: UserId, now: Time, id: DocId, k: LinkId, drive: Drive)
    requires SameFor(a, b, u) && OwnLink(a, u, k) && OwnDoc(a, u, id)
    ensures OwnDoc(b, u, id) && OwnLink(b, u, k)
    ensures var x, y := PullBody(rules, a, u, now, id, k, drive), PullBody(rules, b, u, now, id, k, drive);
      && x.reply == y.reply && SameFor(x.db, y.db, u)
      && (!x.reply.Failed? ==> k in x.db.links && k in y.db.links
                               && SameFor(SetState(x.db, k, Unlinked), SetState(y.db, k, Unlinked), u))
  {
    SamePull(rules, a, b, u, now, id, k, drive);
    var x, y := PullBody(rules, a, u, now, id, k, drive), PullBody(rules, b, u, now, id, k, drive);
    if !x.reply.Failed? {
      SameLinkWrite(x.db, y.db, u, k, x.db.links[k].(state := Unlinked));
    }
  }

  /** Replies and effects depend on the caller's own rows only: a foreign document looks like a missing one. */
  lemma NoInterference(rules: Rules, a: Db, b: Db, c: Call)
    requires SameFor(a, b, c.user) && FreshIds(a, c.request) && FreshIds(b, c.request)
    ensures Answer(rules, a, c).reply == Answer(rules, b, c).reply
    ensures SameFor(Answer(rules, a, c).db, Answer(rules, b, c).db, c.user)
  {
    var r := c.request;
    if AboutLink(r) {
      SameLinkRequest(rules, a, b, c);
    } else {
      SameDocumentRequest(rules, a, b, c);
    }
  }
}
