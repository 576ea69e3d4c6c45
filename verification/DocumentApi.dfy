/**
 The documents resource and its editor links (api/documents.py, api/editor_links.py), one request at
 a time: what each route reads, writes and answers.
*/
module DocumentApi {
  import opened Common
  import opened ContentText

  type UserId = int
  type DocId = int
  type LinkId = int
  type FileId = int
  type Time = int
  type Version = string

  datatype Doc = Doc(user: UserId, title: string, content: Json, contentText: string,
                     scopeBooks: seq<int>, scopeCollections: seq<int>,
                     updatedAt: Time, deletedAt: Option<Time>)

  datatype Source = ByImport | ByPull

  datatype Revision = Revision(doc: DocId, user: UserId, content: Json, contentText: string, source: Source)

  datatype LinkState = Linked | Errored | Unlinked

  datatype Link = Link(doc: DocId, user: UserId, file: FileId, version: Version, state: LinkState)

  datatype Db = Db(docs: map<DocId, Doc>, revisions: seq<Revision>, links: map<LinkId, Link>)

  datatype Mode = PullFinal | KeepApp

  /** How fetching an access token ends; `AuthLost` is Google's invalid_grant. */
  datatype Token = Usable | AuthLost | TokenFailed

  /** The Doc's markdown after export and conversion. */
  datatype Export = DriveFailed | ConversionFailed | Converted(content: Json)

  /** What Drive answers during one request; `None` is a DriveError. */
  datatype Drive = Drive(connected: bool, token: Token, version: Option<Version>, exported: Export, versionAfter: Option<Version>)

  /** What an uploaded import file turns out to be. */
  datatype UploadedFile = TooBig | NotDocx | Unconvertible | Docx(content: Json)

  /** Exporting and uploading the document for a new link; `None` or false is a DriveError, which link does not catch. */
  datatype Target = NotExportable | Uploaded(file: Option<FileId>, hasUrl: bool, version: Option<Version>)

  /** What is asked of Drive, in order. */
  datatype DriveCall = Upload | GetWebViewLink | GetVersion | Export | DeleteFile

  /** A link uploads first and reads the version last; a call that fails ends the request. */
  function LinkCalls(target: Target): seq<DriveCall> {
    if target.NotExportable? then []
    else if target.file.None? then [Upload]
    else if !target.hasUrl then [Upload, GetWebViewLink]
    else [Upload, GetWebViewLink, GetVersion]
  }

  /** A pull reads the version before it exports. */
  function PullCalls(drive: Drive): seq<DriveCall> {
    if drive.version.None? then [GetVersion] else [GetVersion, Export]
  }

  datatype Request =
    | Create(id: DocId, title: string, content: Json, scopeBooks: seq<int>, scopeCollections: seq<int>)
    | Patch(id: DocId, base: Time, title': Option<string>, content': Option<Json>,
            scopeBooks': Option<seq<int>>, scopeCollections': Option<seq<int>>)
    | Delete(id: DocId)
    | Restore(id: DocId)
    | Import(id: DocId, upload: UploadedFile)
    | LinkDoc(id: DocId, link: LinkId, drive: Drive, target: Target)
    | LateLink(id: DocId, link: LinkId, file: FileId, version: Version)
    | Status(id: DocId, drive: Drive)
    | Pull(id: DocId, drive: Drive)
    | Unlink(id: DocId, mode: Mode, drive: Drive)

  datatype Reply =
    | DocReply(doc: Doc)
    | NoContent
    | LinkReply(state: LinkState, version: Version)
    | StatusReply(state: LinkState, remoteChanged: bool)
    | Failed(code: nat)

  /** Database and reply after a request. */
  datatype Result = Result(db: Db, reply: Reply)

  /** The content cap (MAX_CONTENT_BYTES), and what a user owns when a request is handled. */
  datatype Rules = Rules(fits: Json -> bool, ownBooks: (UserId, Time) -> set<int>, ownCollections: (UserId, Time) -> set<int>)

  // ----- lookups -----------------------------------------------------------------

  /** The owned, active document gate: anything else is the same 404. */
  predicate Owned(db: Db, u: UserId, id: DocId) {
    id in db.docs && db.docs[id].user == u && db.docs[id].deletedAt.None?
  }

  predicate IsLive(l: Link, u: UserId, id: DocId) {
    l.doc == id && l.user == u && l.state.Linked?
  }

  /** The live link rows of an owned document. */
  function LiveLinks(db: Db, u: UserId, id: DocId): set<LinkId> {
    LiveRows(db.links, u, id)
  }

  function LiveRows(links: map<LinkId, Link>, u: UserId, id: DocId): set<LinkId> {
    set k | k in links && IsLive(links[k], u, id)
  }

  ghost function Pick<T>(live: set<T>): (k: T)
    requires live != {}
    ensures k in live
  {
    var x :| x in live; x
  }

  // ----- documents ------------------------------------------------------------------

  function Kept(owned: set<int>, ids: seq<int>): seq<int> {
    if ids == [] then []
    else Kept(owned, ids[..|ids| - 1]) + if ids[|ids| - 1] in owned then [ids[|ids| - 1]] else []
  }

  /** A requested scope list in its order, without repetitions and without foreign ids. */
  function Clamp(owned: set<int>, ids: seq<int>): seq<int> {
    Kept(owned, Firsts(ids))
  }

  function ClampChoice(owned: set<int>, ids: Option<seq<int>>): Option<seq<int>> {
    if ids.None? then None else Some(Clamp(owned, ids.value))
  }

  function DoCreate(rules: Rules, db: Db, u: UserId, now: Time, id: DocId, title: string, content: Json,
                    scopeBooks: seq<int>, scopeCollections: seq<int>): Result
  {
    if !rules.fits(content) then Result(db, Failed(413))
    else
      var doc := Doc(u, title, content, Project(content), Clamp(rules.ownBooks(u, now), scopeBooks),
                     Clamp(rules.ownCollections(u, now), scopeCollections), now, None);
      Result(db.(docs := db.docs[id := doc]), DocReply(doc))
  }

  function Or<T>(choice: Option<T>, current: T): T {
    if choice.Some? then choice.value else current
  }

  function DoPatch(rules: Rules, db: Db, u: UserId, now: Time, id: DocId, base: Time, title: Option<string>, content: Option<Json>,
                   scopeBooks: Option<seq<int>>, scopeCollections: Option<seq<int>>): Result
  {
    if title.None? && content.None? && scopeBooks.None? && scopeCollections.None? then Result(db, Failed(422))
    else if content.Some? && !rules.fits(content.value) then Result(db, Failed(413))
    else if !Owned(db, u, id) then Result(db, Failed(404))
    else if db.docs[id].updatedAt != base then Result(db, Failed(409))
    else
      var prior := db.docs[id];
      var doc := prior.(title := Or(title, prior.title), content := Or(content, prior.content),
                      contentText := if content.Some? then Project(content.value) else prior.contentText,
                      scopeBooks := Or(ClampChoice(rules.ownBooks(u, now), scopeBooks), prior.scopeBooks),
                      scopeCollections := Or(ClampChoice(rules.ownCollections(u, now), scopeCollections), prior.scopeCollections),
                      updatedAt := now);
      Result(db.(docs := db.docs[id := doc]), DocReply(doc))
  }

  function DoDelete(db: Db, u: UserId, now: Time, id: DocId): Result {
    if !Owned(db, u, id) then Result(db, Failed(404))
    else Result(db.(docs := db.docs[id := db.docs[id].(deletedAt := Some(now))]), NoContent)
  }

  function DoRestore(db: Db, u: UserId, id: DocId): Result {
    if id !in db.docs || db.docs[id].user != u then Result(db, Failed(404))
    else
      var doc := db.docs[id].(deletedAt := None);
      Result(db.(docs := db.docs[id := doc]), DocReply(doc))
  }

  /** Snapshot first, then overwrite, in one transaction. */
  function Overwritten(db: Db, u: UserId, now: Time, id: DocId, content: Json, source: Source): Db
    requires id in db.docs
  {
    var prior := db.docs[id];
    Db(db.docs[id := prior.(content := content, contentText := Project(content), updatedAt := now)],
       db.revisions + [Revision(id, u, prior.content, prior.contentText, source)],
       db.links)
  }

  function DoImport(rules: Rules, db: Db, u: UserId, now: Time, id: DocId, upload: UploadedFile): Result {
    if upload.TooBig? then Result(db, Failed(413))
    else if upload.NotDocx? then Result(db, Failed(415))
    else if !Owned(db, u, id) then Result(db, Failed(404))
    else if upload.Unconvertible? then Result(db, Failed(502))
    else if !rules.fits(upload.content) then Result(db, Failed(413))
    else
      var after := Overwritten(db, u, now, id, upload.content, ByImport);
      Result(after, DocReply(after.docs[id]))
  }

  // ----- editor links ----------------------------------------------------------------

  function SetState(db: Db, k: LinkId, state: LinkState): Db
    requires k in db.links
  {
    db.(links := db.links[k := db.links[k].(state := state)])
  }

  ghost function DoLink(db: Db, u: UserId, id: DocId, k: LinkId, drive: Drive, target: Target): Result {
    if !Owned(db, u, id) then Result(db, Failed(404))
    else if LiveLinks(db, u, id) != {} then Result(db, Failed(409))
    else if !drive.connected then Result(db, Failed(409))
    else if target.NotExportable? then Result(db, Failed(502))
    else if !drive.token.Usable? || target.file.None? || !target.hasUrl || target.version.None? then Result(db, Failed(500))
    else DoLateLink(db, u, id, k, target.file.value, target.version.value)
  }

  /**
   The insert at the end of a link request, also when other requests came between its checks and it:
   the partial unique index refuses a second live row.  (A document's rows and links are its owner's for good.)
  */
  function DoLateLink(db: Db, u: UserId, id: DocId, k: LinkId, file: FileId, version: Version): Result {
    if id !in db.docs || db.docs[id].user != u then Result(db, Failed(404))
    else if LiveLinks(db, u, id) != {} then Result(db, Failed(409))
    else Result(db.(links := db.links[k := Link(id, u, file, version, Linked)]), LinkReply(Linked, version))
  }

  ghost function DoStatus(db: Db, u: UserId, id: DocId, drive: Drive): Result {
    var live := LiveLinks(db, u, id);
    if !Owned(db, u, id) || live == {} then Result(db, Failed(404))
    else if !drive.connected then Result(db, Failed(409))
    else
      var k := Pick(live);
      if drive.token.AuthLost? then Result(SetState(db, k, Errored), StatusReply(Errored, false))
      else if drive.token.TokenFailed? || drive.version.None? then Result(db, Failed(502))
      else Result(db, StatusReply(Linked, drive.version.value != db.links[k].version))
  }

  /** `_run_pull_overwrite`: version first, then export; nothing is written unless all of it succeeds. */
  function PullBody(rules: Rules, db: Db, u: UserId, now: Time, id: DocId, k: LinkId, drive: Drive): Result
    requires id in db.docs && k in db.links
  {
    if drive.version.None? || drive.exported.DriveFailed? || drive.exported.ConversionFailed? then Result(db, Failed(502))
    else if !rules.fits(drive.exported.content) then Result(db, Failed(413))
    else
      var after := Overwritten(db, u, now, id, drive.exported.content, ByPull);
      Result(after.(links := after.links[k := after.links[k].(version := drive.version.value)]),
             DocReply(after.docs[id]))
  }

  ghost function DoPull(rules: Rules, db: Db, u: UserId, now: Time, id: DocId, drive: Drive): Result {
    if !AsksDrive(db, u, id, drive, true) then Refused(db, u, id, drive)
    else PullBody(rules, db, u, now, id, Pick(LiveLinks(db, u, id)), drive)
  }

  ghost function DoUnlink(rules: Rules, db: Db, u: UserId, now: Time, id: DocId, mode: Mode, drive: Drive): Result {
    if !AsksDrive(db, u, id, drive, true) then Refused(db, u, id, drive)
    else Detach(rules, db, u, now, id, Pick(LiveLinks(db, u, id)), mode, drive)
  }

  /** The end of unlink, after a final pull where asked. */
  ghost function Detach(rules: Rules, db: Db, u: UserId, now: Time, id: DocId, k: LinkId, mode: Mode, drive: Drive): Result
    requires id in db.docs && k in db.links
  {
    if mode.KeepApp? then Result(SetState(db, k, Unlinked), LinkReply(Unlinked, db.links[k].version))
    else
      var pulled := PullBody(rules, db, u, now, id, k, drive);
      if pulled.reply.Failed? then pulled
      else if drive.versionAfter.None? then Result(pulled.db, Failed(500))  // the pull stays committed, the link live
      else Result(SetState(pulled.db, k, Unlinked), LinkReply(Unlinked, drive.versionAfter.value))
  }

  /** Whether a link request gets as far as Drive: `linked` says that it needs a live link, or needs none. */
  predicate AsksDrive(db: Db, u: UserId, id: DocId, drive: Drive, linked: bool) {
    Owned(db, u, id) && (LiveLinks(db, u, id) != {} <==> linked) && drive.connected && drive.token.Usable?
  }

  /** How pull and unlink refuse a request that does not get that far. */
  ghost function Refused(db: Db, u: UserId, id: DocId, drive: Drive): Result {
    if !Owned(db, u, id) || LiveLinks(db, u, id) == {} then Result(db, Failed(404))
    else if !drive.connected then Result(db, Failed(409))
    else if drive.token.AuthLost? then Result(SetState(db, Pick(LiveLinks(db, u, id)), Errored), Failed(502))
    else Result(db, Failed(502))
  }

  /** An unlink that ends its row deletes the file last; before that it may pull and read the version again. */
  function UnlinkCalls(rules: Rules, mode: Mode, drive: Drive): seq<DriveCall> {
    if mode.KeepApp? then [DeleteFile]
    else if drive.version.None? || !drive.exported.Converted? || !rules.fits(drive.exported.content) then PullCalls(drive)
    else if drive.versionAfter.None? then PullCalls(drive) + [GetVersion]
    else PullCalls(drive) + [GetVersion, DeleteFile]
  }

  // ----- one request -------------------------------------------------------------------

  ghost function Handle(rules: Rules, db: Db, u: UserId, now: Time, r: Request): Result {
    match r
    case Create(id, title, content, sb, sc) => DoCreate(rules, db, u, now, id, title, content, sb, sc)
    case Patch(id, base, title, content, sb, sc) => DoPatch(rules, db, u, now, id, base, title, content, sb, sc)
    case Delete(id) => DoDelete(db, u, now, id)
    case Restore(id) => DoRestore(db, u, id)
    case Import(id, upload) => DoImport(rules, db, u, now, id, upload)
    case LinkDoc(id, k, drive, target) => DoLink(db, u, id, k, drive, target)
    case LateLink(id, k, file, version) => DoLateLink(db, u, id, k, file, version)
    case Status(id, drive) => DoStatus(db, u, id, drive)
    case Pull(id, drive) => DoPull(rules, db, u, now, id, drive)
    case Unlink(id, mode, drive) => DoUnlink(rules, db, u, now, id, mode, drive)
  }

  /** Requests about a document's link. */
  predicate AboutLink(r: Request) {
    r.LinkDoc? || r.LateLink? || r.Status? || r.Pull? || r.Unlink?
  }

  /** Server-minted identifiers are new. */
  predicate FreshIds(db: Db, r: Request) {
    (r.Create? ==> r.id !in db.docs) && (r.LinkDoc? || r.LateLink? ==> r.link !in db.links)
  }
}
