/** The routes as the api runs them: table fields updated in place, with the early returns of the handlers. */
module DocumentRoutes {
  import opened Common
  import opened ContentText
  import opened DocumentApi
  import opened DocumentRuns

  class Routes {
    const rules: Rules
    var docs: map<DocId, Doc>
    var revisions: seq<Revision>
    var links: map<LinkId, Link>
    var calls: seq<DriveCall>  // what was asked of Drive so far

    ghost function View(): (db: Db)
      reads this
    {
      Db(docs, revisions, links)
    }

    constructor (rules: Rules)
      ensures this.rules == rules && View() == Db(map[], [], map[]) && Inv(View())
    {
      this.rules := rules;
      docs, revisions, links, calls := map[], [], map[], [];
    }

    /** `_require_owned_document`; false is the uniform 404. */
    method RequireOwned(u: UserId, id: DocId) returns (owned: bool)
      ensures owned <==> Owned(View(), u, id)
    {
      owned := id in docs && docs[id].user == u && docs[id].deletedAt.None?;
    }

    method CreateDocument(u: UserId, now: Time, id: DocId, title: string, content: Json,
                          scopeBooks: seq<int>, scopeCollections: seq<int>) returns (reply: Reply)
      requires Inv(View()) && id !in docs
      modifies this`docs
      ensures Result(View(), reply) == DoCreate(rules, old(View()), u, now, id, title, content, scopeBooks, scopeCollections)
      ensures Inv(View())
    {
      DocumentStepKeepsInv(rules, View(), Call(u, now, Create(id, title, content, scopeBooks, scopeCollections)));
      if !rules.fits(content) {
        return Failed(413);
      }
      var text := DeriveContentText(content);
      var books := Clamp(rules.ownBooks(u, now), scopeBooks);
      var collections := Clamp(rules.ownCollections(u, now), scopeCollections);
      var doc := Doc(u, title, content, text, books, collections, now, None);
      docs := docs[id := doc];
      reply := DocReply(doc);
    }

    method UpdateDocument(u: UserId, now: Time, id: DocId, base: Time, title: Option<string>, content: Option<Json>,
                          scopeBooks: Option<seq<int>>, scopeCollections: Option<seq<int>>) returns (reply: Reply)
      requires Inv(View())
      modifies this`docs
      ensures Result(View(), reply) == DoPatch(rules, old(View()), u, now, id, base, title, content, scopeBooks, scopeCollections)
      ensures Inv(View())
    {
      DocumentStepKeepsInv(rules, View(), Call(u, now, Patch(id, base, title, content, scopeBooks, scopeCollections)));
      if title.None? && content.None? && scopeBooks.None? && scopeCollections.None? {
        return Failed(422);
      }
      if content.Some? && !rules.fits(content.value) {
        return Failed(413);
      }
      var owned := RequireOwned(u, id);
      if !owned {
        return Failed(404);
      }
      if docs[id].updatedAt != base {
        return Failed(409);
      }
      var row := docs[id];
      if title.Some? {
        row := row.(title := title.value);
      }
      if content.Some? {
        var text := DeriveContentText(content.value);
        row := row.(content := content.value, contentText := text);
      }
      if scopeBooks.Some? {
        row := row.(scopeBooks := Clamp(rules.ownBooks(u, now), scopeBooks.value));
      }
      if scopeCollections.Some? {
        row := row.(scopeCollections := Clamp(rules.ownCollections(u, now), scopeCollections.value));
      }
      row := row.(updatedAt := now);
      docs := docs[id := row];
      reply := DocReply(row);
    }

    method DeleteDocument(u: UserId, now: Time, id: DocId) returns (reply: Reply)
      requires Inv(View())
      modifies this`docs
      ensures Result(View(), reply) == DoDelete(old(View()), u, now, id)
      ensures Inv(View())
    {
      DocumentStepKeepsInv(rules, View(), Call(u, now, Delete(id)));
      var owned := RequireOwned(u, id);
      if !owned {
        return Failed(404);
      }
      docs := docs[id := docs[id].(deletedAt := Some(now))];
      reply := NoContent;
    }

    method RestoreDocument(u: UserId, id: DocId) returns (reply: Reply)
      requires Inv(View())
      modifies this`docs
      ensures Result(View(), reply) == DoRestore(old(View()), u, id)
      ensures Inv(View())
    {
      DocumentStepKeepsInv(rules, View(), Call(u, 0, Restore(id)));
      if id !in docs || docs[id].user != u {
        return Failed(404);
      }
      if docs[id].deletedAt.Some? {
        docs := docs[id := docs[id].(deletedAt := None)];
      }
      assert View().docs == DoRestore(old(View()), u, id).db.docs;
      reply := DocReply(docs[id]);
    }

    /** Snapshot-first overwrite: the revision insert precedes the update. */
    method Overwrite(u: UserId, now: Time, id: DocId, content: Json, source: Source)
      requires id in docs
      modifies this`docs, this`revisions
      ensures View() == Overwritten(old(View()), u, now, id, content, source)
    {
      var text := DeriveContentText(content);
      var prior := docs[id];
      revisions := revisions + [Revision(id, u, prior.content, prior.contentText, source)];
      docs := docs[id := prior.(content := content, contentText := text, updatedAt := now)];
    }

    method ImportDocumentDocx(u: UserId, now: Time, id: DocId, upload: UploadedFile) returns (reply: Reply)
      requires Inv(View())
      modifies this`docs, this`revisions
      ensures Result(View(), reply) == DoImport(rules, old(View()), u, now, id, upload)
      ensures Inv(View())
    {
      DocumentStepKeepsInv(rules, View(), Call(u, now, Import(id, upload)));
      if upload.TooBig? {
        return Failed(413);
      }
      if upload.NotDocx? {
        return Failed(415);
      }
      var owned := RequireOwned(u, id);
      if !owned {
        return Failed(404);
      }
      if upload.Unconvertible? {
        return Failed(502);
      }
      if !rules.fits(upload.content) {
        return Failed(413);
      }
      Overwrite(u, now, id, upload.content, ByImport);
      reply := DocReply(docs[id]);
    }

    /** The one live link row of the document, if any. */
    method LinkedRow(u: UserId, id: DocId) returns (found: Option<LinkId>)
      requires Inv(View())
      ensures found.None? <==> LiveLinks(View(), u, id) == {}
      ensures found.Some? ==> found.value == Pick(LiveLinks(View(), u, id)) && found.value in links
                              && IsLive(links[found.value], u, id)
    {
      var live := LiveRows(links, u, id);
      if live == {} {
        found := None;
      } else {
        var k := AnyOf(live);
        ghost var picked := Pick(LiveLinks(View(), u, id));
        assert picked in LiveRows(links, u, id) && k in LiveRows(links, u, id);
        assert IsLive(links[picked], u, id) && BothLive(links[k], links[picked]);
        found := Some(k);
      }
    }

    method SetLinkState(k: LinkId, state: LinkState)
      requires k in links
      modifies this`links
      ensures View() == SetState(old(View()), k, state)
    {
      links := links[k := links[k].(state := state)];
    }

    /** The export to docx is a parameter; the three Drive calls end the request where one of them fails. */
    method LinkDocument(u: UserId, id: DocId, k: LinkId, drive: Drive, target: Target) returns (reply: Reply)
      requires Inv(View()) && k !in links
      modifies this`links, this`calls
      ensures Result(View(), reply) == DoLink(old(View()), u, id, k, drive, target)
      ensures calls == old(calls) + if AsksDrive(old(View()), u, id, drive, false) then LinkCalls(target) else []
      ensures Inv(View())
    {
      LinkStepKeepsInv(rules, View(), Call(u, 0, LinkDoc(id, k, drive, target)));
      var owned := RequireOwned(u, id);
      if !owned {
        return Failed(404);
      }
      var already := LinkedRow(u, id);
      if already.Some? || !drive.connected {
        return Failed(409);
      }
      if target.NotExportable? {
        return Failed(502);
      }
      if !drive.token.Usable? {
        return Failed(500);
      }
      var version := UploadNew(target);
      if version.None? {
        return Failed(500);
      }
      reply := InsertLink(u, id, k, target.file.value, version.value);
    }

    method UploadNew(target: Target) returns (version: Option<Version>)
      requires target.Uploaded?
      modifies this`calls
      ensures calls == old(calls) + LinkCalls(target)
      ensures version == if target.file.Some? && target.hasUrl then target.version else None
    {
      calls := calls + [DriveCall.Upload];
      if target.file.None? {
        return None;
      }
      calls := calls + [GetWebViewLink];
      if !target.hasUrl {
        return None;
      }
      calls := calls + [GetVersion];
      version := target.version;
    }

    /** The insert; the partial unique index answers for a row that another request put in first. */
    method InsertLink(u: UserId, id: DocId, k: LinkId, file: FileId, version: Version) returns (reply: Reply)
      requires Inv(View()) && k !in links
      modifies this`links
      ensures Result(View(), reply) == DoLateLink(old(View()), u, id, k, file, version)
      ensures Inv(View())
    {
      LinkStepKeepsInv(rules, View(), Call(u, 0, LateLink(id, k, file, version)));
      if id !in docs || docs[id].user != u {
        return Failed(404);
      }
      var live := LinkedRow(u, id);
      if live.Some? {
        return Failed(409);
      }
      links := links[k := Link(id, u, file, version, Linked)];
      reply := LinkReply(Linked, version);
    }

    method LinkStatus(u: UserId, id: DocId, drive: Drive) returns (reply: Reply)
      requires Inv(View())
      modifies this`links, this`calls
      ensures Result(View(), reply) == DoStatus(old(View()), u, id, drive)
      ensures calls == old(calls) + if AsksDrive(old(View()), u, id, drive, true) then [GetVersion] else []
      ensures Inv(View())
    {
      LinkStepKeepsInv(rules, View(), Call(u, 0, Status(id, drive)));
      var owned := RequireOwned(u, id);
      if !owned {
        return Failed(404);
      }
      var link := LinkedRow(u, id);
      if link.None? {
        return Failed(404);
      }
      if !drive.connected {
        return Failed(409);
      }
      if drive.token.AuthLost? {
        SetLinkState(link.value, Errored);
        return StatusReply(Errored, false);
      }
      if drive.token.TokenFailed? {
        return Failed(502);
      }
      calls := calls + [GetVersion];
      if drive.version.None? {
        return Failed(502);
      }
      reply := StatusReply(Linked, drive.version.value != links[link.value].version);
    }

    /** Version before export; content, revision and cursor land together or not at all. */
    method RunPullOverwrite(u: UserId, now: Time, id: DocId, k: LinkId, drive: Drive) returns (reply: Reply)
      requires Inv(View()) && Owned(View(), u, id) && k in links
      modifies this
      ensures Result(View(), reply) == PullBody(rules, old(View()), u, now, id, k, drive)
      ensures calls == old(calls) + PullCalls(drive)
      ensures Inv(View())
    {
      PullKeepsInv(rules, View(), u, now, id, k, drive);
      calls := calls + [GetVersion];
      if drive.version.None? {
        return Failed(502);
      }
      calls := calls + [Export];
      if !drive.exported.Converted? {
        return Failed(502);
      }
      if !rules.fits(drive.exported.content) {
        return Failed(413);
      }
      Overwrite(u, now, id, drive.exported.content, ByPull);
      links := links[k := links[k].(version := drive.version.value)];
      reply := DocReply(docs[id]);
    }

    /** The common start of pull and unlink: the live row and a token, or the refusal. */
    method UsableLink(u: UserId, id: DocId, drive: Drive) returns (k: Option<LinkId>, reply: Reply)
      requires Inv(View())
      modifies this`links
      ensures k.Some? <==> AsksDrive(old(View()), u, id, drive, true)
      ensures k.Some? ==> View() == old(View()) && k.value in links && id in docs && k.value == Pick(LiveLinks(View(), u, id))
      ensures k.None? ==> Result(View(), reply) == Refused(old(View()), u, id, drive)
      ensures Inv(View())
    {
      var owned := RequireOwned(u, id);
      if !owned {
        return None, Failed(404);
      }
      var link := LinkedRow(u, id);
      if link.None? {
        return None, Failed(404);
      }
      if !drive.connected {
        return None, Failed(409);
      }
      if drive.token.AuthLost? {
        StateKeepsInv(View(), link.value, Errored);
        SetLinkState(link.value, Errored);
        return None, Failed(502);
      }
      if drive.token.TokenFailed? {
        return None, Failed(502);
      }
      return link, NoContent;
    }

    method PullDocument(u: UserId, now: Time, id: DocId, drive: Drive) returns (reply: Reply)
      requires Inv(View())
      modifies this
      ensures Result(View(), reply) == DoPull(rules, old(View()), u, now, id, drive)
      ensures calls == old(calls) + if AsksDrive(old(View()), u, id, drive, true) then PullCalls(drive) else []
      ensures Inv(View())
    {
      var k;
      k, reply := UsableLink(u, id, drive);
      if k.None? {
        return;
      }
      reply := RunPullOverwrite(u, now, id, k.value, drive);
    }

    method UnlinkDocument(u: UserId, now: Time, id: DocId, mode: Mode, drive: Drive) returns (reply: Reply)
      requires Inv(View())
      modifies this
      ensures Result(View(), reply) == DoUnlink(rules, old(View()), u, now, id, mode, drive)
      ensures calls == old(calls) + if AsksDrive(old(View()), u, id, drive, true) then UnlinkCalls(rules, mode, drive) else []
      ensures Inv(View())
    {
      var k;
      k, reply := UsableLink(u, id, drive);
      if k.None? {
        return;
      }
      reply := DetachRow(u, now, id, k.value, mode, drive);
    }

    /** The final pull where asked, then the row's end. */
    method DetachRow(u: UserId, now: Time, id: DocId, k: LinkId, mode: Mode, drive: Drive) returns (reply: Reply)
      requires Inv(View()) && Owned(View(), u, id) && k in LiveLinks(View(), u, id)
      modifies this
      ensures Result(View(), reply) == Detach(rules, old(View()), u, now, id, k, mode, drive)
      ensures calls == old(calls) + UnlinkCalls(rules, mode, drive)
      ensures Inv(View())
    {
      DetachKeepsInv(rules, View(), u, now, id, k, mode, drive);
      var version := links[k].version;
      if mode.PullFinal? {
        reply := RunPullOverwrite(u, now, id, k, drive);
        if reply.Failed? {
          return;
        }
        calls := calls + [GetVersion];
        if drive.versionAfter.None? {
          return Failed(500);
        }
        version := drive.versionAfter.value;
      }
      SetLinkState(k, Unlinked);
      calls := calls + [DeleteFile];
      reply := LinkReply(Unlinked, version);
    }

    /** Any request, by its route. */
    method Serve(c: Call) returns (reply: Reply)
      requires Inv(View()) && FreshIds(View(), c.request)
      modifies this
      ensures Result(View(), reply) == Answer(rules, old(View()), c) && Inv(View())
    {
      match c.request
      case Create(id, title, content, books, collections) =>
        reply := CreateDocument(c.user, c.now, id, title, content, books, collections);
      case Patch(id, base, title, content, books, collections) =>
        reply := UpdateDocument(c.user, c.now, id, base, title, content, books, collections);
      case Delete(id) => reply := DeleteDocument(c.user, c.now, id);
      case Restore(id) => reply := RestoreDocument(c.user, id);
      case Import(id, upload) => reply := ImportDocumentDocx(c.user, c.now, id, upload);
      case LinkDoc(id, k, drive, target) => reply := LinkDocument(c.user, id, k, drive, target);
      case LateLink(id, k, file, version) => reply := InsertLink(c.user, id, k, file, version);
      case Status(id, drive) => reply := LinkStatus(c.user, id, drive);
      case Pull(id, drive) => reply := PullDocument(c.user, c.now, id, drive);
      case Unlink(id, mode, drive) => reply := UnlinkDocument(c.user, c.now, id, mode, drive);
    }
  }

  /**
   A server from its empty tables on: the requests it has served, up to the first whose minted id is
   taken, are a run, so every theorem about runs is one about its tables.
  */
  method ServeAll(rules: Rules, cs: seq<Call>) returns (server: Routes, served: nat, ghost dbs: seq<Db>)
    ensures served <= |cs| && Run(rules, dbs, cs[..served]) && server.View() == dbs[served]
    ensures Inv(server.View()) && |server.revisions| == CountOverwrites(rules, dbs, cs[..served], served)
    ensures served < |cs| ==> !FreshIds(dbs[served], cs[served].request)
  {
    server := new Routes(rules);
    served, dbs := 0, [server.View()];
    while served < |cs|
      invariant served <= |cs| && fresh(server) && server.rules == rules
      invariant Run(rules, dbs, cs[..served]) && server.View() == dbs[served] && Inv(server.View())
    {
      var c := cs[served];
      if (c.request.Create? && c.request.id in server.docs)
         || ((c.request.LinkDoc? || c.request.LateLink?) && c.request.link in server.links) {
        break;
      }
      var reply := server.Serve(c);
      RunGrows(rules, dbs, cs[..served], c, server.View());
      assert cs[..served + 1] == cs[..served] + [c];
      dbs := dbs + [server.View()];
      served := served + 1;
    }
    RevisionsCountOverwrites(rules, dbs, cs[..served], served);
  }

  lemma RunGrows(rules: Rules, dbs: seq<Db>, cs: seq<Call>, c: Call, after: Db)
    requires Run(rules, dbs, cs) && FreshIds(dbs[|cs|], c.request) && after == Answer(rules, dbs[|cs|], c).db
    ensures Run(rules, dbs + [after], cs + [c])
  {
    var more, calls := dbs + [after], cs + [c];
    forall i | 0 <= i < |calls|
      ensures StepAt(rules, more, calls, i)
    {
      if i < |cs| {
        assert StepAt(rules, dbs, cs, i);
      }
    }
  }
}
