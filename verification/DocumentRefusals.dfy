/** What a refused request leaves behind, and whose ids a stored scope holds. */
module DocumentRefusals {
  import opened Common
  import opened ContentText
  import opened DocumentApi
  import opened DocumentRuns

  // ----- refusals --------------------------------------------------------------------------

  /** A pull or unlink that reaches Google: its document is the caller's, linked, and the connection stands. */
  predicate Reaches(db: Db, c: Call) {
    && (c.request.Pull? || c.request.Unlink?)
    && Owned(db, c.user, c.request.id) && LiveLinks(db, c.user, c.request.id) != {} && c.request.drive.connected
  }

  /** Drive answers both calls of the pull, the markdown converts and fits, and then the last version read fails. */
  predicate PullStands(rules: Rules, db: Db, c: Call) {
    && Reaches(db, c) && c.request.Unlink? && c.request.mode.PullFinal?
    && var drive := c.request.drive;
       && drive.token.Usable? && drive.version.Some? && drive.exported.Converted? && rules.fits(drive.exported.content)
       && drive.versionAfter.None?
  }

  predicate LosesAuthorisation(db: Db, c: Call) {
    Reaches(db, c) && c.request.drive.token.AuthLost?
  }

  /** A request other than pull and unlink that is refused changes nothing at all. */
  lemma OtherRefusals(rules: Rules, db: Db, c: Call)
    requires Answer(rules, db, c).reply.Failed? && !c.request.Pull? && !c.request.Unlink?
    ensures Answer(rules, db, c).db == db
  {
  }

  lemma PullRefusals(rules: Rules, db: Db, c: Call)
    requires Answer(rules, db, c).reply.Failed? && c.request.Pull?
    ensures var after := Answer(rules, db, c).db;
            after == if LosesAuthorisation(db, c) then SetState(db, Pick(LiveLinks(db, c.user, c.request.id)), Errored) else db
  {
  }

  lemma UnlinkRefusals(rules: Rules, db: Db, c: Call)
    requires Answer(rules, db, c).reply.Failed? && c.request.Unlink? && !PullStands(rules, db, c)
    ensures var after := Answer(rules, db, c).db;
            after == if LosesAuthorisation(db, c) then SetState(db, Pick(LiveLinks(db, c.user, c.request.id)), Errored) else db
  {
  }

  lemma StandingPull(rules: Rules, db: Db, c: Call)
    requires PullStands(rules, db, c)
    ensures var k, r := Pick(LiveLinks(db, c.user, c.request.id)), Answer(rules, db, c);
            && r.reply == Failed(500) && |r.db.revisions| == |db.revisions| + 1
            && r.db.links == db.links[k := db.links[k].(version := c.request.drive.version.value)] && r.db.links[k].state.Linked?
  {
  }

  /**
   A refused request leaves every document and the log as they were if and only if it is not a
   pull-final unlink whose pull went through and whose last version read failed.
  */
  lemma RefusalKeepsDataIff(rules: Rules, db: Db, c: Call)
    requires Answer(rules, db, c).reply.Failed?
    ensures var after := Answer(rules, db, c).db;
            after.docs == db.docs && after.revisions == db.revisions <==> !PullStands(rules, db, c)
  {
    if PullStands(rules, db, c) {
      StandingPull(rules, db, c);
    } else if c.request.Pull? {
      PullRefusals(rules, db, c);
    } else if c.request.Unlink? {
      UnlinkRefusals(rules, db, c);
    } else {
      OtherRefusals(rules, db, c);
    }
  }

  /**
   All a refusal does to link rows: lost authorisation ends the live one as an error; a standing pull
   moves its cursor and leaves it linked.
  */
  lemma RefusalAndLinks(rules: Rules, db: Db, c: Call)
    requires Answer(rules, db, c).reply.Failed?
    ensures var after, k := Answer(rules, db, c).db, if Reaches(db, c) then Pick(LiveLinks(db, c.user, c.request.id)) else 0;
            after.links == if LosesAuthorisation(db, c) then db.links[k := db.links[k].(state := Errored)]
                           else if PullStands(rules, db, c) then db.links[k := db.links[k].(version := c.request.drive.version.value)]
                           else db.links
  {
    if PullStands(rules, db, c) {
      StandingPull(rules, db, c);
    } else if c.request.Pull? {
      PullRefusals(rules, db, c);
    } else if c.request.Unlink? {
      UnlinkRefusals(rules, db, c);
    } else {
      OtherRefusals(rules, db, c);
    }
  }

  /** The case is reachable: create, link, and a pull-final unlink whose last version read fails. */
  lemma UnlinkMayFailAfterPull(rules: Rules, a: Json, b: Json) returns (dbs: seq<Db>, cs: seq<Call>)
    requires rules.fits(a) && rules.fits(b) && a != b
    ensures Run(rules, dbs, cs) && |cs| == 3 && cs[2].request.Unlink?
    ensures Answer(rules, dbs[2], cs[2]).reply == Failed(500)
    ensures 1 in dbs[2].docs && dbs[2].docs[1].content == a && 1 in dbs[3].docs && dbs[3].docs[1].content == b
    ensures |dbs[3].revisions| == 1 && 7 in dbs[3].links && dbs[3].links[7].state.Linked?
  {
    var drive := Drive(true, Usable, Some("v2"), Converted(b), None);
    cs := [Call(5, 10, Create(1, "", a, [], [])), Call(5, 11, LinkDoc(1, 7, drive, Uploaded(Some(3), true, Some("v1")))),
           Call(5, 12, Unlink(1, PullFinal, drive))];
    var db0 := Db(map[], [], map[]);
    var db1 := Answer(rules, db0, cs[0]).db;
    assert LiveLinks(db1, 5, 1) == {};
    var db2 := Answer(rules, db1, cs[1]).db;
    assert db2.links == map[7 := Link(1, 5, 3, "v1", Linked)];
    assert 7 in LiveLinks(db2, 5, 1);
    assert forall k :: k in LiveLinks(db2, 5, 1) ==> k == 7;
    StandingPull(rules, db2, cs[2]);
    dbs := [db0, db1, db2, Answer(rules, db2, cs[2]).db];
    assert StepAt(rules, dbs, cs, 0) && StepAt(rules, dbs, cs, 1) && StepAt(rules, dbs, cs, 2);
  }

  // ----- scopes ----------------------------------------------------------------------------

  lemma {:induction false} KeptMeaning(owned: set<int>, ids: seq<int>)
    ensures forall x :: x in Kept(owned, ids) <==> x in ids && x in owned
  {
    if ids != [] {
      KeptMeaning(owned, ids[..|ids| - 1]);
      assert ids == ids[..|ids| - 1] + [ids[|ids| - 1]];
    }
  }

  /** A clamped list holds exactly the requested ids that the user owns. */
  lemma ClampMeaning(owned: set<int>, ids: seq<int>)
    ensures forall x :: x in Clamp(owned, ids) <==> x in ids && x in owned
  {
    FirstsMeaning(ids);
    KeptMeaning(owned, Firsts(ids));
  }

  /** The user owned book `x` when one of the first `n` requests was handled. */
  ghost predicate OwnedOnce(rules: Rules, cs: seq<Call>, n: nat, u: UserId, x: int) {
    exists j :: 0 <= j < n && j < |cs| && OwnedAt(rules, cs[j], u, x)
  }

  predicate OwnedAt(rules: Rules, c: Call, u: UserId, x: int) {
    c.user == u && x in rules.ownBooks(u, c.now)
  }

  ghost predicate ScopesOwned(rules: Rules, cs: seq<Call>, n: nat, db: Db) {
    forall id, x :: id in db.docs && x in db.docs[id].scopeBooks ==> OwnedOnce(rules, cs, n, db.docs[id].user, x)
  }

  lemma StepScopes(rules: Rules, db: Db, c: Call, id: DocId, x: int)
    requires FreshIds(db, c.request)
    requires id in Answer(rules, db, c).db.docs && x in Answer(rules, db, c).db.docs[id].scopeBooks
    ensures (id in db.docs && x in db.docs[id].scopeBooks && Answer(rules, db, c).db.docs[id].user == db.docs[id].user)
            || OwnedAt(rules, c, Answer(rules, db, c).db.docs[id].user, x)
  {
    if c.request.Create? {
      ClampMeaning(rules.ownBooks(c.user, c.now), c.request.scopeBooks);
    } else if c.request.Patch? && c.request.scopeBooks'.Some? {
      ClampMeaning(rules.ownBooks(c.user, c.now), c.request.scopeBooks'.value);
    }
  }

  /** No run ever stores a book id in a scope that the document's owner did not own when it was written. */
  lemma {:induction false} StoredScopesWereOwned(rules: Rules, dbs: seq<Db>, cs: seq<Call>, i: nat)
    requires Run(rules, dbs, cs) && i < |dbs|
    ensures ScopesOwned(rules, cs, i, dbs[i])
  {
    if i > 0 {
      var p := i - 1;
      StoredScopesWereOwned(rules, dbs, cs, p);
      assert StepAt(rules, dbs, cs, p);
      forall id, x | id in dbs[i].docs && x in dbs[i].docs[id].scopeBooks
        ensures OwnedOnce(rules, cs, i, dbs[i].docs[id].user, x)
      {
        StepScopes(rules, dbs[p], cs[p], id, x);
        if !OwnedAt(rules, cs[p], dbs[i].docs[id].user, x) {
          assert OwnedOnce(rules, cs, p, dbs[p].docs[id].user, x);
        }
      }
    }
  }
}
