/** What the autosave loop guarantees over whole runs of one tab against the server. */
module AutosaveTheorems {
  import opened Common
  import opened AutosaveRules
  import opened AutosaveLoop

  /** The dirty test decides exactly inequality, so a clean buffer never PATCHes. */
  lemma DirtyMeansDifferent(saved: Snapshot, next: Snapshot)
    ensures IsDirty(Some(saved), next) <==> saved != next
  {
  }

  lemma SingleFlight(clamp: Clamp, ws: seq<World>, es: seq<Event>, i: nat)
    requires Run(clamp, ws, es) && i < |ws|
    ensures |ws[i].loop.outbox| <= 1
    ensures ws[i].loop.flight.inFlight <==> |ws[i].loop.outbox| == 1
    ensures ws[i].loop.flight.pending ==> ws[i].loop.flight.inFlight
  {
    RunKeepsInv(clamp, ws, es, i);
  }

  // ----- no edit is left behind ---------------------------------------------------------

  predicate TimerEvent(e: Event) {
    e.DebounceFires? || e.MaxIntervalFires?
  }

  /** A timer fires on a buffer turned back to `lastSaved` while a different snapshot is in flight. */
  predicate Strands(ws: seq<World>, es: seq<Event>, j: int) {
    && 0 <= j < |ws| && j < |es| && TimerEvent(es[j])
    && var l := ws[j].loop;
       !l.conflicted && !l.linked && l.buffer == l.lastSaved
       && l.outbox != [] && !l.flight.pending && l.outbox[0].body.snapshot != l.buffer
  }

  /** Such a firing happened before state `i`, and the user has not edited since. */
  predicate StrandedBefore(ws: seq<World>, es: seq<Event>, i: int) {
    exists j :: 0 <= j < i && Strands(ws, es, j) && NoEdit(es, j + 1, i)
  }

  predicate NoEdit(es: seq<Event>, from: int, to: int) {
    forall m :: from <= m < to && 0 <= m < |es| ==> !es[m].Edit?
  }

  lemma SettleKeepsInterruption(l: Loop, k: nat, answer: Option<Answer>)
    requires k < |l.outbox|
    ensures KeepsInterruption(l, Settle(l, k, answer))
  {
    var landed := Land(l, k, answer);
    AdoptKeepsInterruption(l.(outbox := Without(l.outbox, k)), l.outbox[k], answer);
    RunSaveKeepsInterruption(landed);
  }

  predicate KeepsInterruption(a: Loop, b: Loop) {
    (a.interrupted ==> b.interrupted) && (Active(b) ==> Active(a))
  }

  lemma AdoptKeepsInterruption(l: Loop, sent: Sent, answer: Option<Answer>)
    ensures KeepsInterruption(l, Adopt(l, sent, answer))
  {
  }

  lemma RunSaveKeepsInterruption(l: Loop)
    ensures KeepsInterruption(l, RunSave(l))
  {
  }

  lemma InterruptionOutlivesAllButEdits(clamp: Clamp, w: World, e: Event)
    requires (w.loop.linked ==> w.loop.interrupted) && Enabled(w, e)
    ensures w.loop.interrupted && !e.Edit? ==> Step(clamp, w, e).loop.interrupted
    ensures Active(Step(clamp, w, e).loop) && !Step(clamp, w, e).loop.interrupted && !e.Edit? ==> Active(w.loop)
  {
    match e
    case Response(k) => SettleKeepsInterruption(w.loop, k, w.loop.outbox[k].answer);
    case Lose(k) => SettleKeepsInterruption(w.loop, k, None);
    case _ =>
  }

  lemma SettleKeepsDropped(l: Loop, k: nat, answer: Option<Answer>)
    requires FlightOk(l) && CoverOk(l) && k < |l.outbox| && Active(l) && !l.interrupted
    requires Active(Settle(l, k, answer)) && !Settle(l, k, answer).interrupted
    ensures Settle(l, k, answer).dropped == l.dropped
  {
    OnlyOne(l.outbox, k);
  }

  lemma DroppedAfterStep(clamp: Clamp, w: World, e: Event)
    requires Inv(w) && Enabled(w, e) && Active(w.loop) && !w.loop.interrupted
    requires Active(Step(clamp, w, e).loop) && !Step(clamp, w, e).loop.interrupted
    ensures Step(clamp, w, e).loop.dropped ==
            if e.Edit? then false
            else if TimerEvent(e) then Strands([w], [e], 0)
            else w.loop.dropped
  {
    match e
    case Response(k) => SettleKeepsDropped(w.loop, k, w.loop.outbox[k].answer);
    case Lose(k) => SettleKeepsDropped(w.loop, k, None);
    case _ =>
  }

  lemma {:induction false} DroppedIsHistory(clamp: Clamp, ws: seq<World>, es: seq<Event>, i: nat)
    requires Run(clamp, ws, es) && i < |ws| && Active(ws[i].loop) && !ws[i].loop.interrupted
    ensures ws[i].loop.dropped <==> StrandedBefore(ws, es, i)
  {
    if i > 0 {
      var p := i - 1;
      var w, e := ws[p], es[p];
      RunKeepsInv(clamp, ws, es, p);
      assert StepAt(clamp, ws, es, p);
      InterruptionOutlivesAllButEdits(clamp, w, e);
      if !e.Edit? {
        DroppedIsHistory(clamp, ws, es, p);
        DroppedAfterStep(clamp, w, e);
        assert Strands([w], [e], 0) <==> Strands(ws, es, p);
        if StrandedBefore(ws, es, p) {
          var j :| 0 <= j < p && Strands(ws, es, j) && NoEdit(es, j + 1, p);
          assert NoEdit(es, j + 1, i);
        }
        if StrandedBefore(ws, es, i) {
          var j :| 0 <= j < i && Strands(ws, es, j) && NoEdit(es, j + 1, i);
          assert j == p || NoEdit(es, j + 1, p);
        }
        if Strands(ws, es, p) {
          assert NoEdit(es, p + 1, i);
        }
        assert TimerEvent(e) ==> !w.loop.dropped;
      } else {
        EditUndrops(clamp, w, e);
        assert !StrandedBefore(ws, es, i);
      }
    }
  }

  lemma EditUndrops(clamp: Clamp, w: World, e: Event)
    requires Enabled(w, e) && e.Edit? && Active(Step(clamp, w, e).loop)
    ensures !Step(clamp, w, e).loop.dropped
  {
  }

  /**
   While the editor is mounted, unlinked and unconflicted and no save has failed since the last edit:
   a buffer that the server will not hold once the outstanding PATCH succeeds has a timer armed or a
   trailing save owed, unless runSave gave up on a buffer turned back during a flight.  Exactly then
   the edit is stranded, until the user types again.
  */
  lemma StrandedIffTurnedBack(clamp: Clamp, ws: seq<World>, es: seq<Event>, i: nat)
    requires Run(clamp, ws, es) && i < |ws| && Active(ws[i].loop) && !ws[i].loop.interrupted
    ensures Uncovered(ws[i].loop) <==> StrandedBefore(ws, es, i)
  {
    RunKeepsInv(clamp, ws, es, i);
    DroppedIsHistory(clamp, ws, es, i);
  }

  function Editor(buffer: Snapshot, saved: Snapshot, base: Stamp, debounce: Option<int>, max: Option<int>,
                  outbox: seq<Sent>, first: Option<int>, dropped: bool): Loop {
    Loop(buffer, saved, base, FlightState(outbox != [], false), false, false, true, debounce, max, outbox, first, false, dropped, false)
  }

  lemma SaveSent(clamp: Clamp, a: Snapshot, b: Snapshot) returns (ws: seq<World>)
    requires a != b
    ensures Path(clamp, ws, [Edit(b), Tick(2000), DebounceFires])
    ensures ws[0] == World(0, Editor(a, a, 0, None, None, [], None, false), Server(0, a), {})
    ensures ws[3] == World(2000, Editor(b, a, 0, None, None, [Sent(PatchBody(0, b), None)], None, false), Server(0, a), {})
  {
    var w0 := World(0, Editor(a, a, 0, None, None, [], None, false), Server(0, a), {});
    var w1 := World(0, Editor(b, a, 0, Some(2000), Some(15000), [], Some(0), false), Server(0, a), {});
    var w3 := World(2000, Editor(b, a, 0, None, None, [Sent(PatchBody(0, b), None)], None, false), Server(0, a), {});
    ws := [w0, w1, w1.(now := 2000), w3];
  }

  lemma TurnedBack(clamp: Clamp, a: Snapshot, b: Snapshot) returns (ws: seq<World>)
    requires a != b
    ensures Path(clamp, ws, [Edit(a), Tick(4000), DebounceFires])
    ensures ws[0] == World(2000, Editor(b, a, 0, None, None, [Sent(PatchBody(0, b), None)], None, false), Server(0, a), {})
    ensures ws[3] == World(4000, Editor(a, a, 0, None, None, [Sent(PatchBody(0, b), None)], None, true), Server(0, a), {})
  {
    var outbox := [Sent(PatchBody(0, b), None)];
    var w3 := World(2000, Editor(b, a, 0, None, None, outbox, None, false), Server(0, a), {});
    var w4 := World(2000, Editor(a, a, 0, Some(4000), Some(17000), outbox, Some(2000), false), Server(0, a), {});
    var w6 := World(4000, Editor(a, a, 0, None, None, outbox, None, true), Server(0, a), {});
    ws := [w3, w4, w4.(now := 4000), w6];
  }

  lemma Landing(clamp: Clamp, a: Snapshot, b: Snapshot) returns (ws: seq<World>)
    requires a != b
    ensures Path(clamp, ws, [ServerHandles(0, true, 1), Response(0)])
    ensures ws[0] == World(4000, Editor(a, a, 0, None, None, [Sent(PatchBody(0, b), None)], None, true), Server(0, a), {})
    ensures ws[2].loop == Editor(a, b, 1, None, None, [], None, true) && SameText(ws[2].server.copy, b)
  {
    var copy := Snapshot(b.title, b.content, clamp(b.scopeBooks), clamp(b.scopeCollections));
    var w6 := World(4000, Editor(a, a, 0, None, None, [Sent(PatchBody(0, b), None)], None, true), Server(0, a), {});
    var w7 := World(4000, Editor(a, a, 0, None, None, [Sent(PatchBody(0, b), Some(Saved(1)))], None, true), Server(1, copy), {});
    var w8 := World(4000, Editor(a, b, 1, None, None, [], None, true), Server(1, copy), {});
    assert w7.loop.outbox[..0] + w7.loop.outbox[1..] == [];
    ws := [w6, w7, w8];
  }

  lemma PathsConcatenate(clamp: Clamp, ws: seq<World>, es: seq<Event>, more: seq<World>, after: seq<Event>)
    requires Path(clamp, ws, es) && Path(clamp, more, after) && ws[|es|] == more[0]
    ensures Path(clamp, ws + more[1..], es + after)
  {
    var all, events := ws + more[1..], es + after;
    forall i | 0 <= i < |events|
      ensures StepAt(clamp, all, events, i)
    {
      if i < |es| {
        assert StepAt(clamp, ws, es, i);
      } else {
        assert StepAt(clamp, more, after, i - |es|);
      }
    }
  }

  /** The stranding is reachable: the server ends up with text the user has already taken back. */
  lemma EditMayBeStranded(clamp: Clamp, a: Snapshot, b: Snapshot) returns (ws: seq<World>, es: seq<Event>)
    requires a != b
    ensures Run(clamp, ws, es) && |ws| == 9
    ensures forall e <- es :: !e.Lose? && !e.StrayArrives? && !e.Lock? && !e.Unmount?
    ensures var w := ws[8];
            && Active(w.loop) && !w.loop.interrupted && w.loop.outbox == [] && Uncovered(w.loop)
            && w.loop.buffer == a && SameText(w.server.copy, b)
  {
    var first := SaveSent(clamp, a, b);
    var second := TurnedBack(clamp, a, b);
    var third := Landing(clamp, a, b);
    es := [Edit(b), Tick(2000), DebounceFires] + [Edit(a), Tick(4000), DebounceFires];
    PathsConcatenate(clamp, first, [Edit(b), Tick(2000), DebounceFires], second, [Edit(a), Tick(4000), DebounceFires]);
    PathsConcatenate(clamp, first + second[1..], es, third, [ServerHandles(0, true, 1), Response(0)]);
    ws, es := first + second[1..] + third[1..], es + [ServerHandles(0, true, 1), Response(0)];
  }

  // ----- an edit waits at most fifteen seconds ----------------------------------------------

  /** The ways out of waiting: a timer ran runSave, the lock engaged, the editor closed, or a conflict stopped the loop. */
  predicate Released(ws: seq<World>, es: seq<Event>, m: int) {
    0 <= m < |es| && m + 1 < |ws| && (TimerEvent(es[m]) || es[m].Lock? || es[m].Unmount? || ws[m + 1].loop.conflicted)
  }

  predicate Waiting(w: World, since: int) {
    && w.loop.mounted && !w.loop.conflicted && !w.loop.linked
    && w.loop.firstEdit.Some? && w.loop.firstEdit.value <= since
  }

  lemma StaysWaiting(clamp: Clamp, w: World, e: Event, since: int)
    requires Inv(w) && Enabled(w, e) && Waiting(w, since)
    requires !TimerEvent(e) && !e.Lock? && !e.Unmount? && !Step(clamp, w, e).loop.conflicted
    ensures Waiting(Step(clamp, w, e), since)
  {
    if e.Response? {
      SettleFrame(w.loop, e.k, w.loop.outbox[e.k].answer);
    } else if e.Lose? {
      SettleFrame(w.loop, e.k, None);
    }
  }

  lemma {:induction false} WaitsUntilReleased(clamp: Clamp, ws: seq<World>, es: seq<Event>, i: nat, j: nat)
    requires Run(clamp, ws, es) && i < j < |ws| && es[i].Edit? && Active(ws[i].loop)
    requires forall m :: i < m < j ==> !Released(ws, es, m)
    ensures Waiting(ws[j], ws[i].now)
    decreases j
  {
    RunKeepsInv(clamp, ws, es, j - 1);
    assert StepAt(clamp, ws, es, j - 1);
    if j == i + 1 {
      assert ws[i].loop.firstEdit.Some? ==> ws[i].loop.firstEdit.value <= ws[i].now by { FirstEditIsPast(clamp, ws, es, i); }
    } else {
      WaitsUntilReleased(clamp, ws, es, i, j - 1);
      assert !Released(ws, es, j - 1);
      StaysWaiting(clamp, ws[j - 1], es[j - 1], ws[i].now);
    }
  }

  predicate EditedInThePast(w: World) {
    w.loop.firstEdit.Some? ==> w.loop.firstEdit.value <= w.now
  }

  lemma SettleFrame(l: Loop, k: nat, answer: Option<Answer>)
    requires k < |l.outbox|
    ensures var settled := Settle(l, k, answer);
            settled.mounted == l.mounted && settled.linked == l.linked && settled.firstEdit == l.firstEdit
  {
    LandFrame(l, k, answer);
    RunSaveFrame(Land(l, k, answer));
  }

  lemma RunSaveFrame(l: Loop)
    ensures RunSave(l).mounted == l.mounted && RunSave(l).linked == l.linked && RunSave(l).firstEdit == l.firstEdit
  {
  }

  lemma StepKeepsPast(clamp: Clamp, w: World, e: Event)
    requires EditedInThePast(w) && Enabled(w, e)
    ensures EditedInThePast(Step(clamp, w, e))
  {
    if e.Response? {
      SettleFrame(w.loop, e.k, w.loop.outbox[e.k].answer);
    } else if e.Lose? {
      SettleFrame(w.loop, e.k, None);
    }
  }

  lemma {:induction false} FirstEditIsPast(clamp: Clamp, ws: seq<World>, es: seq<Event>, i: nat)
    requires Run(clamp, ws, es) && i < |ws|
    ensures EditedInThePast(ws[i])
  {
    if i > 0 {
      FirstEditIsPast(clamp, ws, es, i - 1);
      assert StepAt(clamp, ws, es, i - 1);
      StepKeepsPast(clamp, ws[i - 1], es[i - 1]);
    }
  }

  /** However the user types, more than MAX_INTERVAL_MS never pass after an edit without runSave. */
  lemma EditReachesRunSave(clamp: Clamp, ws: seq<World>, es: seq<Event>, i: nat, j: nat)
    requires Run(clamp, ws, es) && i < j < |ws| && es[i].Edit? && Active(ws[i].loop)
    requires ws[j].now > ws[i].now + MAX_INTERVAL_MS
    ensures exists m :: i < m < j && Released(ws, es, m)
  {
    if forall m :: i < m < j ==> !Released(ws, es, m) {
      WaitsUntilReleased(clamp, ws, es, i, j);
      RunKeepsInv(clamp, ws, es, j);
    }
  }

  // ----- the token never conflicts with itself ------------------------------------------------

  /**
   A save is applied whose answer never reaches the mounted editor: it is lost on its way back, or the
   editor gave the request up before the server got to it.
  */
  predicate LosesSave(ws: seq<World>, es: seq<Event>, m: int) {
    0 <= m < |ws| && m < |es| && ws[m].loop.mounted && (AnswerLost(ws[m], es[m]) || AppliedLate(ws[m], es[m]))
  }

  predicate AnswerLost(w: World, e: Event) {
    && e.Lose? && e.k < |w.loop.outbox|
    && var answer := w.loop.outbox[e.k].answer; answer.Some? && answer.value.Saved?
  }

  predicate AppliedLate(w: World, e: Event) {
    e.StrayArrives? && e.accept && e.body.base == w.server.updatedAt
  }

  predicate LostBefore(ws: seq<World>, es: seq<Event>, i: int) {
    exists m :: 0 <= m < i && LosesSave(ws, es, m)
  }

  lemma SettleDesyncs(l: Loop, k: nat, answer: Option<Answer>)
    requires k < |l.outbox|
    ensures var sent := l.outbox[k].answer;
            Settle(l, k, answer).desynced <==>
              l.desynced || (l.mounted && (answer.None? || answer.value.Refused?) && sent.Some? && sent.value.Saved?)
  {
    assert Settle(l, k, answer).desynced == Land(l, k, answer).desynced == Routed(l, k, answer).desynced;
  }

  lemma DesyncedAfterStep(clamp: Clamp, w: World, e: Event)
    requires Enabled(w, e) && FlightOk(w.loop)
    ensures Step(clamp, w, e).loop.desynced <==> w.loop.desynced || LosesSave([w], [e], 0)
  {
    if e.Response? {
      SettleDesyncs(w.loop, e.k, w.loop.outbox[e.k].answer);
    } else if e.Lose? {
      SettleDesyncs(w.loop, e.k, None);
    }
  }

  lemma {:induction false} DesyncedIsHistory(clamp: Clamp, ws: seq<World>, es: seq<Event>, i: nat)
    requires Run(clamp, ws, es) && i < |ws|
    ensures ws[i].loop.desynced <==> LostBefore(ws, es, i)
  {
    if i > 0 {
      DesyncedIsHistory(clamp, ws, es, i - 1);
      RunKeepsInv(clamp, ws, es, i - 1);
      assert StepAt(clamp, ws, es, i - 1);
      DesyncedAfterStep(clamp, ws[i - 1], es[i - 1]);
      assert LosesSave([ws[i - 1]], [es[i - 1]], 0) <==> LosesSave(ws, es, i - 1);
    }
  }

  /** With no applied save's answer lost, every PATCH carries the stored token and the copies agree at rest. */
  lemma TokenIsCurrent(clamp: Clamp, ws: seq<World>, es: seq<Event>, i: nat)
    requires Run(clamp, ws, es) && i < |ws| && ws[i].loop.mounted && !LostBefore(ws, es, i)
    ensures !ws[i].loop.conflicted
    ensures forall k :: 0 <= k < |ws[i].loop.outbox| && ws[i].loop.outbox[k].answer.None?
              ==> ws[i].loop.outbox[k].body.base == ws[i].server.updatedAt
    ensures ws[i].loop.outbox == [] ==> ws[i].loop.base == ws[i].server.updatedAt && SameText(ws[i].server.copy, ws[i].loop.lastSaved)
  {
    RunKeepsInv(clamp, ws, es, i);
    DesyncedIsHistory(clamp, ws, es, i);
  }

  /** One tab as the only writer: an accepted PATCH is answered 409 exactly when an earlier answer was lost. */
  lemma ConflictIffAnswerLost(clamp: Clamp, ws: seq<World>, es: seq<Event>, i: nat)
    requires Run(clamp, ws, es) && i < |es| && ws[i].loop.mounted
    requires es[i].ServerHandles? && es[i].accept
    ensures es[i].k < |ws[i].loop.outbox| == |ws[i + 1].loop.outbox|
    ensures ws[i + 1].loop.outbox[es[i].k].answer == Some(Conflict) <==> LostBefore(ws, es, i)
  {
    RunKeepsInv(clamp, ws, es, i);
    DesyncedIsHistory(clamp, ws, es, i);
    assert StepAt(clamp, ws, es, i);
  }
}
