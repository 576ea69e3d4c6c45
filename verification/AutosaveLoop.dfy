/**
 The autosave loop of web/components/SermonEditor.tsx against the PATCH gate of api/documents.py:
 timers, one flight at a time, coalescing, and adoption of the concurrency token.
*/
module AutosaveLoop {
  import opened Common
  import opened AutosaveRules

  /** How the server answered a PATCH; `Refused` is any other failing status. */
  datatype Answer = Saved(updatedAt: Stamp) | Conflict | Refused

  /** A PATCH on its way; `answer` is set once the server has handled it. */
  datatype Sent = Sent(body: PatchBody, answer: Option<Answer>)

  /**
   The refs of the component.  `outbox` holds the requests whose promise has not settled.  History:
   `firstEdit` is the oldest edit since runSave last ran, `interrupted` says that a save failed or
   the lock engaged since the last scheduled edit, `dropped` that runSave returned at its clean-buffer
   test while a different snapshot was in flight, `desynced` that a save was applied whose answer was lost.
  */
  datatype Loop = Loop(
    buffer: Snapshot, lastSaved: Snapshot, base: Stamp, flight: FlightState,
    conflicted: bool, linked: bool, mounted: bool,
    debounce: Option<int>, maxInterval: Option<int>, outbox: seq<Sent>,
    firstEdit: Option<int>, interrupted: bool, dropped: bool, desynced: bool)

  datatype Server = Server(updatedAt: Stamp, copy: Snapshot)

  /** `strays` are requests whose promise rejected before the server handled them: it may still do so, at any later time. */
  datatype World = World(now: int, loop: Loop, server: Server, strays: set<PatchBody>)

  // ----- the component's callbacks -------------------------------------------------

  function ClearTimers(l: Loop): Loop {
    l.(debounce := None, maxInterval := None)
  }

  function RunSave(l: Loop): Loop {
    if l.conflicted || l.linked then l
    else if !IsDirty(Some(l.lastSaved), l.buffer) then
      l.(dropped := l.flight.inFlight && !l.flight.pending && l.outbox != [] && l.outbox[0].body.snapshot != l.buffer)
    else
      var (state, start) := OnSaveRequested(l.flight);
      if start
      then l.(flight := state, dropped := false, outbox := l.outbox + [Sent(BuildPatchBody(l.buffer, l.base), None)])
      else l.(flight := state, dropped := false)
  }

  function ScheduleAutosave(l: Loop, now: int): Loop {
    if l.conflicted || l.linked then l
    else l.(debounce := Some(now + DEBOUNCE_MS),
            maxInterval := if l.maxInterval.None? then Some(now + MAX_INTERVAL_MS) else l.maxInterval,
            firstEdit := if l.firstEdit.None? then Some(now) else l.firstEdit,
            interrupted := false, dropped := false)
  }

  /** Either timer's callback disarms both and saves. */
  function TimerFires(l: Loop): Loop {
    RunSave(l.(debounce := None, maxInterval := None, firstEdit := None))
  }

  /** sendPatch once its fetch returned, with `None` for a rejected promise. */
  function Routed(l: Loop, k: nat, answer: Option<Answer>): Loop
    requires k < |l.outbox|
  {
    Adopt(l.(outbox := Without(l.outbox, k)), l.outbox[k], answer)
  }

  function Without(outbox: seq<Sent>, k: nat): seq<Sent>
    requires k < |outbox|
  {
    outbox[..k] + outbox[k + 1..]
  }

  /** What the refs make of the answer to `sent`. */
  function Adopt(l: Loop, sent: Sent, answer: Option<Answer>): Loop {
    if !l.mounted then l
    else if answer.Some? && answer.value.Saved? then l.(base := answer.value.updatedAt, lastSaved := sent.body.snapshot)
    else if answer.Some? && answer.value.Conflict? then l.(conflicted := true, interrupted := true, debounce := None, maxInterval := None)
    else l.(interrupted := true, desynced := l.desynced || (sent.answer.Some? && sent.answer.value.Saved?))
  }

  function Land(l: Loop, k: nat, answer: Option<Answer>): Loop
    requires k < |l.outbox|
  {
    var routed := Routed(l, k, answer);
    routed.(flight := OnFlightSettled(routed.flight).0)
  }

  /** The whole settlement: the routed response, then the `finally` of runSave with its trailing save. */
  function Settle(l: Loop, k: nat, answer: Option<Answer>): Loop
    requires k < |l.outbox|
  {
    var landed := Land(l, k, answer);
    if OnFlightSettled(l.flight).1 && landed.mounted && !landed.conflicted then RunSave(landed) else landed
  }

  // ----- the server's gate -----------------------------------------------------------

  type Clamp = seq<string> -> seq<string>  // intersect with what the user owns

  /** The optimistic gate of update_document for a body that sets every field; `stamp` is its now(). */
  function Handle(clamp: Clamp, s: Server, body: PatchBody, accept: bool, stamp: Stamp): (Server, Answer) {
    if !accept then (s, Refused)  // 413, 404, 5xx
    else if body.base != s.updatedAt then (s, Conflict)
    else
      var p := body.snapshot;
      (Server(stamp, Snapshot(p.title, p.content, clamp(p.scopeBooks), clamp(p.scopeCollections))), Saved(stamp))
  }

  // ----- steps ---------------------------------------------------------------------

  datatype Event =
    | Tick(now: int)
    | Edit(buffer: Snapshot)
    | DebounceFires
    | MaxIntervalFires
    | ServerHandles(k: nat, accept: bool, stamp: Stamp)
    | Response(k: nat)
    | Lose(k: nat)
    | StrayArrives(body: PatchBody, accept: bool, stamp: Stamp)
    | Lock
    | Unlock
    | Unmount

  /** A request given up is still on its way unless it was handled already. */
  function Stray(sent: Sent): set<PatchBody> {
    if sent.answer.None? then {sent.body} else {}
  }

  predicate Due(timer: Option<int>, now: int) {
    timer.Some? && timer.value <= now
  }

  /** Timers fire on time: the clock does not run past an armed deadline. */
  predicate Enabled(w: World, e: Event) {
    match e
    case Tick(t) => w.now <= t && (w.loop.debounce.Some? ==> t <= w.loop.debounce.value)
                    && (w.loop.maxInterval.Some? ==> t <= w.loop.maxInterval.value)
    case Edit(_) => w.loop.mounted
    case DebounceFires => Due(w.loop.debounce, w.now)
    case MaxIntervalFires => Due(w.loop.maxInterval, w.now)
    case ServerHandles(k, _, stamp) => k < |w.loop.outbox| && w.loop.outbox[k].answer.None? && w.server.updatedAt < stamp
    case Response(k) => k < |w.loop.outbox| && w.loop.outbox[k].answer.Some?
    case Lose(k) => k < |w.loop.outbox|
    case StrayArrives(body, _, stamp) => body in w.strays && w.server.updatedAt < stamp
    case Lock => w.loop.mounted
    case Unlock => w.loop.mounted
    case Unmount => w.loop.mounted
  }

  function Step(clamp: Clamp, w: World, e: Event): World
    requires Enabled(w, e)
  {
    var l := w.loop;
    match e
    case Tick(t) => w.(now := t)
    case Edit(b) => w.(loop := ScheduleAutosave(l.(buffer := b), w.now))
    case DebounceFires => w.(loop := TimerFires(l))
    case MaxIntervalFires => w.(loop := TimerFires(l))
    case ServerHandles(k, accept, stamp) =>
      var (server, answer) := Handle(clamp, w.server, l.outbox[k].body, accept, stamp);
      w.(server := server, loop := l.(outbox := l.outbox[k := l.outbox[k].(answer := Some(answer))]))
    case Response(k) => w.(loop := Settle(l, k, l.outbox[k].answer))
    case Lose(k) => w.(loop := Settle(l, k, None), strays := w.strays + Stray(l.outbox[k]))
    case StrayArrives(body, accept, stamp) =>
      var (server, answer) := Handle(clamp, w.server, body, accept, stamp);
      w.(server := server, loop := l.(desynced := l.desynced || (l.mounted && answer.Saved?)))
    case Lock => w.(loop := l.(linked := true, debounce := None, maxInterval := None, interrupted := true, firstEdit := None))
    case Unlock => w.(loop := l.(linked := false))
    case Unmount => w.(loop := l.(mounted := false, debounce := None, maxInterval := None))
  }

  /** The editor opens on the stored document. */
  predicate Initial(w: World) {
    var l := w.loop;
    && l.buffer == l.lastSaved == w.server.copy && l.base == w.server.updatedAt && l.flight == IDLE
    && !l.conflicted && l.mounted && l.debounce.None? && l.maxInterval.None? && l.outbox == []
    && l.firstEdit.None? && l.interrupted == l.linked && !l.dropped && !l.desynced && w.strays == {}
  }

  predicate Run(clamp: Clamp, ws: seq<World>, es: seq<Event>) {
    Path(clamp, ws, es) && Initial(ws[0])
  }

  predicate Path(clamp: Clamp, ws: seq<World>, es: seq<Event>) {
    |ws| == |es| + 1 && forall i :: 0 <= i < |es| ==> StepAt(clamp, ws, es, i)
  }

  predicate StepAt(clamp: Clamp, ws: seq<World>, es: seq<Event>, i: nat)
    requires i < |es| && |ws| == |es| + 1
  {
    Enabled(ws[i], es[i]) && ws[i + 1] == Step(clamp, ws[i], es[i])
  }

  // ----- invariant --------------------------------------------------------------------

  predicate FlightOk(l: Loop) {
    && |l.outbox| <= 1 && (l.flight.inFlight <==> |l.outbox| == 1)
    && (l.flight.pending ==> l.flight.inFlight)
    && (l.debounce.Some? <==> l.maxInterval.Some?)
    && (!l.mounted || l.linked || l.conflicted ==> l.debounce.None?)
    && (l.linked ==> l.interrupted)
  }

  /** What the server will hold once the flight, if any, succeeds. */
  function Target(l: Loop): Snapshot {
    if l.outbox == [] then l.lastSaved else l.outbox[0].body.snapshot
  }

  /** The buffer differs from that, and no timer, PATCH or trailing save will bring it there. */
  predicate Uncovered(l: Loop) {
    l.buffer != Target(l) && l.debounce.None? && l.maxInterval.None? && !l.flight.pending
  }

  predicate Active(l: Loop) {
    l.mounted && !l.linked && !l.conflicted
  }

  predicate CoverOk(l: Loop) {
    Active(l) && !l.interrupted ==> (Uncovered(l) <==> l.dropped)
  }

  predicate ClockOk(w: World) {
    var l := w.loop;
    && (l.debounce.Some? ==> w.now <= l.debounce.value <= w.now + DEBOUNCE_MS)
    && (l.maxInterval.Some? ==> w.now <= l.maxInterval.value)
    && (l.mounted && !l.conflicted ==> (l.firstEdit.Some? <==> l.maxInterval.Some?))
    && (l.firstEdit.Some? && l.maxInterval.Some? ==> l.maxInterval.value == l.firstEdit.value + MAX_INTERVAL_MS)
  }

  predicate SameText(a: Snapshot, b: Snapshot) {
    a.title == b.title && a.content == b.content
  }

  /** Token and copy agree with the server, or the answer to an applied save was lost. */
  predicate TokenOk(w: World) {
    var l := w.loop;
    && l.base <= w.server.updatedAt
    && (l.mounted ==>
          if l.outbox != [] && l.outbox[0].answer.Some? && l.outbox[0].answer.value.Saved? then
            && !l.desynced && l.base < w.server.updatedAt && l.outbox[0].answer.value.updatedAt == w.server.updatedAt
            && SameText(w.server.copy, l.outbox[0].body.snapshot)
          else
            && (l.desynced <==> l.base != w.server.updatedAt)
            && (!l.desynced ==> SameText(w.server.copy, l.lastSaved)))
    && (l.outbox != [] && l.mounted && l.outbox[0].answer.None? ==> l.outbox[0].body.base == l.base)
    && (l.outbox != [] && l.mounted && l.outbox[0].answer == Some(Conflict) ==> l.desynced)
    && (l.mounted && l.conflicted ==> l.desynced)
  }

  /** No request still on its way carries a newer token than the editor holds. */
  predicate StraysOk(w: World) {
    w.loop.mounted ==> forall body <- w.strays :: body.base <= w.loop.base
  }

  predicate Inv(w: World) {
    FlightOk(w.loop) && CoverOk(w.loop) && ClockOk(w) && TokenOk(w) && StraysOk(w)
  }

  // ----- every step keeps it ------------------------------------------------------------

  lemma TimerKeepsLoop(l: Loop)
    requires FlightOk(l) && CoverOk(l) && l.debounce.Some?
    ensures FlightOk(TimerFires(l)) && CoverOk(TimerFires(l))
  {
  }

  /** The state between the routed response and the trailing save: nothing is outstanding. */
  predicate Landed(l: Loop) {
    l.flight == IDLE && Grounded(l)
  }

  predicate Grounded(l: Loop) {
    && l.outbox == [] && (l.debounce.Some? <==> l.maxInterval.Some?)
    && (!l.mounted || l.linked || l.conflicted ==> l.debounce.None?)
    && (l.linked ==> l.interrupted)
  }

  lemma TrailingSaveCovers(l: Loop)
    requires Landed(l)
    ensures FlightOk(RunSave(l))
    ensures Active(l) ==> CoverOk(RunSave(l))
  {
  }

  lemma OnlyOne(outbox: seq<Sent>, k: nat)
    requires k < |outbox| <= 1
    ensures Without(outbox, k) == []
  {
  }

  lemma RoutedLands(l: Loop, k: nat, answer: Option<Answer>)
    requires FlightOk(l) && k < |l.outbox|
    ensures Landed(Land(l, k, answer))
  {
    OnlyOne(l.outbox, k);
    AdoptLands(l.(outbox := Without(l.outbox, k)), l.outbox[k], answer);
  }

  lemma AdoptLands(l: Loop, sent: Sent, answer: Option<Answer>)
    requires Grounded(l)
    ensures Adopt(l, sent, answer).flight == l.flight && Grounded(Adopt(l, sent, answer))
  {
  }

  lemma RoutedCovers(l: Loop, k: nat, answer: Option<Answer>)
    requires FlightOk(l) && CoverOk(l) && k < |l.outbox| && !l.flight.pending
    ensures CoverOk(Land(l, k, answer))
  {
    OnlyOne(l.outbox, k);
  }

  /** What the arrival of an answer leaves alone. */
  predicate SameFrame(a: Loop, b: Loop) {
    a.mounted == b.mounted && a.linked == b.linked && a.firstEdit == b.firstEdit
  }

  /** A conflict clears both timers; nothing else touches them. */
  predicate TimersCleared(a: Loop, b: Loop) {
    || (b.debounce == a.debounce && b.maxInterval == a.maxInterval && b.conflicted == a.conflicted)
    || (b.debounce.None? && b.maxInterval.None? && b.conflicted)
  }

  lemma AdoptFrame(l: Loop, sent: Sent, answer: Option<Answer>)
    ensures SameFrame(l, Adopt(l, sent, answer)) && TimersCleared(l, Adopt(l, sent, answer))
  {
  }

  lemma LandFrame(l: Loop, k: nat, answer: Option<Answer>)
    requires k < |l.outbox|
    ensures SameFrame(l, Land(l, k, answer)) && TimersCleared(l, Land(l, k, answer))
  {
    var rest := l.(outbox := Without(l.outbox, k));
    AdoptFrame(rest, l.outbox[k], answer);
    assert Routed(l, k, answer) == Adopt(rest, l.outbox[k], answer);
  }

  lemma SettleKeepsLoop(l: Loop, k: nat, answer: Option<Answer>)
    requires FlightOk(l) && CoverOk(l) && k < |l.outbox|
    ensures FlightOk(Settle(l, k, answer)) && CoverOk(Settle(l, k, answer))
  {
    RoutedLands(l, k, answer);
    if !l.flight.pending {
      RoutedCovers(l, k, answer);
    }
    TrailingSaveCovers(Land(l, k, answer));
  }

  lemma StepKeepsLoop(clamp: Clamp, w: World, e: Event)
    requires FlightOk(w.loop) && CoverOk(w.loop) && Enabled(w, e)
    ensures FlightOk(Step(clamp, w, e).loop) && CoverOk(Step(clamp, w, e).loop)
  {
    match e
    case DebounceFires => TimerKeepsLoop(w.loop);
    case MaxIntervalFires => TimerKeepsLoop(w.loop);
    case Response(k) => SettleKeepsLoop(w.loop, k, w.loop.outbox[k].answer);
    case Lose(k) => SettleKeepsLoop(w.loop, k, None);
    case _ =>
  }

  lemma RunSaveKeepsClock(w: World)
    requires ClockOk(w)
    ensures ClockOk(w.(loop := RunSave(w.loop)))
  {
  }

  lemma SettleKeepsClock(w: World, k: nat, answer: Option<Answer>)
    requires FlightOk(w.loop) && ClockOk(w) && k < |w.loop.outbox|
    ensures ClockOk(w.(loop := Settle(w.loop, k, answer)))
  {
    LandKeepsClock(w, k, answer);
    RunSaveKeepsClock(w.(loop := Land(w.loop, k, answer)));
  }

  lemma LandKeepsClock(w: World, k: nat, answer: Option<Answer>)
    requires ClockOk(w) && k < |w.loop.outbox|
    ensures ClockOk(w.(loop := Land(w.loop, k, answer)))
  {
    LandFrame(w.loop, k, answer);
  }

  lemma StepKeepsClock(clamp: Clamp, w: World, e: Event)
    requires FlightOk(w.loop) && ClockOk(w) && Enabled(w, e)
    ensures ClockOk(Step(clamp, w, e))
  {
    match e
    case Response(k) => SettleKeepsClock(w, k, w.loop.outbox[k].answer);
    case Lose(k) => SettleKeepsClock(w, k, None);
    case _ => OtherwiseKeepsClock(clamp, w, e);
  }

  lemma OtherwiseKeepsClock(clamp: Clamp, w: World, e: Event)
    requires FlightOk(w.loop) && ClockOk(w) && Enabled(w, e) && !e.Response? && !e.Lose?
    ensures ClockOk(Step(clamp, w, e))
  {
  }

  /** Token half for a state with nothing outstanding. */
  predicate IdleToken(w: World) {
    var l := w.loop;
    && l.base <= w.server.updatedAt
    && (l.mounted ==>
          && (l.desynced <==> l.base != w.server.updatedAt)
          && (!l.desynced ==> SameText(w.server.copy, l.lastSaved))
          && (l.conflicted ==> l.desynced))
  }

  lemma LandKeepsToken(w: World, k: nat, answer: Option<Answer>)
    requires FlightOk(w.loop) && TokenOk(w) && k < |w.loop.outbox|
    requires answer.Some? ==> answer == w.loop.outbox[k].answer
    ensures Landed(Land(w.loop, k, answer)) && IdleToken(w.(loop := Land(w.loop, k, answer)))
  {
    OnlyOne(w.loop.outbox, k);
  }

  lemma TrailingSaveKeepsToken(w: World)
    requires Landed(w.loop) && IdleToken(w)
    ensures TokenOk(w) && TokenOk(w.(loop := RunSave(w.loop)))
  {
  }

  lemma SettleKeepsToken(w: World, k: nat, answer: Option<Answer>)
    requires FlightOk(w.loop) && TokenOk(w) && k < |w.loop.outbox|
    requires answer.Some? ==> answer == w.loop.outbox[k].answer
    ensures TokenOk(w.(loop := Settle(w.loop, k, answer)))
  {
    LandKeepsToken(w, k, answer);
    TrailingSaveKeepsToken(w.(loop := Land(w.loop, k, answer)));
  }

  lemma HandlingKeepsToken(clamp: Clamp, w: World, k: nat, accept: bool, stamp: Stamp)
    requires FlightOk(w.loop) && TokenOk(w) && Enabled(w, ServerHandles(k, accept, stamp))
    ensures TokenOk(Step(clamp, w, ServerHandles(k, accept, stamp)))
  {
    var sent := w.loop.outbox[0];
    var (server, answer) := Handle(clamp, w.server, sent.body, accept, stamp);
    assert w.loop.outbox[0 := sent.(answer := Some(answer))] == [sent.(answer := Some(answer))];
  }

  lemma TimerKeepsToken(w: World)
    requires FlightOk(w.loop) && TokenOk(w)
    ensures TokenOk(w.(loop := TimerFires(w.loop)))
  {
    var l := w.loop;
    if l.outbox != [] {
      assert TimerFires(l).outbox == l.outbox;
    }
  }

  lemma StepKeepsToken(clamp: Clamp, w: World, e: Event)
    requires FlightOk(w.loop) && TokenOk(w) && StraysOk(w) && Enabled(w, e)
    ensures TokenOk(Step(clamp, w, e))
  {
    match e
    case StrayArrives(body, accept, stamp) => StrayKeepsToken(clamp, w, body, accept, stamp);
    case DebounceFires => TimerKeepsToken(w);
    case MaxIntervalFires => TimerKeepsToken(w);
    case ServerHandles(k, accept, stamp) => HandlingKeepsToken(clamp, w, k, accept, stamp);
    case Response(k) => SettleKeepsToken(w, k, w.loop.outbox[k].answer);
    case Lose(k) => SettleKeepsToken(w, k, None);
    case _ => QuietKeepsToken(clamp, w, e);
  }

  /** A late request is applied only onto the token the editor still holds, and then nothing is answered Saved. */
  lemma StrayKeepsToken(clamp: Clamp, w: World, body: PatchBody, accept: bool, stamp: Stamp)
    requires FlightOk(w.loop) && TokenOk(w) && StraysOk(w) && Enabled(w, StrayArrives(body, accept, stamp))
    ensures TokenOk(Step(clamp, w, StrayArrives(body, accept, stamp)))
  {
  }

  lemma StepKeepsStrays(clamp: Clamp, w: World, e: Event)
    requires FlightOk(w.loop) && TokenOk(w) && StraysOk(w) && Enabled(w, e)
    ensures StraysOk(Step(clamp, w, e))
  {
    match e
    case Response(k) => SettleKeepsBase(w, k, w.loop.outbox[k].answer);
    case Lose(k) => SettleKeepsBase(w, k, None);
    case _ =>
  }

  /** The token an editor holds never gets older. */
  lemma SettleKeepsBase(w: World, k: nat, answer: Option<Answer>)
    requires FlightOk(w.loop) && TokenOk(w) && k < |w.loop.outbox|
    requires answer.Some? ==> answer == w.loop.outbox[k].answer
    ensures var settled := Settle(w.loop, k, answer);
            settled.mounted == w.loop.mounted && (settled.mounted ==> w.loop.base <= settled.base)
  {
    var landed := Land(w.loop, k, answer);
    AdoptKeepsBase(w.loop.(outbox := Without(w.loop.outbox, k)), w.loop.outbox[k], answer);
    assert landed.base == Adopt(w.loop.(outbox := Without(w.loop.outbox, k)), w.loop.outbox[k], answer).base;
    RunSaveKeepsBase(landed);
  }

  lemma AdoptKeepsBase(l: Loop, sent: Sent, answer: Option<Answer>)
    ensures Adopt(l, sent, answer).mounted == l.mounted
    ensures Adopt(l, sent, answer).base
            == if l.mounted && answer.Some? && answer.value.Saved? then answer.value.updatedAt else l.base
  {
  }

  lemma RunSaveKeepsBase(l: Loop)
    ensures RunSave(l).base == l.base && RunSave(l).mounted == l.mounted
  {
  }

  predicate Quiet(e: Event) {
    e.Tick? || e.Edit? || e.Lock? || e.Unlock? || e.Unmount?
  }

  lemma QuietKeepsToken(clamp: Clamp, w: World, e: Event)
    requires TokenOk(w) && Enabled(w, e) && Quiet(e)
    ensures TokenOk(Step(clamp, w, e))
  {
    RefsKeepToken(w, Step(clamp, w, e));
  }

  /** Steps that touch neither the requests nor what is known of the server. */
  lemma RefsKeepToken(w: World, n: World)
    requires TokenOk(w) && n.server == w.server
    requires n.loop.base == w.loop.base && n.loop.lastSaved == w.loop.lastSaved && n.loop.outbox == w.loop.outbox
    requires n.loop.desynced == w.loop.desynced && n.loop.conflicted == w.loop.conflicted
    requires n.loop.mounted ==> w.loop.mounted
    ensures TokenOk(n)
  {
  }

  lemma StepKeepsInv(clamp: Clamp, w: World, e: Event)
    requires Inv(w) && Enabled(w, e)
    ensures Inv(Step(clamp, w, e))
  {
    StepKeepsLoop(clamp, w, e);
    StepKeepsClock(clamp, w, e);
    StepKeepsToken(clamp, w, e);
    StepKeepsStrays(clamp, w, e);
  }

  lemma InitialInv(w: World)
    requires Initial(w)
    ensures Inv(w)
  {
  }

  lemma PlaceKeepsInv(clamp: Clamp, ws: seq<World>, es: seq<Event>, i: nat)
    requires |ws| == |es| + 1 && i < |es| && StepAt(clamp, ws, es, i) && Inv(ws[i])
    ensures Inv(ws[i + 1])
  {
    StepKeepsInv(clamp, ws[i], es[i]);
  }

  lemma {:induction false} RunKeepsInv(clamp: Clamp, ws: seq<World>, es: seq<Event>, i: nat)
    requires Run(clamp, ws, es) && i < |ws|
    ensures Inv(ws[i])
  {
    if i == 0 {
      InitialInv(ws[0]);
    } else {
      RunKeepsInv(clamp, ws, es, i - 1);
      PlaceKeepsInv(clamp, ws, es, i - 1);
    }
  }
}
