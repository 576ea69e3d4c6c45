/** The component itself: refs assigned by callbacks, each proved to do what the loop model says. */
module AutosaveEditor {
  import opened Common
  import opened AutosaveRules
  import opened AutosaveLoop

  class SermonEditor {
    var buffer: Snapshot  // what readSnapshot returns
    var lastSaved: Snapshot
    var baseUpdatedAt: Stamp
    var flight: FlightState
    var conflicted: bool
    var linked: bool
    var mounted: bool
    var debounceTimer: Option<int>
    var maxIntervalTimer: Option<int>
    var outbox: seq<Sent>
    ghost var firstEdit: Option<int>
    ghost var interrupted: bool
    ghost var dropped: bool
    ghost var desynced: bool

    ghost function Refs(): Loop
      reads this
    {
      Loop(buffer, lastSaved, baseUpdatedAt, flight, conflicted, linked, mounted, debounceTimer, maxIntervalTimer, outbox,
           firstEdit, interrupted, dropped, desynced)
    }

    constructor (document: Snapshot, updatedAt: Stamp, isLinked: bool)
      ensures Initial(World(0, Refs(), Server(updatedAt, document), {})) && linked == isLinked
    {
      buffer, lastSaved, baseUpdatedAt := document, document, updatedAt;
      flight, conflicted, linked, mounted := IDLE, false, isLinked, true;
      debounceTimer, maxIntervalTimer, outbox := None, None, [];
      firstEdit, interrupted, dropped, desynced := None, isLinked, false, false;
    }

    method ClearTimers()
      modifies this`debounceTimer, this`maxIntervalTimer
      ensures Refs() == AutosaveLoop.ClearTimers(old(Refs()))
    {
      if debounceTimer.Some? {
        debounceTimer := None;
      }
      if maxIntervalTimer.Some? {
        maxIntervalTimer := None;
      }
    }

    /** Fires the request only: the response is routed by `RouteResponse`. */
    method SendPatch(snapshot: Snapshot)
      modifies this`outbox
      ensures outbox == old(outbox) + [Sent(PatchBody(old(baseUpdatedAt), snapshot), None)]
    {
      var body := BuildPatchBody(snapshot, baseUpdatedAt);
      outbox := outbox + [Sent(body, None)];
    }

    method RunSave()
      modifies this`flight, this`outbox, this`dropped
      ensures Refs() == AutosaveLoop.RunSave(old(Refs()))
    {
      if conflicted || linked {
        return;
      }
      var snapshot := buffer;
      if !IsDirty(Some(lastSaved), snapshot) {
        dropped := flight.inFlight && !flight.pending && outbox != [] && outbox[0].body.snapshot != buffer;
        return;
      }
      dropped := false;
      var (state, start) := OnSaveRequested(flight);
      flight := state;
      if !start {
        return;
      }
      SendPatch(snapshot);
    }

    method ScheduleAutosave(now: int)
      modifies this`debounceTimer, this`maxIntervalTimer, this`firstEdit, this`interrupted, this`dropped
      ensures Refs() == AutosaveLoop.ScheduleAutosave(old(Refs()), now)
    {
      if conflicted || linked {
        return;
      }
      if debounceTimer.Some? {
        debounceTimer := None;
      }
      debounceTimer := Some(now + DEBOUNCE_MS);
      if maxIntervalTimer.None? {
        maxIntervalTimer := Some(now + MAX_INTERVAL_MS);
      }
      firstEdit := if firstEdit.None? then Some(now) else firstEdit;
      interrupted, dropped := false, false;
    }

    method DebounceFires()
      modifies this`debounceTimer, this`maxIntervalTimer, this`flight, this`outbox, this`dropped, this`firstEdit
      ensures Refs() == TimerFires(old(Refs()))
    {
      debounceTimer := None;
      if maxIntervalTimer.Some? {
        maxIntervalTimer := None;
      }
      firstEdit := None;
      RunSave();
    }

    method MaxIntervalFires()
      modifies this`debounceTimer, this`maxIntervalTimer, this`flight, this`outbox, this`dropped, this`firstEdit
      ensures Refs() == TimerFires(old(Refs()))
    {
      maxIntervalTimer := None;
      if debounceTimer.Some? {
        debounceTimer := None;
      }
      firstEdit := None;
      RunSave();
    }

    /** The body of sendPatch after its `await`, for the k-th outstanding request. */
    method RouteResponse(k: nat, answer: Option<Answer>)
      requires k < |outbox|
      modifies this
      ensures Refs() == Routed(old(Refs()), k, answer)
    {
      var sent := outbox[k];
      outbox := Without(outbox, k);
      if !mounted {
        return;
      }
      match answer
      case Some(Saved(updatedAt)) =>
        baseUpdatedAt := updatedAt;
        lastSaved := sent.body.snapshot;
      case Some(Conflict) =>
        conflicted, interrupted := true, true;
        ClearTimers();
      case _ =>
        interrupted := true;
        desynced := desynced || (sent.answer.Some? && sent.answer.value.Saved?);
    }

    method LandResponse(k: nat, answer: Option<Answer>) returns (fireTrailing: bool)
      requires k < |outbox|
      modifies this
      ensures Refs() == Land(old(Refs()), k, answer) && fireTrailing == OnFlightSettled(old(flight)).1
    {
      RouteResponse(k, answer);
      var (state, trailing) := OnFlightSettled(flight);
      flight, fireTrailing := state, trailing;
    }

    /** One flight ends: the routed response, then the `finally` clause. */
    method FlightEnds(k: nat, answer: Option<Answer>)
      requires k < |outbox|
      modifies this
      ensures Refs() == Settle(old(Refs()), k, answer)
    {
      var fireTrailing := LandResponse(k, answer);
      if fireTrailing && mounted && !conflicted {
        RunSave();
      }
    }

    /** The change handlers set the field and schedule. */
    method Edit(snapshot: Snapshot, now: int)
      modifies this`buffer, this`debounceTimer, this`maxIntervalTimer, this`firstEdit, this`interrupted, this`dropped
      ensures Refs() == AutosaveLoop.ScheduleAutosave(old(Refs()).(buffer := snapshot), now)
    {
      buffer := snapshot;
      ScheduleAutosave(now);
    }

    /** Google Docs holds the document: timers are dropped until it is released. */
    method Lock()
      modifies this`linked, this`debounceTimer, this`maxIntervalTimer, this`interrupted, this`firstEdit
      ensures Refs() == AutosaveLoop.ClearTimers(old(Refs())).(linked := true, interrupted := true, firstEdit := None)
    {
      linked := true;
      ClearTimers();
      interrupted, firstEdit := true, None;
    }

    method Unmount()
      modifies this`mounted, this`debounceTimer, this`maxIntervalTimer
      ensures Refs() == AutosaveLoop.ClearTimers(old(Refs())).(mounted := false)
    {
      mounted := false;
      ClearTimers();
    }
  }

  /** One open editor and the document it saves to. */
  class Session {
    const clamp: Clamp
    const editor: SermonEditor
    var now: int
    var server: Server
    var strays: set<PatchBody>

    ghost function View(): World
      reads this, editor
    {
      World(now, editor.Refs(), server, strays)
    }

    constructor (clamp: Clamp, editor: SermonEditor, now: int, server: Server)
      ensures this.clamp == clamp && this.editor == editor && View() == World(now, editor.Refs(), server, {})
    {
      this.clamp, this.editor, this.now, this.server, strays := clamp, editor, now, server, {};
    }

    /** Whatever happens next, the callbacks together do one step of the loop model. */
    method Perform(e: Event)
      requires Enabled(View(), e)
      modifies this, editor
      ensures View() == Step(clamp, old(View()), e)
    {
      match e
      case Tick(t) => now := t;
      case DebounceFires => editor.DebounceFires();
      case MaxIntervalFires => editor.MaxIntervalFires();
      case ServerHandles(_, _, _) => Transmit(e);
      case StrayArrives(_, _, _) => Transmit(e);
      case Response(k) => editor.FlightEnds(k, editor.outbox[k].answer);
      case Lose(k) => GiveUp(k);
      case _ => UserActs(e);
    }

    /** A request reaches the server. */
    method Transmit(e: Event)
      requires Enabled(View(), e) && (e.ServerHandles? || e.StrayArrives?)
      modifies this`server, editor`outbox, editor`desynced
      ensures View() == Step(clamp, old(View()), e)
    {
      if e.ServerHandles? {
        Deliver(e.k, e.accept, e.stamp);
      } else {
        DeliverStray(e.body, e.accept, e.stamp);
      }
    }

    /** The promise rejects; the request may still be on its way. */
    method GiveUp(k: nat)
      requires k < |editor.outbox|
      modifies this`strays, editor
      ensures strays == old(strays) + Stray(old(editor.outbox[k])) && editor.Refs() == Settle(old(editor.Refs()), k, None)
    {
      strays := strays + Stray(editor.outbox[k]);
      editor.FlightEnds(k, None);
    }

    method UserActs(e: Event)
      requires e.Edit? || e.Lock? || e.Unlock? || e.Unmount?
      modifies editor
      ensures editor.Refs() == if e.Edit? then ScheduleAutosave(old(editor.Refs()).(buffer := e.buffer), now)
                               else if e.Lock? then
                                 ClearTimers(old(editor.Refs())).(linked := true, interrupted := true, firstEdit := None)
                               else if e.Unlock? then old(editor.Refs()).(linked := false)
                               else ClearTimers(old(editor.Refs())).(mounted := false)
    {
      if e.Edit? {
        editor.Edit(e.buffer, now);
      } else if e.Lock? {
        editor.Lock();
      } else if e.Unlock? {
        editor.linked := false;
      } else {
        editor.Unmount();
      }
    }

    method DeliverStray(body: PatchBody, accept: bool, stamp: Stamp)
      modifies this`server, editor`desynced
      ensures var (s, answer) := Handle(clamp, old(server), body, accept, stamp);
              server == s
              && editor.Refs() == old(editor.Refs()).(desynced := old(editor.desynced) || (old(editor.mounted) && answer.Saved?))
    {
      var (s, answer) := Handle(clamp, server, body, accept, stamp);
      server := s;
      editor.desynced := editor.desynced || (editor.mounted && answer.Saved?);
    }

    method Deliver(k: nat, accept: bool, stamp: Stamp)
      requires k < |editor.outbox|
      modifies this`server, editor`outbox
      ensures var (s, answer) := Handle(clamp, old(server), old(editor.outbox[k]).body, accept, stamp);
              var answered := old(editor.outbox[k]).(answer := Some(answer));
              server == s && editor.Refs() == old(editor.Refs()).(outbox := old(editor.outbox)[k := answered])
    {
      var sent := editor.outbox[k];
      var (s, answer) := Handle(clamp, server, sent.body, accept, stamp);
      server := s;
      editor.outbox := editor.outbox[k := sent.(answer := Some(answer))];
    }

    /**
     Any sequence of events, those that cannot happen skipped: the editor runs as the loop model does,
     so what holds in every run of the model holds of its refs.
    */
    method Play(events: seq<Event>) returns (es: seq<Event>, ghost ws: seq<World>)
      requires Initial(View())
      modifies this, editor
      ensures Run(clamp, ws, es) && ws[0] == old(View()) && ws[|es|] == View()
      ensures |editor.outbox| <= 1 && (editor.flight.inFlight <==> |editor.outbox| == 1)
      ensures editor.mounted && !editor.desynced ==> !editor.conflicted
    {
      es, ws := [], [View()];
      for i := 0 to |events|
        invariant Run(clamp, ws, es) && ws[0] == old(View()) && ws[|es|] == View()
      {
        var ready := Ready(events[i]);
        if ready {
          Perform(events[i]);
          RunGrows(clamp, ws, es, events[i]);
          es, ws := es + [events[i]], ws + [View()];
        }
      }
      RunKeepsInv(clamp, ws, es, |es|);
    }

    method Ready(e: Event) returns (ready: bool)
      ensures ready <==> Enabled(View(), e)
    {
      ready := match e
        case Tick(t) => now <= t && (editor.debounceTimer.Some? ==> t <= editor.debounceTimer.value)
                        && (editor.maxIntervalTimer.Some? ==> t <= editor.maxIntervalTimer.value)
        case DebounceFires => Due(editor.debounceTimer, now)
        case MaxIntervalFires => Due(editor.maxIntervalTimer, now)
        case ServerHandles(k, _, stamp) => k < |editor.outbox| && editor.outbox[k].answer.None? && server.updatedAt < stamp
        case Response(k) => k < |editor.outbox| && editor.outbox[k].answer.Some?
        case Lose(k) => k < |editor.outbox|
        case StrayArrives(body, _, stamp) => body in strays && server.updatedAt < stamp
        case _ => editor.mounted;
    }
  }

  lemma RunGrows(clamp: Clamp, ws: seq<World>, es: seq<Event>, e: Event)
    requires Run(clamp, ws, es) && Enabled(ws[|es|], e)
    ensures Run(clamp, ws + [Step(clamp, ws[|es|], e)], es + [e])
  {
    var vs, fs := ws + [Step(clamp, ws[|es|], e)], es + [e];
    forall i | 0 <= i < |fs| ensures StepAt(clamp, vs, fs, i) {
      if i < |es| {
        assert StepAt(clamp, ws, es, i);
      }
    }
  }
}
