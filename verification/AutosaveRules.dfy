/** The pure autosave decisions of web/lib/sermon-autosave.ts. */
module AutosaveRules {
  import opened Common

  const DEBOUNCE_MS := 2000
  const MAX_INTERVAL_MS := 15000

  type Stamp = int  // an `updated_at` value

  /** `content` is the serialized ProseMirror tree. */
  datatype Snapshot = Snapshot(title: string, content: string, scopeBooks: seq<string>, scopeCollections: seq<string>)

  predicate IsDirty(lastSaved: Option<Snapshot>, next: Snapshot) {
    if lastSaved.None? then true
    else if lastSaved.value.title != next.title then true
    else if lastSaved.value.scopeBooks != next.scopeBooks then true
    else if lastSaved.value.scopeCollections != next.scopeCollections then true
    else lastSaved.value.content != next.content
  }

  datatype PatchBody = PatchBody(base: Stamp, snapshot: Snapshot)

  function BuildPatchBody(snapshot: Snapshot, base: Stamp): PatchBody {
    PatchBody(base, snapshot)
  }

  datatype FlightState = FlightState(inFlight: bool, pending: bool)

  const IDLE := FlightState(false, false)

  function OnSaveRequested(state: FlightState): (r: (FlightState, bool))
    ensures r.0.inFlight
    ensures r.1 <==> !state.inFlight  // never starts a save while another is in flight
    ensures r.0.pending <==> state.inFlight
  {
    if state.inFlight then (FlightState(true, true), false) else (FlightState(true, false), true)
  }

  function OnFlightSettled(state: FlightState): (r: (FlightState, bool))
    ensures r.0 == IDLE && (r.1 <==> state.pending)
  {
    if state.pending then (IDLE, true) else (IDLE, false)
  }
}
