/** The renderer's state and reducer. */
module Renderer {
  import opened Options
  import opened Sequences
  import opened Protocol
  import opened Views

  const MAX_EVENTS := 256
  const MAX_SESSION_EVENTS := 96

  datatype Connection = Loading | Connected | Disconnected | Resyncing | IncompatibleProtocol

  /** History and display fields are not part of the model. */
  datatype Native = Native(
    connection: Connection, version: Option<nat>, lastSequence: Option<nat>, resyncReason: Option<string>,
    snapshot: Option<Snapshot>, sessions: map<string, Session>, order: seq<string>,
    events: seq<Event>, bySession: map<string, seq<Event>>, metrics: Option<MetricsFrame>,
    adapters: seq<Adapter>, settings: Option<Settings>, selected: Option<string>, reducedMotion: bool)

  const INITIAL := Native(Loading, None, None, None, None, map[], [], [], map[], None, [], None, None, false)

  datatype Action =
    | SetConnection(status: Connection)
    /** `None` when the received version is not known. */
    | SetProtocolIncompatible(received: Option<nat>)
    | ApplyBootstrap(snapshot: Snapshot, lastSequence: nat, events: seq<Event>)
    | ApplyFrame(frame: Frame)
    | SetResyncReason(reason: string)
    | ClearResync
    | SetSelectedSession(sessionId: Option<string>)
    | Reset

  function IdsOf(sessions: seq<Session>): seq<string> {
    seq(|sessions|, i requires 0 <= i < |sessions| => sessions[i].id)
  }

  function IsNotOf(id: string): Event -> bool { (e: Event) => e.sessionId != id }

  function EventsOf(events: seq<Event>, id: string): seq<Event> { Filter(events, IsOf(id)) }

  function RetainedFor(bySession: map<string, seq<Event>>, id: string): seq<Event> {
    if id in bySession then bySession[id] else []
  }

  // ---------------------------------------------------------------- building blocks

  /** Map and order in one pass; a repeated id is pushed again. */
  method IndexSessions(list: seq<Session>) returns (sessions: map<string, Session>, order: seq<string>)
    ensures sessions == Indexed(list) && order == IdsOf(list)
  {
    sessions, order := map[], [];
    for i := 0 to |list|
      invariant sessions == Indexed(list[..i]) && order == IdsOf(list[..i])
    {
      assert list[..i + 1][..i] == list[..i];
      sessions := sessions[list[i].id := list[i]];
      order := order + [list[i].id];
      assert IdsOf(list[..i + 1]) == IdsOf(list[..i]) + [list[i].id];
    }
    assert list[..|list|] == list;
  }

  function SampledAgents(sessions: seq<Session>): map<string, Metric> {
    if sessions == [] then map[]
    else
      var last := sessions[|sessions| - 1];
      var before := SampledAgents(sessions[..|sessions| - 1]);
      if last.metric.Some? then before[last.id := last.metric.value] else before
  }

  function SnapshotState(st: Native, s: Snapshot, sequence: nat, bootstrap: seq<Event>): Native {
    var sessions := Indexed(s.sessions);
    var events := Last(bootstrap, MAX_EVENTS);
    st.(connection := Connected, version := Some(s.version), lastSequence := Some(sequence), resyncReason := None,
        snapshot := Some(s), sessions := sessions, order := IdsOf(s.sessions), events := events,
        bySession := map id | id in sessions :: Last(EventsOf(events, id), MAX_SESSION_EVENTS),
        adapters := s.adapters, settings := Some(s.settings), reducedMotion := s.settings.reducedMotion,
        metrics := if s.host.Some? && s.aggregate.Some?
                   then Some(MetricsFrame(s.host.value, s.aggregate.value, SampledAgents(s.sessions))) else st.metrics,
        selected := if st.selected.Some? && st.selected.value != "" && st.selected.value in sessions then st.selected
                    else if s.sessions == [] then None else Some(s.sessions[0].id))
  }

  /** The sessions of a list of ids, leaving out unknown ones. */
  function Listed(sessions: map<string, Session>, order: seq<string>): seq<Session> {
    if order == [] then []
    else
      var last := order[|order| - 1];
      Listed(sessions, order[..|order| - 1]) + (if last in sessions then [sessions[last]] else [])
  }

  function Relisted(snapshot: Option<Snapshot>, sessions: map<string, Session>, order: seq<string>): Option<Snapshot> {
    if snapshot.None? then None else Some(snapshot.value.(sessions := Listed(sessions, order)))
  }

  function Normalized(s: Session): Session { if IsTerminal(s.status) then s.(metric := None) else s }

  /** Zeroed host and aggregate samples stand in until a metrics frame arrives. */
  function NotedMetric(metrics: Option<MetricsFrame>, s: Session): Option<MetricsFrame> {
    if s.metric.None? then metrics
    else
      var known := if metrics.Some? then metrics.value else MetricsFrame(0, 0, map[]);
      Some(known.(agents := known.agents[s.id := s.metric.value]))
  }

  function Upserted(st: Native, s: Session): Native {
    var sessions := st.sessions[s.id := Normalized(s)];
    var order := if s.id in st.sessions then st.order else st.order + [s.id];
    st.(sessions := sessions, order := order, snapshot := Relisted(st.snapshot, sessions, order),
        metrics := NotedMetric(st.metrics, Normalized(s)))
  }

  function Removed(st: Native, id: string): Native {
    if id !in st.sessions then st
    else
      var sessions := st.sessions - {id};
      var order := Filter(st.order, (x: string) => x != id);
      st.(sessions := sessions, order := order, snapshot := Relisted(st.snapshot, sessions, order),
          events := Filter(st.events, IsNotOf(id)), bySession := st.bySession - {id},
          metrics := if st.metrics.Some?
                     then Some(st.metrics.value.(agents := st.metrics.value.agents - {id})) else None,
          selected := if st.selected == Some(id) then None else st.selected)
  }

  function Appended(st: Native, e: Event): Native {
    st.(events := Last(st.events + [e], MAX_EVENTS),
        bySession := st.bySession[
          e.sessionId := Last(RetainedFor(st.bySession, e.sessionId) + [e], MAX_SESSION_EVENTS)])
  }

  function WithSample(id: string, s: Session, frame: MetricsFrame): Session {
    s.(metric := if !IsTerminal(s.status) && id in frame.agents then Some(frame.agents[id]) else None)
  }

  function Measured(st: Native, frame: MetricsFrame): Native {
    var sessions := map id | id in st.sessions :: WithSample(id, st.sessions[id], frame);
    st.(sessions := sessions,
        snapshot := if st.snapshot.None? then None else
          var listed := st.snapshot.value.sessions;
          Some(st.snapshot.value.(sessions := seq(|listed|, i requires 0 <= i < |listed| =>
            if listed[i].id in sessions then sessions[listed[i].id] else listed[i].(metric := None)))))
  }

  function AppliedFrame(st: Native, f: Frame): Native {
    match f.payload
    case FullSnapshot(s) => SnapshotState(st, s, f.sequence, [])
    case SessionUpsert(s) => Upserted(st, s).(lastSequence := Some(f.sequence))
    case SessionRemove(id) => Removed(st, id).(lastSequence := Some(f.sequence))
    case SessionEvent(e) => Appended(st, e).(lastSequence := Some(f.sequence))
    case Metrics(m) => Measured(st, m).(metrics := Some(m), lastSequence := Some(f.sequence))
    case SettingsChanged(settings) =>
      st.(settings := Some(settings), reducedMotion := settings.reducedMotion, lastSequence := Some(f.sequence),
          snapshot := if st.snapshot.None? then None else Some(st.snapshot.value.(settings := settings)))
    case IntegrationChanged(a) =>
      var adapters := MergeAdapter(st.adapters, a);
      st.(adapters := adapters, lastSequence := Some(f.sequence),
          snapshot := if st.snapshot.None? then None else Some(st.snapshot.value.(adapters := adapters)))
    case Heartbeat => st.(lastSequence := Some(f.sequence))
    case ResyncRequired(reason) =>
      st.(connection := Resyncing, resyncReason := Some(reason), lastSequence := Some(f.sequence))
  }

  function Reduce(st: Native, action: Action): Native {
    match action
    case SetConnection(status) => st.(connection := status)
    case SetProtocolIncompatible(received) => st.(connection := IncompatibleProtocol, version := received)
    case ApplyBootstrap(s, sequence, events) =>
      if s.version != PROTOCOL_VERSION then st.(connection := IncompatibleProtocol, version := Some(s.version))
      else SnapshotState(st, s, sequence, events)
    case ApplyFrame(f) => AppliedFrame(st, f)
    case SetResyncReason(reason) => st.(connection := Resyncing, resyncReason := Some(reason))
    case ClearResync => st.(resyncReason := None)
    case SetSelectedSession(id) => st.(selected := id)
    case Reset => INITIAL
  }

  // ---------------------------------------------------------------- mirrors in step

  predicate IsSuffix<T(==)>(a: seq<T>, b: seq<T>) { |a| <= |b| && b[|b| - |a|..] == a }

  /** The order lists every session of the map exactly once. */
  ghost predicate OrderOk(sessions: map<string, Session>, order: seq<string>) {
    && Distinct(order)
    && (forall id :: id in order <==> id in sessions)
    && (forall id :: id in sessions ==> sessions[id].id == id)
  }

  /** A present snapshot repeats sessions, adapters and settings. */
  predicate SnapshotMirrors(st: Native) {
    st.snapshot.Some? ==>
      && st.snapshot.value.sessions == Listed(st.sessions, st.order)
      && st.snapshot.value.adapters == st.adapters
      && st.settings == Some(st.snapshot.value.settings)
  }

  predicate SettingsMirror(st: Native) { st.settings.Some? ==> st.reducedMotion == st.settings.value.reducedMotion }

  ghost predicate EventCaps(st: Native) {
    |st.events| <= MAX_EVENTS && forall id :: id in st.bySession ==> |st.bySession[id]| <= MAX_SESSION_EVENTS
  }

  /** What the global list still holds of a session ends that session's own list. */
  predicate EventsAgree(events: seq<Event>, bySession: map<string, seq<Event>>, id: string) {
    IsSuffix(Last(EventsOf(events, id), MAX_SESSION_EVENTS), RetainedFor(bySession, id))
  }

  ghost predicate EventsMirror(st: Native) { forall id :: EventsAgree(st.events, st.bySession, id) }

  ghost predicate MirrorsOk(st: Native) {
    && OrderOk(st.sessions, st.order) && SnapshotMirrors(st) && SettingsMirror(st)
    && EventCaps(st) && EventsMirror(st)
  }
}
