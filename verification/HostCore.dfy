/** What each host command does: validation and decision, then registry, repository and stream effects. */
module HostCore {
  import opened Options
  import opened Sequences
  import opened Protocol
  import opened Registry
  import opened Coalescing

  const STALE_SESSION_MS := 30 * 60 * 1_000

  /** The durable side, by its trait contract: rows keyed by id, events trimmed to the window. */
  datatype Repo = Repo(sessions: map<string, Session>, events: map<string, seq<Event>>, keys: set<string>)

  datatype Host = Host(
    reg: Registry, settings: Settings, adapters: seq<Adapter>, metrics: Option<MetricsFrame>, pending: Pending,
    repo: Repo, sequence: nat, emitted: seq<Frame>)

  datatype Command =
    | SessionStart(key: Option<string>, source: AgentSource, externalId: string, labelText: string,
                   workspace: Option<string>, status: SessionStatus, at: int)
    | SessionUpdate(source: AgentSource, externalId: string, newStatus: Option<SessionStatus>, newLabel: Option<string>,
                    workspace: Option<string>, at: int)
    | SessionEnd(source: AgentSource, externalId: string, status: SessionStatus, at: int, endSummary: Option<string>)
    | LifecycleNote(source: AgentSource, externalId: string, level: EventLevel, summary: string, at: int)
    | ToolNote(source: AgentSource, externalId: string, level: EventLevel, summary: string, tool: Option<string>,
               at: int)
    | SetAttention(source: AgentSource, externalId: string, attention: AttentionKind, level: EventLevel,
                   summary: string, at: int)
    | RegisterProcessRoot(source: AgentSource, externalId: string, root: ProcessIdentity, at: int)
    | IntegrationHealth(adapter: Adapter)
    | AcknowledgeAttention(sessionId: string, at: int)
    | ClearProcessRoot(sessionId: string)
    | SetVerifiedTerminal(sessionId: string, terminal: string)
    | RemoveSession(sessionId: string)
    | UpdateSettings(settings: Settings)
    | RecordMetrics(frame: MetricsFrame)
    | Tick(now: int)
    | EmitHeartbeat
    | PurgeMetrics
    | PurgeEvents
    | PruneHistory(cutoff: int)

  datatype Error = Validation | UnsupportedCapability | InvalidTransition | SessionNotFound | SessionCapacity

  /** Choices the code leaves open: the new event id, which of equally old terminal sessions goes,
      and the orders in which hash maps are walked. */
  datatype Choice = Choice(uuid: nat, victim: string, staleOrder: seq<string>, order: seq<string>)

  datatype Draft = Draft(kind: EventKind, level: EventLevel, summary: string, tool: Option<string>, at: int)

  datatype Decision =
    | Refuse(error: Error)
    /** Refused after the session was already overwritten in memory, and in the repository too if `saved`. */
    | RefuseAfter(session: Session, saved: bool, error: Error)
    | Nothing
    | Begin(session: Session, evict: Option<string>)
    | Touch(session: Session, draft: Option<Draft>, announce: bool)

  // ---------------------------------------------------------------- repository contract

  /** A conflicting row keeps its source, external id and start time. */
  function Row(rows: map<string, Session>, s: Session): Session {
    if s.id in rows
    then s.(source := rows[s.id].source, externalId := rows[s.id].externalId, startedAt := rows[s.id].startedAt)
    else s
  }

  function SaveSession(repo: Repo, s: Session): Repo {
    repo.(sessions := repo.sessions[s.id := Row(repo.sessions, s)])
  }

  function DeleteSession(repo: Repo, id: string): Repo {
    repo.(sessions := repo.sessions - {id}, events := repo.events - {id})
  }

  function SaveEvent(repo: Repo, e: Event): Repo {
    var rows := if e.sessionId in repo.events then repo.events[e.sessionId] else [];
    repo.(events := repo.events[e.sessionId := Cap(rows + [e])])
  }

  // ---------------------------------------------------------------- validation

  function AdapterFor(adapters: seq<Adapter>, source: AgentSource): Option<Adapter> {
    if adapters == [] then None
    else if adapters[0].source == source then Some(adapters[0])
    else AdapterFor(adapters[1..], source)
  }

  predicate TakesEvents(h: Host, source: AgentSource) {
    AdapterFor(h.adapters, source).Some? && AdapterFor(h.adapters, source).value.events
  }

  predicate TakesAttention(a: Adapter, attention: AttentionKind) {
    match a.attention
    case FullAttention => true
    case PartialAttention => attention != NoAttention
    case WithoutAttention => attention == NoAttention
  }

  predicate BoundedIfGiven(s: Option<string>, max: nat) { s.Some? ==> Bounded(s.value, max) }

  // ---------------------------------------------------------------- decisions

  function DecideStart(h: Host, cmd: Command, idFor: IdFor, choice: Choice): Decision
    requires cmd.SessionStart?
  {
    if !Bounded(cmd.externalId, MAX_EXTERNAL_SESSION_ID_LEN) || !Bounded(cmd.labelText, MAX_SESSION_LABEL_LEN)
       || !BoundedIfGiven(cmd.workspace, MAX_WORKSPACE_LABEL_LEN) then Refuse(Validation)
    else if KnownKey(h, cmd.key) && Resolve(h.reg, cmd.source, cmd.externalId).Some? then Nothing
    else if !TakesEvents(h, cmd.source) then Refuse(UnsupportedCapability)
    else if !cmd.status.Starting? && !ValidTransition(Starting, cmd.status) then Refuse(InvalidTransition)
    else if Resolve(h.reg, cmd.source, cmd.externalId).Some? then Nothing
    else
      Admit(h.reg, NewSession(cmd, idFor), choice.victim)
  }

  function NewSession(cmd: Command, idFor: IdFor): Session
    requires cmd.SessionStart?
  {
    Session(idFor(cmd.source, cmd.externalId), cmd.source, cmd.externalId, cmd.labelText, cmd.workspace,
            cmd.status, NoAttention, cmd.at, cmd.at, None, None, None, None)
  }

  /** Below capacity nothing goes; at capacity the oldest terminal session makes room. */
  function Admit(r: Registry, s: Session, victim: string): Decision {
    if |r.sessions| < MAX_SESSIONS then Begin(s, None)
    else if IsOldestTerminal(r, victim) then Begin(s, Some(victim))
    else Refuse(SessionCapacity)
  }

  predicate KnownKey(h: Host, key: Option<string>) {
    key.Some? && (key.value in h.reg.idempotency || key.value in h.repo.keys)
  }

  function DecideUpdate(h: Host, cmd: Command): Decision
    requires cmd.SessionUpdate?
  {
    if !Bounded(cmd.externalId, MAX_EXTERNAL_SESSION_ID_LEN) then Refuse(Validation)
    else if !TakesEvents(h, cmd.source) then Refuse(UnsupportedCapability)
    else match Resolve(h.reg, cmd.source, cmd.externalId)
      case None => Refuse(SessionNotFound)
      case Some(s) => UpdateOf(s, cmd)
  }

  function UpdateOf(s: Session, cmd: Command): Decision
    requires cmd.SessionUpdate?
  {
    if !BoundedIfGiven(cmd.newLabel, MAX_SESSION_LABEL_LEN) then Refuse(Validation)
    else
      var labelled := if cmd.newLabel.Some? then s.(labelText := cmd.newLabel.value) else s;
      if !BoundedIfGiven(cmd.workspace, MAX_WORKSPACE_LABEL_LEN) then RefuseAfter(labelled, false, Validation)
      else
        var placed := if cmd.workspace.Some? then labelled.(workspace := cmd.workspace) else labelled;
        if cmd.newStatus.Some? && !ValidTransition(s.status, cmd.newStatus.value)
        then RefuseAfter(placed, false, InvalidTransition)
        else
          var moved := if cmd.newStatus.Some? then placed.(status := cmd.newStatus.value) else placed;
          Touch(moved.(lastEventAt := cmd.at), Some(Draft(StatusEvent, Info, "Session updated", None, cmd.at)), true)
  }

  function DecideEnd(h: Host, cmd: Command): Decision
    requires cmd.SessionEnd?
  {
    if !Bounded(cmd.externalId, MAX_EXTERNAL_SESSION_ID_LEN) then Refuse(Validation)
    else if !TakesEvents(h, cmd.source) then Refuse(UnsupportedCapability)
    else match Resolve(h.reg, cmd.source, cmd.externalId)
      case None => Refuse(SessionNotFound)
      case Some(s) => EndOf(s, cmd)
  }

  function EndOf(s: Session, cmd: Command): Decision
    requires cmd.SessionEnd?
  {
    if !cmd.status.Completed? && !cmd.status.Failed? then Refuse(Validation)
    else if !ValidTransition(s.status, cmd.status) then Refuse(InvalidTransition)
    else
      var ended := s.(status := cmd.status, endedAt := Some(cmd.at), lastEventAt := cmd.at,
                      attention := NoAttention, metric := None);
      var summary := if cmd.endSummary.Some? then cmd.endSummary.value else "Session ended";
      if !Bounded(summary, MAX_EVENT_SUMMARY_LEN) then RefuseAfter(ended, true, Validation)
      else Touch(ended, Some(Draft(Lifecycle, Info, summary, None, cmd.at)), true)
  }

  function DecideNote(h: Host, cmd: Command): Decision
    requires cmd.LifecycleNote? || cmd.ToolNote?
  {
    if !Bounded(cmd.externalId, MAX_EXTERNAL_SESSION_ID_LEN) then Refuse(Validation)
    else if !Bounded(cmd.summary, MAX_EVENT_SUMMARY_LEN) then Refuse(Validation)
    else if cmd.ToolNote? && !BoundedIfGiven(cmd.tool, MAX_TOOL_NAME_LEN) then Refuse(Validation)
    else if !TakesEvents(h, cmd.source) then Refuse(UnsupportedCapability)
    else match Resolve(h.reg, cmd.source, cmd.externalId)
      case None => Refuse(SessionNotFound)
      case Some(s) =>
        var draft := if cmd.ToolNote? then Draft(Tool, cmd.level, cmd.summary, cmd.tool, cmd.at)
                     else Draft(Lifecycle, cmd.level, cmd.summary, None, cmd.at);
        Touch(s.(lastEventAt := cmd.at), Some(draft), false)
  }

  function DecideAttention(h: Host, cmd: Command): Decision
    requires cmd.SetAttention?
  {
    if !Bounded(cmd.externalId, MAX_EXTERNAL_SESSION_ID_LEN) then Refuse(Validation)
    else if !Bounded(cmd.summary, MAX_EVENT_SUMMARY_LEN) then Refuse(Validation)
    else match AdapterFor(h.adapters, cmd.source)
      case None => Refuse(UnsupportedCapability)
      case Some(a) =>
        if !TakesAttention(a, cmd.attention) then Refuse(UnsupportedCapability)
        else match Resolve(h.reg, cmd.source, cmd.externalId)
          case None => Refuse(SessionNotFound)
          case Some(s) => Touch(s.(attention := cmd.attention, lastEventAt := cmd.at),
                                Some(Draft(AttentionEvent, cmd.level, cmd.summary, None, cmd.at)), true)
  }

  function DecideRoot(h: Host, cmd: Command): Decision
    requires cmd.RegisterProcessRoot?
  {
    if !Bounded(cmd.externalId, MAX_EXTERNAL_SESSION_ID_LEN) then Refuse(Validation)
    else match AdapterFor(h.adapters, cmd.source)
      case None => Refuse(UnsupportedCapability)
      case Some(a) =>
        if !a.attributesProcesses then Refuse(UnsupportedCapability)
        else match Resolve(h.reg, cmd.source, cmd.externalId)
          case None => Refuse(SessionNotFound)
          case Some(s) => Touch(s.(processRoot := Some(cmd.root), lastEventAt := cmd.at),
                                Some(Draft(Lifecycle, Info, "Process root registered", None, cmd.at)), true)
  }

  function DecideById(h: Host, cmd: Command): Decision
    requires cmd.AcknowledgeAttention? || cmd.ClearProcessRoot? || cmd.SetVerifiedTerminal?
  {
    if !Bounded(cmd.sessionId, MAX_SESSION_ID_LEN) then Refuse(Validation)
    else if cmd.sessionId !in h.reg.sessions then Refuse(SessionNotFound)
    else
      var s := h.reg.sessions[cmd.sessionId];
      match cmd
      case AcknowledgeAttention(_, at) => Touch(s.(attention := NoAttention, lastEventAt := at), None, true)
      case ClearProcessRoot(_) =>
        if s.processRoot.None? then Nothing else Touch(s.(processRoot := None, metric := None), None, true)
      case SetVerifiedTerminal(_, terminal) => Touch(s.(terminal := Some(terminal)), None, true)
  }

  /** Commands about one session of the registry. */
  predicate AboutSession(cmd: Command) {
    || cmd.SessionStart? || cmd.SessionUpdate? || cmd.SessionEnd? || cmd.LifecycleNote? || cmd.ToolNote?
    || cmd.SetAttention? || cmd.RegisterProcessRoot? || cmd.AcknowledgeAttention? || cmd.ClearProcessRoot?
    || cmd.SetVerifiedTerminal?
  }

  function Decide(h: Host, cmd: Command, idFor: IdFor, choice: Choice): Decision
    requires AboutSession(cmd)
  {
    match cmd
    case SessionStart(_, _, _, _, _, _, _) => DecideStart(h, cmd, idFor, choice)
    case SessionUpdate(_, _, _, _, _, _) => DecideUpdate(h, cmd)
    case SessionEnd(_, _, _, _, _) => DecideEnd(h, cmd)
    case LifecycleNote(_, _, _, _, _) => DecideNote(h, cmd)
    case ToolNote(_, _, _, _, _, _) => DecideNote(h, cmd)
    case SetAttention(_, _, _, _, _, _) => DecideAttention(h, cmd)
    case RegisterProcessRoot(_, _, _, _) => DecideRoot(h, cmd)
    case _ => DecideById(h, cmd)
  }

  // ---------------------------------------------------------------- effects

  /** A change of state together with the payloads it queues. */
  datatype Effect = Effect(host: Host, batch: seq<Payload>)

  function MakeEvent(h: Host, id: string, d: Draft, uuid: nat): Event {
    Event(uuid, id, NextSequence(h.reg, id), d.at, d.kind, d.level, d.summary, d.tool)
  }

  function AppendDraft(h: Host, id: string, d: Draft, uuid: nat): Effect {
    var e := MakeEvent(h, id, d, uuid);
    Effect(h.(reg := Append(h.reg, e).0, repo := SaveEvent(h.repo, e)), [SessionEvent(e)])
  }

  function TouchEffect(h: Host, s: Session, draft: Option<Draft>, announce: bool, uuid: nat): Effect {
    var stored := h.(reg := h.reg.(sessions := h.reg.sessions[s.id := s]), repo := SaveSession(h.repo, s));
    var noted := if draft.Some? then AppendDraft(stored, s.id, draft.value, uuid) else Effect(stored, []);
    noted.(batch := noted.batch + if announce then [SessionUpsert(s)] else [])
  }

  function EvictEffect(h: Host, id: string): Effect
    requires id in h.reg.sessions
  {
    Effect(h.(reg := Remove(h.reg, id), repo := DeleteSession(h.repo, id)), [SessionRemove(id)])
  }

  function BeginEffect(h: Host, s: Session, evict: Option<string>, uuid: nat): Effect
    requires evict.Some? ==> evict.value in h.reg.sessions
  {
    var room := if evict.Some? then EvictEffect(h, evict.value) else Effect(h, []);
    var stored := room.host.(reg := Put(room.host.reg, s), repo := SaveSession(room.host.repo, s));
    var started := AppendDraft(stored, s.id, Draft(Lifecycle, Info, "Session started", None, s.startedAt), uuid);
    Effect(started.host, room.batch + started.batch + [SessionUpsert(s)])
  }

  function Commit(h: Host, d: Decision, uuid: nat): Effect
    requires d.Begin? && d.evict.Some? ==> d.evict.value in h.reg.sessions
  {
    match d
    case Refuse(_) => Effect(h, [])
    case Nothing => Effect(h, [])
    case RefuseAfter(s, saved, _) =>
      Effect(h.(reg := h.reg.(sessions := h.reg.sessions[s.id := s]),
                repo := if saved then SaveSession(h.repo, s) else h.repo), [])
    case Begin(s, evict) => BeginEffect(h, s, evict, uuid)
    case Touch(s, draft, announce) => TouchEffect(h, s, draft, announce, uuid)
  }

  /** A start command's key is stored once its fields are valid, unless it is answered as a replay. */
  function NoteKey(h: Host, cmd: Command): Host {
    if cmd.SessionStart? && cmd.key.Some? && Bounded(cmd.externalId, MAX_EXTERNAL_SESSION_ID_LEN)
       && Bounded(cmd.labelText, MAX_SESSION_LABEL_LEN) && BoundedIfGiven(cmd.workspace, MAX_WORKSPACE_LABEL_LEN)
       && !(KnownKey(h, cmd.key) && Resolve(h.reg, cmd.source, cmd.externalId).Some?)
    then h.(reg := h.reg.(idempotency := h.reg.idempotency + {cmd.key.value}),
            repo := if cmd.key.value in h.reg.idempotency then h.repo
                    else h.repo.(keys := h.repo.keys + {cmd.key.value}))
    else h
  }

  // ---------------------------------------------------------------- whole-registry commands

  predicate GoesStale(s: Session, now: int) {
    !IsTerminal(s.status) && now - s.lastEventAt >= STALE_SESSION_MS
  }

  function Staled(s: Session, now: int): Session { s.(status := Stale, lastEventAt := now, metric := None) }

  function StaleSessions(sessions: map<string, Session>, now: int): map<string, Session> {
    map id | id in sessions && GoesStale(sessions[id], now) :: Staled(sessions[id], now)
  }

  function Measured(id: string, s: Session, frame: MetricsFrame): Session {
    s.(metric := if !IsTerminal(s.status) && id in frame.agents then Some(frame.agents[id]) else None)
  }

  function MeasuredSessions(sessions: map<string, Session>, frame: MetricsFrame): map<string, Session> {
    map id | id in sessions :: Measured(id, sessions[id], frame)
  }

  function Unmeasured(sessions: map<string, Session>): map<string, Session> {
    map id | id in sessions :: sessions[id].(metric := None)
  }

  function Rows(rows: map<string, Session>, changed: map<string, Session>): map<string, Session> {
    map id | id in changed :: Row(rows, changed[id])
  }

  /** The same change for several sessions, in memory and in the repository. */
  function SaveAll(h: Host, changed: map<string, Session>): Host {
    h.(reg := h.reg.(sessions := h.reg.sessions + changed),
       repo := h.repo.(sessions := h.repo.sessions + Rows(h.repo.sessions, changed)))
  }

  /** The first adapter of that source is replaced; a new source goes to the end. */
  function ReplaceFirst(adapters: seq<Adapter>, a: Adapter): seq<Adapter> {
    if adapters == [] then [a]
    else if adapters[0].source == a.source then [a] + adapters[1..]
    else [adapters[0]] + ReplaceFirst(adapters[1..], a)
  }

  function NotBefore(cutoff: int): Event -> bool { (e: Event) => e.occurredAt >= cutoff }

  function Newer(events: map<string, seq<Event>>, cutoff: int): map<string, seq<Event>> {
    map id | id in events && Filter(events[id], NotBefore(cutoff)) != [] :: Filter(events[id], NotBefore(cutoff))
  }

  /** Commands about one session commit their decision; the others act on everything at once. */
  function EffectOf(h: Host, cmd: Command, idFor: IdFor, choice: Choice): Effect {
    if AboutSession(cmd) then Commit(NoteKey(h, cmd), Decide(h, cmd, idFor, choice), choice.uuid)
    else WideEffect(h, cmd, choice.staleOrder)
  }

  function WideEffect(h: Host, cmd: Command, staleOrder: seq<string>): Effect
    requires !AboutSession(cmd)
  {
    match cmd
    case IntegrationHealth(a) => Effect(h.(adapters := ReplaceFirst(h.adapters, a)), [IntegrationChanged(a)])
    case RemoveSession(id) =>
      if Bounded(id, MAX_SESSION_ID_LEN) && id in h.reg.sessions then EvictEffect(h, id) else Effect(h, [])
    case UpdateSettings(settings) => Effect(h.(settings := settings), [SettingsChanged(settings)])
    case RecordMetrics(frame) =>
      Effect(SaveAll(h, MeasuredSessions(h.reg.sessions, frame)).(metrics := Some(frame)), [Metrics(frame)])
    case Tick(now) =>
      var stale := StaleSessions(h.reg.sessions, now);
      Effect(SaveAll(h, stale), UpsertsIn(stale, Known(staleOrder, stale)))
    case EmitHeartbeat => Effect(h, [Heartbeat])
    case PurgeMetrics =>
      Effect(h.(reg := h.reg.(sessions := Unmeasured(h.reg.sessions)), metrics := None,
                repo := h.repo.(sessions := Unmeasured(h.repo.sessions))), [])
    case PurgeEvents => Effect(h.(reg := h.reg.(events := map[]), repo := h.repo.(events := map[])), [])
    case PruneHistory(cutoff) => Effect(h.(repo := h.repo.(events := Newer(h.repo.events, cutoff))), [])
  }

  function Known(order: seq<string>, m: map<string, Session>): (r: seq<string>)
    ensures forall k :: k in r ==> k in m
    ensures (forall k :: k in order ==> k in m) ==> r == order
  {
    if order == [] then []
    else Known(order[..|order| - 1], m) + (if order[|order| - 1] in m then [order[|order| - 1]] else [])
  }

  // ---------------------------------------------------------------- flushing

  function Numbered(payloads: seq<Payload>, after: nat): seq<Frame> {
    seq(|payloads|, i requires 0 <= i < |payloads| => Frame(after + 1 + i, payloads[i]))
  }

  function Flush(h: Host, order: seq<string>): Host
    requires forall k :: k in order ==> k in h.pending.upserts
  {
    var out := Drain(h.pending, order);
    h.(pending := NOTHING, sequence := h.sequence + |out|, emitted := h.emitted + Numbered(out, h.sequence))
  }

  /** One command: its effect, its payloads queued, the queue flushed. */
  function Exec(h: Host, cmd: Command, idFor: IdFor, choice: Choice): Host {
    Publish(EffectOf(h, cmd, idFor, choice), choice)
  }

  function Publish(effect: Effect, choice: Choice): Host {
    var queued := effect.host.(pending := PushAll(effect.host.pending, effect.batch));
    Flush(queued, Known(choice.order, queued.pending.upserts))
  }

  /** The choices a run can make: fresh event ids, a victim whenever there is one, full enumerations. */
  ghost predicate ValidChoice(h: Host, cmd: Command, idFor: IdFor, choice: Choice) {
    && FreshEventId(h.reg, choice.uuid)
    && (cmd.SessionStart? && DecideStart(h, cmd, idFor, choice) == Refuse(SessionCapacity) ==> !HasTerminal(h.reg))
    && (cmd.Tick? ==> IsOrder(choice.staleOrder, StaleSessions(h.reg.sessions, cmd.now).Keys))
    && IsOrder(choice.order, PushAll(h.pending, EffectOf(h, cmd, idFor, choice).batch).upserts.Keys)
  }
}
