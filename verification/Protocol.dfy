/** Entities shared by the host core and the renderer. */
module Protocol {
  import opened Options

  const PROTOCOL_VERSION := 1
  const MAX_SESSIONS := 128
  const MAX_EVENTS_PER_SESSION := 10_000
  const MAX_EXTERNAL_SESSION_ID_LEN := 256
  const MAX_SESSION_LABEL_LEN := 256
  const MAX_WORKSPACE_LABEL_LEN := 256
  const MAX_EVENT_SUMMARY_LEN := 512
  const MAX_TOOL_NAME_LEN := 128
  const MAX_SESSION_ID_LEN := 64

  datatype AgentSource = Cursor | ClaudeCode | Codex | Gemini | AntigravityCli | CopilotCli | Qwen | Generic | Unknown
  datatype SessionStatus = Starting | Running | Waiting | Paused | Completed | Failed | Stale
  datatype AttentionKind = NoAttention | Approval | Question | Permission | ErrorAttention
  datatype EventKind = Lifecycle | Tool | AttentionEvent | StatusEvent
  datatype EventLevel = Debug | Info | Warning | ErrorLevel
  datatype AttentionCapability = FullAttention | PartialAttention | WithoutAttention

  datatype ProcessIdentity = ProcessIdentity(pid: nat, startedAt: int)
  datatype Metric = Metric(sample: int)

  datatype Session = Session(
    id: string, source: AgentSource, externalId: string, labelText: string, workspace: Option<string>,
    status: SessionStatus, attention: AttentionKind, startedAt: int, lastEventAt: int, endedAt: Option<int>,
    processRoot: Option<ProcessIdentity>, terminal: Option<string>, metric: Option<Metric>)

  datatype Event = Event(
    id: nat, sessionId: string, sequence: nat, occurredAt: int, kind: EventKind, level: EventLevel,
    summary: string, tool: Option<string>)

  datatype Settings = Settings(reducedMotion: bool, rest: int)

  datatype Adapter = Adapter(source: AgentSource, events: bool, attention: AttentionCapability,
                             attributesProcesses: bool, rest: int)

  datatype MetricsFrame = MetricsFrame(host: int, aggregate: int, agents: map<string, Metric>)

  datatype Snapshot = Snapshot(
    version: nat, sessions: seq<Session>, settings: Settings, adapters: seq<Adapter>, host: Option<int>,
    aggregate: Option<int>)

  datatype Payload =
    | FullSnapshot(snapshot: Snapshot)
    | SessionUpsert(session: Session)
    | SessionRemove(sessionId: string)
    | SessionEvent(event: Event)
    | Metrics(metrics: MetricsFrame)
    | SettingsChanged(settings: Settings)
    | IntegrationChanged(integration: Adapter)
    | Heartbeat
    | ResyncRequired(reason: string)

  datatype Frame = Frame(sequence: nat, payload: Payload)

  predicate IsTerminal(status: SessionStatus) { status.Completed? || status.Failed? || status.Stale? }

  predicate ValidTransition(from: SessionStatus, to: SessionStatus) {
    || from == to
    || to.Stale?
    || match from
       case Starting => to.Running? || to.Failed?
       case Running => to.Waiting? || to.Paused? || to.Completed? || to.Failed?
       case Waiting => to.Running? || to.Paused? || to.Completed? || to.Failed?
       case Paused => to.Running? || to.Waiting? || to.Completed? || to.Failed?
       case _ => false
  }

  function IsOf(id: string): Event -> bool { (e: Event) => e.sessionId == id }

  predicate Bounded(s: string, max: nat) { 0 < |s| <= max }
}
