/** What each accepted host command does, in its caller's terms: the stored session, its event window,
    and the events told to the stream. */
module HostEffects {
  import opened Options
  import opened Sequences
  import opened Protocol
  import opened Registry
  import opened Views
  import opened Coalescing
  import opened HostCore
  import opened HostSync
  import opened HostRuns
  import opened HostSteps

  // ---------------------------------------------------------------- events on the stream

  lemma {:induction false} EventsOfOthers(batch: seq<Payload>)
    ensures EventsIn(Filter(batch, IsOther)) == EventsIn(batch)
  {
    if batch != [] {
      var init, last := batch[..|batch| - 1], batch[|batch| - 1];
      EventsOfOthers(init);
      FilterOthers(batch);
      EventsInSnoc(Filter(init, IsOther), last);
    }
  }

  /** Coalescing drops no event and keeps their order, whatever the drain order. */
  lemma CoalescingKeepsEvents(batch: seq<Payload>, order: seq<string>)
    requires forall k :: k in order ==> k in PushAll(NOTHING, batch).upserts
    ensures EventsIn(Drain(PushAll(NOTHING, batch), order)) == EventsIn(batch)
  {
    var c := PushAll(NOTHING, batch);
    var ups := UpsertsIn(c.upserts, order);
    var tail := if c.metrics.Some? then [Metrics(c.metrics.value)] else [];
    PendingAfter(batch, "");
    EventsOfOthers(batch);
    NoEventsIn(ups);
    NoEventsIn(tail);
    EventsInConcat(c.other, ups);
    EventsInConcat(c.other + ups, tail);
  }

  // ---------------------------------------------------------------- what a command leaves behind

  function WindowIn(events: map<string, seq<Event>>, id: string): seq<Event> {
    if id in events then events[id] else []
  }

  /** The number after the last one in a window. */
  function NumberAfter(w: seq<Event>): nat { if w == [] then 1 else w[|w| - 1].sequence + 1 }

  /** One event joins its session's window, whose oldest goes when it is full, and is told to the stream. */
  ghost predicate EventNoted(before: Host, after: Host, e: Event) {
    && e.sequence == NumberAfter(WindowIn(before.reg.events, e.sessionId))
    && after.reg.events ==
         before.reg.events[e.sessionId := Last(WindowIn(before.reg.events, e.sessionId) + [e], MAX_EVENTS_PER_SESSION)]
    && EventsIn(Payloads(after.emitted)) == EventsIn(Payloads(before.emitted)) + [e]
  }

  ghost predicate NoEventNoted(before: Host, after: Host) {
    after.reg.events == before.reg.events && EventsIn(Payloads(after.emitted)) == EventsIn(Payloads(before.emitted))
  }

  /** One session is now `s`; all others, the index, settings, adapters and metrics are as before. */
  predicate SessionIs(before: Host, after: Host, s: Session) {
    && after.reg.sessions == before.reg.sessions[s.id := s] && after.reg.index == before.reg.index
    && after.settings == before.settings && after.adapters == before.adapters && after.metrics == before.metrics
  }

  function EventAfter(h: Host, id: string, d: Draft, uuid: nat): Event {
    Event(uuid, id, NumberAfter(WindowIn(h.reg.events, id)), d.at, d.kind, d.level, d.summary, d.tool)
  }

  // ---------------------------------------------------------------- finding session and adapter

  predicate IsSession(h: Host, id: string, source: AgentSource, externalId: string) {
    id in h.reg.sessions && h.reg.sessions[id].source == source && h.reg.sessions[id].externalId == externalId
  }

  ghost predicate KnownSession(h: Host, source: AgentSource, externalId: string) {
    exists id :: IsSession(h, id, source, externalId)
  }

  predicate IsAdapter(h: Host, a: Adapter, source: AgentSource) { a in h.adapters && a.source == source }

  lemma SessionFound(idFor: IdFor, h: Host, id: string, source: AgentSource, externalId: string)
    requires RegistryOk(idFor, h.reg) && IsSession(h, id, source, externalId)
    ensures Resolve(h.reg, source, externalId) == Some(h.reg.sessions[id])
    ensures h.reg.sessions[id].id == id && Bounded(externalId, MAX_EXTERNAL_SESSION_ID_LEN)
  {
    assert Keys(h.reg.sessions)[id] == KeyOf(h.reg.sessions[id]);
  }

  /** A session is found exactly when one with that source and external id is stored. */
  lemma FoundExactly(idFor: IdFor, h: Host, source: AgentSource, externalId: string)
    requires RegistryOk(idFor, h.reg)
    ensures Resolve(h.reg, source, externalId).Some? <==> KnownSession(h, source, externalId)
  {
    var k := ExternalKey(source, externalId);
    if k in h.reg.index {
      var id := h.reg.index[k];
      assert id in Keys(h.reg.sessions) && Keys(h.reg.sessions)[id] == k;
      ExternalKeyInjective(h.reg.sessions[id].source, h.reg.sessions[id].externalId, source, externalId);
      assert IsSession(h, id, source, externalId);
    }
    if KnownSession(h, source, externalId) {
      var id :| IsSession(h, id, source, externalId);
      SessionFound(idFor, h, id, source, externalId);
    }
  }

  lemma {:induction false} AdapterFound(adapters: seq<Adapter>, a: Adapter)
    requires UniqueSources(adapters) && a in adapters
    ensures AdapterFor(adapters, a.source) == Some(a)
  {
    if adapters[0] != a {
      var i :| 0 <= i < |adapters| && adapters[i] == a;
      AdapterFound(adapters[1..], a);
    }
  }

  // ---------------------------------------------------------------- from decisions to effects

  lemma TouchRegistry(h: Host, s: Session, draft: Option<Draft>, announce: bool, uuid: nat)
    requires s.id in h.reg.sessions
    ensures var after := TouchEffect(h, s, draft, announce, uuid).host;
            && SessionIs(h, after, s)
            && after.reg.events == match draft
                 case None => h.reg.events
                 case Some(d) =>
                   h.reg.events[s.id := Last(WindowIn(h.reg.events, s.id) + [EventAfter(h, s.id, d, uuid)],
                                             MAX_EVENTS_PER_SESSION)]
  {
  }

  lemma TouchTells(h: Host, s: Session, draft: Option<Draft>, announce: bool, uuid: nat)
    requires s.id in h.reg.sessions
    ensures EventsIn(TouchEffect(h, s, draft, announce, uuid).batch) ==
              match draft case None => [] case Some(d) => [EventAfter(h, s.id, d, uuid)]
  {
    var noted := if draft.Some? then [SessionEvent(EventAfter(h, s.id, draft.value, uuid))] else [];
    var upsert := if announce then [SessionUpsert(s)] else [];
    assert TouchEffect(h, s, draft, announce, uuid).batch == noted + upsert;
    EventsInConcat(noted, upsert);
    NoEventsIn(upsert);
    if draft.Some? { assert noted[..0] == []; }
  }

  /** The state and the events of an effect, after flushing. */
  ghost predicate Reaches(h: Host, after: Host, effect: Effect) {
    && after.reg == effect.host.reg && after.settings == effect.host.settings
    && after.adapters == effect.host.adapters && after.metrics == effect.host.metrics
    && after.repo == effect.host.repo
    && EventsIn(Payloads(after.emitted)) == EventsIn(Payloads(h.emitted)) + EventsIn(effect.batch)
  }

  lemma ExecReaches(idFor: IdFor, h: Host, cmd: Command, choice: Choice)
    requires Injective(idFor) && CoreOk(idFor, h) && ValidChoice(h, cmd, idFor, choice)
    ensures Reaches(h, Exec(h, cmd, idFor, choice), EffectOf(h, cmd, idFor, choice))
  {
    EffectKeeps(idFor, h, cmd, choice);
    PublishReaches(h, EffectOf(h, cmd, idFor, choice), choice);
  }

  lemma PublishReaches(h: Host, effect: Effect, choice: Choice)
    requires h.pending == NOTHING && Frames(h, effect.host)
    requires |h.emitted| == h.sequence
    requires IsOrder(choice.order, PushAll(h.pending, effect.batch).upserts.Keys)
    ensures Reaches(h, Publish(effect, choice), effect)
  {
    PublishShape(h, effect, choice);
    CoalescingKeepsEvents(effect.batch, choice.order);
    EventsInConcat(Payloads(h.emitted), Drain(PushAll(NOTHING, effect.batch), choice.order));
  }

  /** The session is stored; its event, if any, is noted. */
  ghost predicate Touched(h: Host, after: Host, s: Session, draft: Option<Draft>, uuid: nat) {
    && SessionIs(h, after, s)
    && match draft
       case None => NoEventNoted(h, after)
       case Some(d) => EventNoted(h, after, EventAfter(h, s.id, d, uuid))
  }

  lemma TouchedHost(h: Host, after: Host, s: Session, draft: Option<Draft>, announce: bool, uuid: nat)
    requires s.id in h.reg.sessions && Reaches(h, after, TouchEffect(h, s, draft, announce, uuid))
    ensures Touched(h, after, s, draft, uuid)
  {
    TouchRegistry(h, s, draft, announce, uuid);
    TouchTells(h, s, draft, announce, uuid);
  }

  lemma DecidedEffect(h: Host, cmd: Command, idFor: IdFor, choice: Choice, d: Decision)
    requires AboutSession(cmd) && Decide(h, cmd, idFor, choice) == d && Evictable(d, h)
    ensures EffectOf(h, cmd, idFor, choice) == Commit(NoteKey(h, cmd), d, choice.uuid)
  {
  }

  lemma TouchIsEffect(h: Host, cmd: Command, idFor: IdFor, choice: Choice, s: Session, draft: Option<Draft>,
                      announce: bool)
    requires AboutSession(cmd) && !cmd.SessionStart? && Decide(h, cmd, idFor, choice) == Touch(s, draft, announce)
    ensures EffectOf(h, cmd, idFor, choice) == TouchEffect(h, s, draft, announce, choice.uuid)
  {
    DecidedEffect(h, cmd, idFor, choice, Touch(s, draft, announce));
  }

  lemma ExecTouches(idFor: IdFor, h: Host, cmd: Command, choice: Choice, s: Session, draft: Option<Draft>,
                    announce: bool)
    requires Injective(idFor) && CoreOk(idFor, h) && ValidChoice(h, cmd, idFor, choice)
    requires AboutSession(cmd) && !cmd.SessionStart? && s.id in h.reg.sessions
    requires Decide(h, cmd, idFor, choice) == Touch(s, draft, announce)
    ensures Touched(h, Exec(h, cmd, idFor, choice), s, draft, choice.uuid)
  {
    ExecReaches(idFor, h, cmd, choice);
    TouchIsEffect(h, cmd, idFor, choice, s, draft, announce);
    TouchedHost(h, Exec(h, cmd, idFor, choice), s, draft, announce, choice.uuid);
  }

  // ---------------------------------------------------------------- what a handler needs

  lemma FindsBoth(idFor: IdFor, h: Host, id: string, a: Adapter, source: AgentSource, externalId: string)
    requires CoreOk(idFor, h) && IsSession(h, id, source, externalId) && IsAdapter(h, a, source)
    ensures Resolve(h.reg, source, externalId) == Some(h.reg.sessions[id]) && h.reg.sessions[id].id == id
    ensures Bounded(externalId, MAX_EXTERNAL_SESSION_ID_LEN) && AdapterFor(h.adapters, source) == Some(a)
    ensures TakesEvents(h, source) <==> a.events
  {
    SessionFound(idFor, h, id, source, externalId);
    AdapterFound(h.adapters, a);
  }

  /** Commands that name a session by its source and external id. */
  predicate ByName(cmd: Command) {
    || cmd.SessionUpdate? || cmd.SessionEnd? || cmd.LifecycleNote? || cmd.ToolNote? || cmd.SetAttention?
    || cmd.RegisterProcessRoot?
  }

  /** What a command asks of the session it names and of the integration it comes from. */
  predicate Admissible(cmd: Command, s: Session, a: Adapter)
    requires ByName(cmd)
  {
    match cmd
    case SessionUpdate(_, _, status, name, workspace, _) =>
      && a.events && (name.Some? ==> Bounded(name.value, MAX_SESSION_LABEL_LEN))
      && (workspace.Some? ==> Bounded(workspace.value, MAX_WORKSPACE_LABEL_LEN))
      && (status.Some? ==> ValidTransition(s.status, status.value))
    case SessionEnd(_, _, status, _, summary) =>
      && a.events && (status.Completed? || status.Failed?) && ValidTransition(s.status, status)
      && (summary.Some? ==> Bounded(summary.value, MAX_EVENT_SUMMARY_LEN))
    case LifecycleNote(_, _, _, summary, _) => a.events && Bounded(summary, MAX_EVENT_SUMMARY_LEN)
    case ToolNote(_, _, _, summary, tool, _) =>
      a.events && Bounded(summary, MAX_EVENT_SUMMARY_LEN) && (tool.Some? ==> Bounded(tool.value, MAX_TOOL_NAME_LEN))
    case SetAttention(_, _, attention, _, summary, _) =>
      && Bounded(summary, MAX_EVENT_SUMMARY_LEN)
      && (a.attention.FullAttention? || (a.attention.PartialAttention? <==> attention != NoAttention))
    case RegisterProcessRoot(_, _, _, _) => a.attributesProcesses
  }

  /** What an admissible command makes of the session. */
  function Becomes(cmd: Command, s: Session): Session
    requires ByName(cmd)
  {
    match cmd
    case SessionUpdate(_, _, status, name, workspace, at) =>
      s.(labelText := if name.Some? then name.value else s.labelText,
         workspace := if workspace.Some? then workspace else s.workspace,
         status := if status.Some? then status.value else s.status,
         lastEventAt := at)
    case SessionEnd(_, _, status, at, _) =>
      s.(status := status, endedAt := Some(at), lastEventAt := at, attention := NoAttention, metric := None)
    case LifecycleNote(_, _, _, _, at) => s.(lastEventAt := at)
    case ToolNote(_, _, _, _, _, at) => s.(lastEventAt := at)
    case SetAttention(_, _, attention, _, _, at) => s.(attention := attention, lastEventAt := at)
    case RegisterProcessRoot(_, _, root, at) => s.(processRoot := Some(root), lastEventAt := at)
  }

  /** The event an admissible command leaves, but for its number. */
  function Notes(cmd: Command): Draft
    requires ByName(cmd)
  {
    match cmd
    case SessionUpdate(_, _, _, _, _, at) => Draft(StatusEvent, Info, "Session updated", None, at)
    case SessionEnd(_, _, _, at, summary) =>
      Draft(Lifecycle, Info, if summary.Some? then summary.value else "Session ended", None, at)
    case LifecycleNote(_, _, level, summary, at) => Draft(Lifecycle, level, summary, None, at)
    case ToolNote(_, _, level, summary, tool, at) => Draft(Tool, level, summary, tool, at)
    case SetAttention(_, _, _, level, summary, at) => Draft(AttentionEvent, level, summary, None, at)
    case RegisterProcessRoot(_, _, _, at) => Draft(Lifecycle, Info, "Process root registered", None, at)
  }

  lemma AttentionFits(a: Adapter, attention: AttentionKind)
    ensures TakesAttention(a, attention) <==>
              a.attention.FullAttention? || (a.attention.PartialAttention? <==> attention != NoAttention)
  {
  }

  lemma DecidedByName(idFor: IdFor, h: Host, cmd: Command, choice: Choice, id: string, a: Adapter)
    requires CoreOk(idFor, h) && ByName(cmd)
    requires IsSession(h, id, cmd.source, cmd.externalId) && IsAdapter(h, a, cmd.source)
    ensures Admissible(cmd, h.reg.sessions[id], a) ==>
              Decide(h, cmd, idFor, choice) ==
              Touch(Becomes(cmd, h.reg.sessions[id]), Some(Notes(cmd)), !cmd.LifecycleNote? && !cmd.ToolNote?)
    ensures Admissible(cmd, h.reg.sessions[id], a) <==> Refusal(h, cmd, idFor, choice).None?
  {
    FindsBoth(idFor, h, id, a, cmd.source, cmd.externalId);
    if cmd.SessionUpdate? {
      if a.events { DecidedUpdate(cmd, h.reg.sessions[id], a); }
    } else if cmd.SessionEnd? {
      if a.events { DecidedEnd(cmd, h.reg.sessions[id], a); }
    } else if cmd.SetAttention? {
      AttentionFits(a, cmd.attention);
    }
  }

  lemma DecidedUpdate(cmd: Command, s: Session, a: Adapter)
    requires cmd.SessionUpdate? && a.events
    ensures if Admissible(cmd, s, a) then UpdateOf(s, cmd) == Touch(Becomes(cmd, s), Some(Notes(cmd)), true)
            else UpdateOf(s, cmd).Refuse? || UpdateOf(s, cmd).RefuseAfter?
  {
  }

  lemma DecidedEnd(cmd: Command, s: Session, a: Adapter)
    requires cmd.SessionEnd? && a.events
    ensures if Admissible(cmd, s, a) then EndOf(s, cmd) == Touch(Becomes(cmd, s), Some(Notes(cmd)), true)
            else EndOf(s, cmd).Refuse? || EndOf(s, cmd).RefuseAfter?
  {
  }

  // ---------------------------------------------------------------- commands that name a session

  /** Session `id` is the one meant, adapter `a` speaks for its source, and the command fits both. */
  predicate Takes(h: Host, cmd: Command, id: string, a: Adapter)
    requires ByName(cmd)
  {
    && IsSession(h, id, cmd.source, cmd.externalId) && IsAdapter(h, a, cmd.source)
    && Admissible(cmd, h.reg.sessions[id], a)
  }

  /** A command is accepted exactly when some stored session and adapter take it. */
  lemma AcceptedExactly(idFor: IdFor, h: Host, cmd: Command, choice: Choice)
    requires CoreOk(idFor, h) && ByName(cmd)
    ensures Refusal(h, cmd, idFor, choice).None? <==> exists id, a :: Takes(h, cmd, id, a)
  {
    if id, a :| Takes(h, cmd, id, a) {
      DecidedByName(idFor, h, cmd, choice, id, a);
    }
    if Refusal(h, cmd, idFor, choice).None? {
      NeedsBoth(idFor, h, cmd, choice);
      var id :| IsSession(h, id, cmd.source, cmd.externalId);
      var a := AdapterFor(h.adapters, cmd.source).value;
      DecidedByName(idFor, h, cmd, choice, id, a);
      assert Takes(h, cmd, id, a);
    }
  }

  lemma {:induction false} AdapterForIsOne(adapters: seq<Adapter>, source: AgentSource)
    ensures AdapterFor(adapters, source).Some? ==>
              AdapterFor(adapters, source).value in adapters && AdapterFor(adapters, source).value.source == source
  {
    if adapters != [] { AdapterForIsOne(adapters[1..], source); }
  }

  lemma NeedsBoth(idFor: IdFor, h: Host, cmd: Command, choice: Choice)
    requires CoreOk(idFor, h) && ByName(cmd) && Refusal(h, cmd, idFor, choice).None?
    ensures KnownSession(h, cmd.source, cmd.externalId)
    ensures AdapterFor(h.adapters, cmd.source).Some?
    ensures IsAdapter(h, AdapterFor(h.adapters, cmd.source).value, cmd.source)
  {
    FoundExactly(idFor, h, cmd.source, cmd.externalId);
    AdapterForIsOne(h.adapters, cmd.source);
  }

  /** What an accepted command by name does: its session changes as asked, its event is noted, nothing else moves. */
  lemma NamedCommandDoes(idFor: IdFor, h: Host, cmd: Command, choice: Choice, id: string, a: Adapter)
    requires Injective(idFor) && CoreOk(idFor, h) && ValidChoice(h, cmd, idFor, choice)
    requires ByName(cmd) && Takes(h, cmd, id, a)
    ensures SessionIs(h, Exec(h, cmd, idFor, choice), Becomes(cmd, h.reg.sessions[id]))
    ensures EventNoted(h, Exec(h, cmd, idFor, choice), EventAfter(h, id, Notes(cmd), choice.uuid))
  {
    DecidedByName(idFor, h, cmd, choice, id, a);
    var s := Becomes(cmd, h.reg.sessions[id]);
    SessionFound(idFor, h, id, cmd.source, cmd.externalId);
    BecomesKeepsId(cmd, h.reg.sessions[id]);
    ExecTouches(idFor, h, cmd, choice, s, Some(Notes(cmd)), !cmd.LifecycleNote? && !cmd.ToolNote?);
  }

  lemma BecomesKeepsId(cmd: Command, s: Session)
    requires ByName(cmd)
    ensures Becomes(cmd, s).id == s.id
  {
  }

  /** Only session `id` differs, with the given status, label and workspace, its old ones where none is given. */
  ghost predicate OnlyUpdated(before: Registry, after: Registry, id: string, status: Option<SessionStatus>,
                              name: Option<string>, workspace: Option<string>, at: int)
    requires id in before.sessions
  {
    && after.sessions.Keys == before.sessions.Keys && after.index == before.index
    && (forall other :: other in before.sessions && other != id ==> after.sessions[other] == before.sessions[other])
    && var s, t := before.sessions[id], after.sessions[id];
    && t.status == (if status.Some? then status.value else s.status)
    && t.labelText == (if name.Some? then name.value else s.labelText)
    && t.workspace == (if workspace.Some? then workspace else s.workspace)
    && t.lastEventAt == at
    && SameButUpdated(s, t)
  }

  /** An accepted update, field by field. */
  lemma UpdateDoes(idFor: IdFor, h: Host, cmd: Command, choice: Choice, id: string)
    requires Injective(idFor) && CoreOk(idFor, h) && ValidChoice(h, cmd, idFor, choice)
    requires cmd.SessionUpdate? && IsSession(h, id, cmd.source, cmd.externalId)
    requires Refusal(h, cmd, idFor, choice).None?
    ensures OnlyUpdated(h.reg, Exec(h, cmd, idFor, choice).reg, id, cmd.newStatus, cmd.newLabel, cmd.workspace, cmd.at)
    ensures exists e :: EventNoted(h, Exec(h, cmd, idFor, choice), e) && e.sessionId == id && e.occurredAt == cmd.at
                        && e.kind.StatusEvent? && e.level.Info? && e.summary == "Session updated" && e.tool.None?
  {
    NeedsBoth(idFor, h, cmd, choice);
    var a := AdapterFor(h.adapters, cmd.source).value;
    DecidedByName(idFor, h, cmd, choice, id, a);
    NamedCommandDoes(idFor, h, cmd, choice, id, a);
    SessionFound(idFor, h, id, cmd.source, cmd.externalId);
    UpdatedSession(h, Exec(h, cmd, idFor, choice), id, cmd);
  }

  lemma UpdatedSession(h: Host, after: Host, id: string, cmd: Command)
    requires cmd.SessionUpdate? && id in h.reg.sessions && h.reg.sessions[id].id == id
    requires SessionIs(h, after, Becomes(cmd, h.reg.sessions[id]))
    ensures OnlyUpdated(h.reg, after.reg, id, cmd.newStatus, cmd.newLabel, cmd.workspace, cmd.at)
  {
  }

  /** Equal in every field an update cannot set. */
  predicate SameButUpdated(a: Session, b: Session) {
    && a.id == b.id && a.source == b.source && a.externalId == b.externalId && a.attention == b.attention
    && a.startedAt == b.startedAt && a.endedAt == b.endedAt && a.processRoot == b.processRoot
    && a.terminal == b.terminal && a.metric == b.metric
  }

  // ---------------------------------------------------------------- commands by session id

  predicate ById(cmd: Command) { cmd.AcknowledgeAttention? || cmd.ClearProcessRoot? || cmd.SetVerifiedTerminal? }

  /** What a command by id makes of the session; a root that is not there is left alone with its metric. */
  function BecomesById(cmd: Command, s: Session): Session
    requires ById(cmd)
  {
    match cmd
    case AcknowledgeAttention(_, at) => s.(attention := NoAttention, lastEventAt := at)
    case ClearProcessRoot(_) => if s.processRoot.Some? then s.(processRoot := None, metric := None) else s
    case SetVerifiedTerminal(_, terminal) => s.(terminal := Some(terminal))
  }

  predicate NamesStored(h: Host, id: string) { Bounded(id, MAX_SESSION_ID_LEN) && id in h.reg.sessions }

  /** A command by id is accepted exactly for a stored id of legal length. */
  lemma ByIdAcceptedExactly(idFor: IdFor, h: Host, cmd: Command, choice: Choice)
    requires ById(cmd)
    ensures Refusal(h, cmd, idFor, choice).None? <==> NamesStored(h, cmd.sessionId)
  {
    DecidedById(h, cmd, idFor, choice);
  }

  /** An accepted one changes that session only, a refused one none, and neither notes an event. */
  lemma CommandByIdDoes(idFor: IdFor, h: Host, cmd: Command, choice: Choice)
    requires Injective(idFor) && CoreOk(idFor, h) && ValidChoice(h, cmd, idFor, choice) && ById(cmd)
    ensures NoEventNoted(h, Exec(h, cmd, idFor, choice))
    ensures if NamesStored(h, cmd.sessionId)
            then SessionIs(h, Exec(h, cmd, idFor, choice), BecomesById(cmd, h.reg.sessions[cmd.sessionId]))
            else Exec(h, cmd, idFor, choice).reg == h.reg
  {
    DecidedById(h, cmd, idFor, choice);
    ByIdDecisionDoes(idFor, h, cmd, choice, Decide(h, cmd, idFor, choice));
  }

  lemma ByIdDecisionDoes(idFor: IdFor, h: Host, cmd: Command, choice: Choice, d: Decision)
    requires Injective(idFor) && CoreOk(idFor, h) && ValidChoice(h, cmd, idFor, choice)
    requires ById(cmd) && Decide(h, cmd, idFor, choice) == d && ByIdDecision(h, cmd, d)
    ensures NoEventNoted(h, Exec(h, cmd, idFor, choice))
    ensures if NamesStored(h, cmd.sessionId)
            then SessionIs(h, Exec(h, cmd, idFor, choice), BecomesById(cmd, h.reg.sessions[cmd.sessionId]))
            else Exec(h, cmd, idFor, choice).reg == h.reg
  {
    if d.Touch? {
      assert h.reg.sessions[cmd.sessionId].id == cmd.sessionId;
      ExecTouches(idFor, h, cmd, choice, d.session, None, true);
    } else {
      ExecIsQuiet(idFor, h, cmd, choice, d);
      if d.Nothing? { SameSession(h, Exec(h, cmd, idFor, choice), cmd.sessionId); }
    }
  }

  lemma SameSession(h: Host, after: Host, id: string)
    requires id in h.reg.sessions && h.reg.sessions[id].id == id && after.reg == h.reg
    requires after.settings == h.settings && after.adapters == h.adapters && after.metrics == h.metrics
    ensures SessionIs(h, after, h.reg.sessions[id])
  {
    assert h.reg.sessions[id := h.reg.sessions[id]] == h.reg.sessions;
  }

  /** A command refused outright or with nothing to do. */
  lemma ExecIsQuiet(idFor: IdFor, h: Host, cmd: Command, choice: Choice, d: Decision)
    requires Injective(idFor) && CoreOk(idFor, h) && ValidChoice(h, cmd, idFor, choice)
    requires AboutSession(cmd) && Decide(h, cmd, idFor, choice) == d && (d.Refuse? || d.Nothing?)
    ensures var after, noted := Exec(h, cmd, idFor, choice), NoteKey(h, cmd);
            && after.reg == noted.reg && after.settings == noted.settings && after.adapters == noted.adapters
            && after.metrics == noted.metrics && NoteKey(h, cmd).reg.events == h.reg.events
            && NoEventNoted(h, after)
            && (!cmd.SessionStart? ==> noted == h)
  {
    ExecReaches(idFor, h, cmd, choice);
    DecidedEffect(h, cmd, idFor, choice, d);
    QuietEffect(h, Exec(h, cmd, idFor, choice), Effect(NoteKey(h, cmd), []));
  }

  predicate ByIdDecision(h: Host, cmd: Command, d: Decision)
    requires ById(cmd)
  {
    if NamesStored(h, cmd.sessionId)
    then var s := h.reg.sessions[cmd.sessionId];
         d == Touch(BecomesById(cmd, s), None, true) || (d.Nothing? && BecomesById(cmd, s) == s)
    else d.Refuse?
  }

  lemma DecidedById(h: Host, cmd: Command, idFor: IdFor, choice: Choice)
    requires ById(cmd)
    ensures ByIdDecision(h, cmd, Decide(h, cmd, idFor, choice))
  {
  }

  lemma QuietEffect(h: Host, after: Host, effect: Effect)
    requires Reaches(h, after, effect) && forall p :: p in effect.batch ==> !p.SessionEvent?
    ensures EventsIn(Payloads(after.emitted)) == EventsIn(Payloads(h.emitted))
  {
    NoEventsIn(effect.batch);
  }
}
