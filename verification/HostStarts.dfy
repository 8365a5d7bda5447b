/** When a session start is accepted, and what it stores. */
module HostStarts {
  import opened Options
  import opened Protocol
  import opened Registry
  import opened Views
  import opened HostCore
  import opened HostSync
  import opened HostRuns
  import opened HostSteps
  import opened HostEffects

  /** The session a start describes. */
  function Fresh(idFor: IdFor, cmd: Command): Session
    requires cmd.SessionStart?
  {
    Session(id := idFor(cmd.source, cmd.externalId), source := cmd.source, externalId := cmd.externalId,
            labelText := cmd.labelText, workspace := cmd.workspace, status := cmd.status, attention := NoAttention,
            startedAt := cmd.at, lastEventAt := cmd.at, endedAt := None, processRoot := None, terminal := None,
            metric := None)
  }

  predicate StartFits(cmd: Command)
    requires cmd.SessionStart?
  {
    && Bounded(cmd.externalId, MAX_EXTERNAL_SESSION_ID_LEN) && Bounded(cmd.labelText, MAX_SESSION_LABEL_LEN)
    && (cmd.workspace.Some? ==> Bounded(cmd.workspace.value, MAX_WORKSPACE_LABEL_LEN))
  }

  ghost predicate Reports(h: Host, source: AgentSource) { exists a :: IsAdapter(h, a, source) && a.events }

  ghost predicate Replays(h: Host, cmd: Command)
    requires cmd.SessionStart?
  {
    && cmd.key.Some? && (cmd.key.value in h.reg.idempotency || cmd.key.value in h.repo.keys)
    && KnownSession(h, cmd.source, cmd.externalId)
  }

  lemma ReportsExactly(h: Host, source: AgentSource)
    requires UniqueSources(h.adapters)
    ensures TakesEvents(h, source) <==> Reports(h, source)
  {
    AdapterForIsOne(h.adapters, source);
    if TakesEvents(h, source) { assert IsAdapter(h, AdapterFor(h.adapters, source).value, source); }
    if a :| IsAdapter(h, a, source) && a.events { AdapterFound(h.adapters, a); }
  }

  /** When a start is accepted. */
  lemma StartAcceptedExactly(idFor: IdFor, h: Host, cmd: Command, choice: Choice)
    requires CoreOk(idFor, h) && ValidChoice(h, cmd, idFor, choice) && cmd.SessionStart?
    ensures Refusal(h, cmd, idFor, choice).None? <==>
              && StartFits(cmd)
              && (|| Replays(h, cmd)
                  || (&& Reports(h, cmd.source) && ValidTransition(Starting, cmd.status)
                      && (|| KnownSession(h, cmd.source, cmd.externalId)
                          || |h.reg.sessions| < MAX_SESSIONS || HasTerminal(h.reg))))
  {
    FoundExactly(idFor, h, cmd.source, cmd.externalId);
    ReportsExactly(h, cmd.source);
    AdmitsExactly(h.reg, NewSession(cmd, idFor), choice.victim);
  }

  lemma AdmitsExactly(r: Registry, s: Session, victim: string)
    ensures Admit(r, s, victim).Begin? ==> |r.sessions| < MAX_SESSIONS || HasTerminal(r)
    ensures !Admit(r, s, victim).Begin? ==>
              |r.sessions| >= MAX_SESSIONS && Admit(r, s, victim) == Refuse(SessionCapacity)
  {
  }

  /** Whom a start at capacity evicts. */
  function Leaving(h: Host, victim: string): set<string> {
    if |h.reg.sessions| < MAX_SESSIONS then {} else {victim}
  }

  /** The registry after a new session came in, an oldest terminal one having made room at capacity. */
  predicate SessionJoined(before: Host, after: Host, s: Session, e: Event, gone: set<string>) {
    && after.reg.sessions == (before.reg.sessions - gone)[s.id := s]
    && after.reg.index == (before.reg.index - KeysIn(before.reg, gone))[ExternalKey(s.source, s.externalId) := s.id]
    && after.reg.events == (before.reg.events - gone)[s.id := [e]]
    && after.settings == before.settings && after.adapters == before.adapters && after.metrics == before.metrics
  }

  function KeysIn(r: Registry, ids: set<string>): set<string> {
    set id | id in ids && id in r.sessions :: KeyOf(r.sessions[id])
  }

  /** The session a start describes is stored with one first event and its key. */
  ghost predicate StartedAs(before: Host, after: Host, s: Session, e: Event, key: Option<string>, gone: set<string>) {
    && s.id !in before.reg.sessions && SessionJoined(before, after, s, e, gone) && KeyStored(before, after, key)
    && EventsIn(Payloads(after.emitted)) == EventsIn(Payloads(before.emitted)) + [e]
  }

  /** An accepted start of an unknown session. */
  lemma StartDoes(idFor: IdFor, h: Host, cmd: Command, choice: Choice)
    requires Injective(idFor) && CoreOk(idFor, h) && ValidChoice(h, cmd, idFor, choice) && cmd.SessionStart?
    requires Refusal(h, cmd, idFor, choice).None? && !KnownSession(h, cmd.source, cmd.externalId)
    ensures var s := Fresh(idFor, cmd);
            StartedAs(h, Exec(h, cmd, idFor, choice), s,
                      Event(choice.uuid, s.id, 1, cmd.at, Lifecycle, Info, "Session started", None),
                      cmd.key, Leaving(h, choice.victim))
    ensures Leaving(h, choice.victim) != {} ==> IsOldestTerminal(h.reg, choice.victim)
  {
    FoundExactly(idFor, h, cmd.source, cmd.externalId);
    var evict := StartBegins(idFor, h, cmd, choice);
    ResolvedIsStored(idFor, h.reg, cmd.source, cmd.externalId);
    NewIdIsNew(idFor, h.reg, cmd.source, cmd.externalId);
    ExecReaches(idFor, h, cmd, choice);
    DecidedEffect(h, cmd, idFor, choice, Begin(Fresh(idFor, cmd), evict));
    StartedHost(idFor, h, Exec(h, cmd, idFor, choice), cmd, evict, choice.uuid);
  }

  lemma StartedHost(idFor: IdFor, h: Host, after: Host, cmd: Command, evict: Option<string>, uuid: nat)
    requires cmd.SessionStart? && StartFits(cmd) && Resolve(h.reg, cmd.source, cmd.externalId).None?
    requires RegistryOk(idFor, h.reg) && (evict.Some? ==> evict.value in h.reg.sessions)
    requires Fresh(idFor, cmd).id !in h.reg.sessions
    requires Evictable(Begin(Fresh(idFor, cmd), evict), NoteKey(h, cmd))
    requires Reaches(h, after, Commit(NoteKey(h, cmd), Begin(Fresh(idFor, cmd), evict), uuid))
    ensures var s := Fresh(idFor, cmd);
            StartedAs(h, after, s, Event(uuid, s.id, 1, cmd.at, Lifecycle, Info, "Session started", None), cmd.key,
                      if evict.Some? then {evict.value} else {})
  {
    var s := Fresh(idFor, cmd);
    NotedKey(h, cmd);
    BeginKeepsKeys(NoteKey(h, cmd), s, evict, uuid);
    BegunHost(idFor, h, NoteKey(h, cmd), after, s, evict, uuid);
  }

  lemma StartBegins(idFor: IdFor, h: Host, cmd: Command, choice: Choice) returns (evict: Option<string>)
    requires CoreOk(idFor, h) && ValidChoice(h, cmd, idFor, choice) && cmd.SessionStart?
    requires Refusal(h, cmd, idFor, choice).None? && Resolve(h.reg, cmd.source, cmd.externalId).None?
    ensures StartFits(cmd) && Decide(h, cmd, idFor, choice) == Begin(Fresh(idFor, cmd), evict)
    ensures if |h.reg.sessions| < MAX_SESSIONS then evict.None?
            else evict == Some(choice.victim) && IsOldestTerminal(h.reg, choice.victim)
  {
    evict := if |h.reg.sessions| < MAX_SESSIONS then None else Some(choice.victim);
  }

  /** A start's key is known afterwards, in the repository too unless memory held it before. */
  predicate KeyStored(before: Host, after: Host, key: Option<string>) {
    && after.reg.idempotency == before.reg.idempotency + (if key.Some? then {key.value} else {})
    && after.repo.keys == before.repo.keys +
                            (if key.Some? && key.value !in before.reg.idempotency then {key.value} else {})
  }

  lemma BeginKeepsKeys(h: Host, s: Session, evict: Option<string>, uuid: nat)
    requires evict.Some? ==> evict.value in h.reg.sessions
    ensures BeginEffect(h, s, evict, uuid).host.repo.keys == h.repo.keys
  {
  }

  lemma NotedKey(h: Host, cmd: Command)
    requires cmd.SessionStart? && StartFits(cmd) && Resolve(h.reg, cmd.source, cmd.externalId).None?
    ensures var n := NoteKey(h, cmd);
            && n.reg == h.reg.(idempotency := n.reg.idempotency) && KeyStored(h, n, cmd.key)
            && n.settings == h.settings && n.adapters == h.adapters && n.metrics == h.metrics && n.emitted == h.emitted
  {
  }

  lemma BegunHost(idFor: IdFor, h: Host, noted: Host, after: Host, s: Session, evict: Option<string>, uuid: nat)
    requires RegistryOk(idFor, h.reg) && s.id !in h.reg.sessions && (evict.Some? ==> evict.value in h.reg.sessions)
    requires noted.reg == h.reg.(idempotency := noted.reg.idempotency) && noted.settings == h.settings
    requires noted.adapters == h.adapters && noted.metrics == h.metrics && noted.emitted == h.emitted
    requires Reaches(h, after, BeginEffect(noted, s, evict, uuid))
    ensures var e := Event(uuid, s.id, 1, s.startedAt, Lifecycle, Info, "Session started", None);
            && SessionJoined(h, after, s, e, if evict.Some? then {evict.value} else {})
            && EventsIn(Payloads(after.emitted)) == EventsIn(Payloads(h.emitted)) + [e]
    ensures after.reg.idempotency == noted.reg.idempotency
  {
    var room := RoomFor(noted, evict);
    RoomRegistry(noted, evict);
    assert s.id !in room.host.reg.sessions && s.id !in room.host.reg.events;
    StartedRegistry(room.host, s, uuid);
    BeginBatches(noted, s, evict, uuid);
    BeginIsStarted(room.host, s, uuid);
    BegunTells(room.batch, Event(uuid, s.id, 1, s.startedAt, Lifecycle, Info, "Session started", None), s);
  }

  lemma BegunTells(room: seq<Payload>, e: Event, s: Session)
    requires forall p :: p in room ==> !p.SessionEvent?
    ensures EventsIn(room + ([SessionEvent(e)] + [SessionUpsert(s)])) == [e]
  {
    EventsInConcat(room, [SessionEvent(e)] + [SessionUpsert(s)]);
    EventsInConcat([SessionEvent(e)], [SessionUpsert(s)]);
    NoEventsIn(room);
    NoEventsIn([SessionUpsert(s)]);
    assert [SessionEvent(e)][..0] == [];
  }

  lemma RoomRegistry(h: Host, evict: Option<string>)
    requires evict.Some? ==> evict.value in h.reg.sessions
    ensures var room, gone := RoomFor(h, evict), if evict.Some? then {evict.value} else {};
            && room.host.reg == h.reg.(sessions := h.reg.sessions - gone, index := h.reg.index - KeysIn(h.reg, gone),
                                       events := h.reg.events - gone)
            && room.host.settings == h.settings && room.host.adapters == h.adapters && room.host.metrics == h.metrics
            && forall p :: p in room.batch ==> !p.SessionEvent?
  {
    if evict.Some? {
      assert KeysIn(h.reg, {evict.value}) == {KeyOf(h.reg.sessions[evict.value])};
    } else {
      assert KeysIn(h.reg, {}) == {};
      assert h.reg.sessions - {} == h.reg.sessions && h.reg.index - {} == h.reg.index;
      assert h.reg.events - {} == h.reg.events;
    }
  }

  lemma StartedRegistry(h: Host, s: Session, uuid: nat)
    requires s.id !in h.reg.events
    ensures var started := Started(h, s, uuid);
            var e := Event(uuid, s.id, 1, s.startedAt, Lifecycle, Info, "Session started", None);
            && started.batch == [SessionEvent(e)]
            && started.host.reg == h.reg.(sessions := h.reg.sessions[s.id := s], events := h.reg.events[s.id := [e]],
                                          index := h.reg.index[KeyOf(s) := s.id])
            && started.host.settings == h.settings && started.host.adapters == h.adapters
            && started.host.metrics == h.metrics
  {
    var e := Event(uuid, s.id, 1, s.startedAt, Lifecycle, Info, "Session started", None);
    var stored := h.(reg := Put(h.reg, s), repo := SaveSession(h.repo, s));
    assert EventsFor(stored.reg, s.id) == [] && MakeEvent(stored, s.id, StartNote(s), uuid) == e;
    assert Cap([] + [e]) == [e];
  }

  function StartNote(s: Session): Draft { Draft(Lifecycle, Info, "Session started", None, s.startedAt) }

  /** An accepted start of a known session changes no session and tells nothing. */
  lemma RestartDoesNothing(idFor: IdFor, h: Host, cmd: Command, choice: Choice)
    requires Injective(idFor) && CoreOk(idFor, h) && ValidChoice(h, cmd, idFor, choice) && cmd.SessionStart?
    requires Refusal(h, cmd, idFor, choice).None? && KnownSession(h, cmd.source, cmd.externalId)
    ensures var after := Exec(h, cmd, idFor, choice);
            && after.reg.sessions == h.reg.sessions && after.reg.index == h.reg.index && NoEventNoted(h, after)
            && after.settings == h.settings && after.adapters == h.adapters && after.metrics == h.metrics
  {
    FoundExactly(idFor, h, cmd.source, cmd.externalId);
    assert Decide(h, cmd, idFor, choice) == Nothing;
    ExecIsQuiet(idFor, h, cmd, choice, Nothing);
    KeyOnly(h, cmd);
  }

  lemma KeyOnly(h: Host, cmd: Command)
    ensures var n := NoteKey(h, cmd);
            && n.reg == h.reg.(idempotency := n.reg.idempotency) && n.settings == h.settings
            && n.adapters == h.adapters && n.metrics == h.metrics && n.emitted == h.emitted
  {
  }
}
