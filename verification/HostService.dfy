/** The application core: handlers that change registry, repository and coalescer step by step under one lock. */
module HostService {
  import opened Options
  import opened Sorting
  import opened Protocol
  import opened Registry
  import opened Coalescing
  import opened HostCore
  import opened HostSync
  import opened HostSteps
  import opened RegistryService
  import opened StreamService
  import opened Restart
  import opened Bootstrap
  import opened Replication

  /** The first adapter of the source is replaced, or the adapter joins the end. */
  method ReplaceAdapter(adapters: seq<Adapter>, a: Adapter) returns (r: seq<Adapter>)
    ensures r == ReplaceFirst(adapters, a)
  {
    var i := 0;
    while i < |adapters| && adapters[i].source != a.source
      invariant i <= |adapters| && ReplaceFirst(adapters, a) == adapters[..i] + ReplaceFirst(adapters[i..], a)
    {
      assert adapters[i..][1..] == adapters[i + 1..];
      i := i + 1;
    }
    if i < |adapters| {
      assert adapters[i..][1..] == adapters[i + 1..];
      r := adapters[..i] + [a] + adapters[i + 1..];
    } else {
      r := adapters + [a];
    }
  }

  method Values(sessions: map<string, Session>) returns (all: seq<Session>)
    requires forall id :: id in sessions ==> sessions[id].id == id
    ensures ListsSessions(all, sessions)
  {
    var ids := Enumerate(sessions);
    all := [];
    for i := 0 to |ids|
      invariant |all| == i && forall k :: 0 <= k < i ==> all[k] == sessions[ids[k]]
    {
      all := all + [sessions[ids[i]]];
    }
    forall id | id in sessions ensures sessions[id] in all {
      var i :| 0 <= i < |ids| && ids[i] == id;
      assert all[i] == sessions[id];
    }
  }

  /** All sessions, latest activity first, cut at capacity. */
  method ListSessions(sessions: map<string, Session>) returns (listed: seq<Session>)
    requires |sessions| <= MAX_SESSIONS && forall id :: id in sessions ==> sessions[id].id == id
    ensures ListsSessions(listed, sessions) && Ordered(listed, LatestActivityFirst())
  {
    var all := Values(sessions);
    ListedAreCounted(all, sessions);
    TimeOrders();
    SortSorts(all, LatestActivityFirst());
    listed := Truncated(Sort(all, LatestActivityFirst()), MAX_SESSIONS);
  }

  /** Starting up: the registry is restored from the repository's rows, or nothing starts. */
  method StartCore(repo: Repo, rows: seq<Session>, loaded: seq<Event>, adapters: seq<Adapter>, settings: Settings,
                   idFor: IdFor)
    returns (core: AppCore?)
    ensures core == null <==> !Restorable(Kept(rows))
    ensures core != null ==>
              && core.idFor == idFor
              && core.Value() == Host(Restored(rows, loaded, {}), settings, adapters, None, NOTHING, repo, 0, [])
  {
    var registry := new SessionRegistry();
    var ok := registry.Restore(rows, loaded);
    if !ok { return null; }
    core := new AppCore(registry, repo, adapters, settings, idFor);
  }

  class AppCore {
    const registry: SessionRegistry
    const coalescer: StreamCoalescer
    const idFor: IdFor
    var settings: Settings
    var adapters: seq<Adapter>
    var metrics: Option<MetricsFrame>
    var repo: Repo
    var sequence: nat
    var emitted: seq<Frame>

    constructor (registry: SessionRegistry, repo: Repo, adapters: seq<Adapter>, settings: Settings, idFor: IdFor)
      ensures this.registry == registry && this.idFor == idFor && fresh(coalescer)
      ensures Value() == Host(registry.Value(), settings, adapters, None, NOTHING, repo, 0, [])
    {
      this.registry, this.repo, this.adapters, this.settings, this.idFor := registry, repo, adapters, settings, idFor;
      coalescer := new StreamCoalescer();
      metrics, sequence, emitted := None, 0, [];
    }

    function Value(): Host
      reads this, registry, coalescer
    {
      Host(registry.Value(), settings, adapters, metrics, coalescer.Value(), repo, sequence, emitted)
    }

    method QueuePayload(p: Payload)
      modifies coalescer
      ensures Value() == old(Value()).(pending := Push(old(Value()).pending, p))
    {
      coalescer.Push(p);
    }

    /** Numbers and emits everything pending; does nothing when nothing is. */
    method FlushPending() returns (ghost order: seq<string>)
      modifies this, coalescer
      ensures IsOrder(order, old(Value()).pending.upserts.Keys)
      ensures Value() == Flush(old(Value()), order)
    {
      if coalescer.Value() == NOTHING {
        order := [];
        return;
      }
      var out;
      out, order := coalescer.Drain();
      for i := 0 to |out|
        invariant registry.Value() == old(registry.Value()) && coalescer.Value() == NOTHING
        invariant settings == old(settings) && adapters == old(adapters) && metrics == old(metrics) && repo == old(repo)
        invariant sequence == old(sequence) + i && emitted == old(emitted) + Numbered(out[..i], old(sequence))
      {
        sequence := sequence + 1;
        emitted := emitted + [Frame(sequence, out[i])];
        assert Numbered(out[..i + 1], old(sequence)) == Numbered(out[..i], old(sequence)) + [Frame(sequence, out[i])];
      }
      assert out[..|out|] == out;
    }

    method AppendEvent(id: string, d: Draft, uuid: nat) returns (e: Event)
      requires id in registry.sessions
      modifies this`repo, registry, coalescer
      ensures Value() == Queued(AppendDraft(old(Value()), id, d, uuid))
      ensures e == MakeEvent(old(Value()), id, d, uuid)
    {
      var n := registry.NextEventSequence(id);
      e := Event(uuid, id, n, d.at, d.kind, d.level, d.summary, d.tool);
      ghost var was := Value();
      var refused := registry.AppendEvent(e);
      assert refused.None?;
      repo := SaveEvent(repo, e);
      QueuePayload(SessionEvent(e));
      QueuedSnoc(Effect(was.(reg := Append(was.reg, e).0, repo := SaveEvent(was.repo, e)), []), SessionEvent(e));
    }

    /** Saves a session already changed in memory, notes the event and announces the session. */
    method SaveTouched(s: Session, draft: Option<Draft>, announce: bool, uuid: nat)
      requires s.id in registry.sessions && registry.sessions[s.id] == s
      modifies this`repo, registry, coalescer
      ensures Value() == Queued(TouchEffect(old(Value()), s, draft, announce, uuid))
    {
      ghost var was := Value();
      repo := SaveSession(repo, s);
      ghost var stored := was.(reg := was.reg.(sessions := was.reg.sessions[s.id := s]),
                               repo := SaveSession(was.repo, s));
      assert was.reg.sessions[s.id := s] == was.reg.sessions;
      assert Value() == stored;
      if draft.Some? { var e := AppendEvent(s.id, draft.value, uuid); }
      ghost var noted := if draft.Some? then AppendDraft(stored, s.id, draft.value, uuid) else Effect(stored, []);
      assert Value() == Queued(noted);
      if announce {
        QueuePayload(SessionUpsert(s));
        QueuedSnoc(noted, SessionUpsert(s));
      } else {
        assert noted.batch + [] == noted.batch;
      }
    }

    // ---------------------------------------------------------------- handlers

    /** The state a decision leads to, payloads queued. */
    ghost function Decided(h: Host, d: Decision, uuid: nat): Host
      requires d.Begin? && d.evict.Some? ==> d.evict.value in h.reg.sessions
    {
      Queued(Commit(h, d, uuid))
    }

    method Touch(s: Session, draft: Option<Draft>, announce: bool, uuid: nat)
      requires s.id in registry.sessions
      modifies this`repo, registry, coalescer
      ensures Value() == Queued(TouchEffect(old(Value()), s, draft, announce, uuid))
    {
      TouchOver(Value(), s, s, draft, announce, uuid);
      registry.sessions := registry.sessions[s.id := s];
      SaveTouched(s, draft, announce, uuid);
    }

    /** Memory only, over an earlier version of the same session. */
    method Overwrite(ghost start: Host, ghost earlier: Session, s: Session)
      requires earlier.id == s.id && Value() == Written(start, earlier)
      modifies registry
      ensures Value() == Written(start, s)
    {
      assert start.reg.sessions[s.id := earlier][s.id := s] == start.reg.sessions[s.id := s];
      registry.sessions := registry.sessions[s.id := s];
    }

    /** Label, workspace and status are checked and written one after the other. */
    method WriteUpdate(stored: Session, cmd: Command) returns (s: Session, error: Option<Error>)
      requires cmd.SessionUpdate? && stored.id in registry.sessions && registry.sessions[stored.id] == stored
      modifies registry
      ensures error == ErrorOf(UpdateOf(stored, cmd))
      ensures Value() == Written(old(Value()), s)
      ensures s == Reached(stored, UpdateOf(stored, cmd))
      ensures error.None? ==>
                && s.status == (if cmd.newStatus.Some? then cmd.newStatus.value else stored.status)
                && s.labelText == (if cmd.newLabel.Some? then cmd.newLabel.value else stored.labelText)
                && s.workspace == (if cmd.workspace.Some? then cmd.workspace else stored.workspace)
                && s == stored.(status := s.status, labelText := s.labelText, workspace := s.workspace,
                                lastEventAt := cmd.at)
    {
      ghost var start := Value();
      assert registry.sessions[stored.id := stored] == registry.sessions;
      s := stored;
      if cmd.newLabel.Some? {
        if !Bounded(cmd.newLabel.value, MAX_SESSION_LABEL_LEN) { return s, Some(Validation); }
        ghost var earlier := s;
        s := s.(labelText := cmd.newLabel.value);
        Overwrite(start, earlier, s);
      }
      if cmd.workspace.Some? {
        if !Bounded(cmd.workspace.value, MAX_WORKSPACE_LABEL_LEN) { return s, Some(Validation); }
        ghost var earlier := s;
        s := s.(workspace := cmd.workspace);
        Overwrite(start, earlier, s);
      }
      ghost var placed := s;
      if cmd.newStatus.Some? {
        if !ValidTransition(s.status, cmd.newStatus.value) { return s, Some(InvalidTransition); }
        s := s.(status := cmd.newStatus.value);
      }
      s := s.(lastEventAt := cmd.at);
      Overwrite(start, placed, s);
      error := None;
    }

    method ApplyUpdate(stored: Session, cmd: Command, uuid: nat) returns (error: Option<Error>)
      requires cmd.SessionUpdate? && stored.id in registry.sessions && registry.sessions[stored.id] == stored
      modifies this`repo, registry, coalescer
      ensures error == ErrorOf(UpdateOf(stored, cmd))
      ensures Value() == Decided(old(Value()), UpdateOf(stored, cmd), uuid)
    {
      ghost var was := Value();
      var s;
      s, error := WriteUpdate(stored, cmd);
      if error.Some? {
        assert was.reg.sessions[stored.id := stored] == was.reg.sessions;
        return;
      }
      var draft := Draft(StatusEvent, Info, "Session updated", None, cmd.at);
      TouchOver(was, s, s, Some(draft), true, uuid);
      SaveTouched(s, Some(draft), true, uuid);
    }

    /** The session is written and saved before its summary is checked. */
    method ApplyEnd(stored: Session, cmd: Command, uuid: nat) returns (error: Option<Error>)
      requires cmd.SessionEnd? && stored.id in registry.sessions && registry.sessions[stored.id] == stored
      modifies this`repo, registry, coalescer
      ensures error == ErrorOf(EndOf(stored, cmd))
      ensures Value() == Decided(old(Value()), EndOf(stored, cmd), uuid)
    {
      if !cmd.status.Completed? && !cmd.status.Failed? { return Some(Validation); }
      if !ValidTransition(stored.status, cmd.status) { return Some(InvalidTransition); }
      var s := stored.(status := cmd.status, endedAt := Some(cmd.at), lastEventAt := cmd.at,
                       attention := NoAttention, metric := None);
      registry.sessions := registry.sessions[s.id := s];
      repo := SaveSession(repo, s);
      var summary := if cmd.endSummary.Some? then cmd.endSummary.value else "Session ended";
      if !Bounded(summary, MAX_EVENT_SUMMARY_LEN) { return Some(Validation); }
      var draft := Draft(Lifecycle, Info, summary, None, cmd.at);
      QueuedSnoc(AppendDraft(Value(), s.id, draft, uuid), SessionUpsert(s));
      var e := AppendEvent(s.id, draft, uuid);
      QueuePayload(SessionUpsert(s));
      error := None;
    }

    /** Update and end of a session, by source and external id. */
    method ChangeSession(cmd: Command, uuid: nat) returns (error: Option<Error>)
      requires (cmd.SessionUpdate? || cmd.SessionEnd?) && OwnIds(registry.Value())
      modifies this`repo, registry, coalescer
      ensures error == ErrorOf(Decide(old(Value()), cmd, idFor, Plain(uuid)))
      ensures Value() == Decided(old(Value()), Decide(old(Value()), cmd, idFor, Plain(uuid)), uuid)
    {
      if !Bounded(cmd.externalId, MAX_EXTERNAL_SESSION_ID_LEN) { return Some(Validation); }
      if !TakesEvents(Value(), cmd.source) { return Some(UnsupportedCapability); }
      var found := registry.ResolveExternal(cmd.source, cmd.externalId);
      if found.None? { return Some(SessionNotFound); }
      if cmd.SessionUpdate? {
        error := ApplyUpdate(found.value, cmd, uuid);
      } else {
        error := ApplyEnd(found.value, cmd, uuid);
      }
    }

    /** Lifecycle and tool notes: the last-event time moves without an announcement. */
    method NoteEvent(cmd: Command, uuid: nat) returns (error: Option<Error>)
      requires (cmd.LifecycleNote? || cmd.ToolNote?) && OwnIds(registry.Value())
      modifies this`repo, registry, coalescer
      ensures error == ErrorOf(Decide(old(Value()), cmd, idFor, Plain(uuid)))
      ensures Value() == Decided(old(Value()), Decide(old(Value()), cmd, idFor, Plain(uuid)), uuid)
    {
      if !Bounded(cmd.externalId, MAX_EXTERNAL_SESSION_ID_LEN) { return Some(Validation); }
      if !Bounded(cmd.summary, MAX_EVENT_SUMMARY_LEN) { return Some(Validation); }
      if cmd.ToolNote? && !BoundedIfGiven(cmd.tool, MAX_TOOL_NAME_LEN) { return Some(Validation); }
      if !TakesEvents(Value(), cmd.source) { return Some(UnsupportedCapability); }
      var found := registry.ResolveExternal(cmd.source, cmd.externalId);
      if found.None? { return Some(SessionNotFound); }
      var draft := if cmd.ToolNote? then Draft(Tool, cmd.level, cmd.summary, cmd.tool, cmd.at)
                   else Draft(Lifecycle, cmd.level, cmd.summary, None, cmd.at);
      Touch(found.value.(lastEventAt := cmd.at), Some(draft), false, uuid);
      error := None;
    }

    /** Attention reports and process roots, each behind its own capability. */
    method ReportOn(cmd: Command, uuid: nat) returns (error: Option<Error>)
      requires (cmd.SetAttention? || cmd.RegisterProcessRoot?) && OwnIds(registry.Value())
      modifies this`repo, registry, coalescer
      ensures error == ErrorOf(Decide(old(Value()), cmd, idFor, Plain(uuid)))
      ensures Value() == Decided(old(Value()), Decide(old(Value()), cmd, idFor, Plain(uuid)), uuid)
    {
      if !Bounded(cmd.externalId, MAX_EXTERNAL_SESSION_ID_LEN) { return Some(Validation); }
      if cmd.SetAttention? && !Bounded(cmd.summary, MAX_EVENT_SUMMARY_LEN) { return Some(Validation); }
      var adapter := AdapterFor(adapters, cmd.source);
      if adapter.None? { return Some(UnsupportedCapability); }
      if cmd.SetAttention? && !TakesAttention(adapter.value, cmd.attention) { return Some(UnsupportedCapability); }
      if cmd.RegisterProcessRoot? && !adapter.value.attributesProcesses { return Some(UnsupportedCapability); }
      var found := registry.ResolveExternal(cmd.source, cmd.externalId);
      if found.None? { return Some(SessionNotFound); }
      if cmd.SetAttention? {
        Touch(found.value.(attention := cmd.attention, lastEventAt := cmd.at),
              Some(Draft(AttentionEvent, cmd.level, cmd.summary, None, cmd.at)), true, uuid);
      } else {
        Touch(found.value.(processRoot := Some(cmd.root), lastEventAt := cmd.at),
              Some(Draft(Lifecycle, Info, "Process root registered", None, cmd.at)), true, uuid);
      }
      error := None;
    }

    /** Commands that name the session id itself. */
    method ChangeById(cmd: Command, uuid: nat) returns (error: Option<Error>)
      requires cmd.AcknowledgeAttention? || cmd.ClearProcessRoot? || cmd.SetVerifiedTerminal?
      requires OwnIds(registry.Value())
      modifies this`repo, registry, coalescer
      ensures error == ErrorOf(Decide(old(Value()), cmd, idFor, Plain(uuid)))
      ensures Value() == Decided(old(Value()), Decide(old(Value()), cmd, idFor, Plain(uuid)), uuid)
    {
      if !Bounded(cmd.sessionId, MAX_SESSION_ID_LEN) { return Some(Validation); }
      if cmd.sessionId !in registry.sessions { return Some(SessionNotFound); }
      var s := registry.sessions[cmd.sessionId];
      error := None;
      match cmd
      case AcknowledgeAttention(_, at) => Touch(s.(attention := NoAttention, lastEventAt := at), None, true, uuid);
      case ClearProcessRoot(_) =>
        if s.processRoot.None? { return; }
        Touch(s.(processRoot := None, metric := None), None, true, uuid);
      case SetVerifiedTerminal(_, terminal) => Touch(s.(terminal := Some(terminal)), None, true, uuid);
    }

    // ---------------------------------------------------------------- session start

    predicate StartFieldsOk(cmd: Command)
      requires cmd.SessionStart?
    {
      && Bounded(cmd.externalId, MAX_EXTERNAL_SESSION_ID_LEN) && Bounded(cmd.labelText, MAX_SESSION_LABEL_LEN)
      && BoundedIfGiven(cmd.workspace, MAX_WORKSPACE_LABEL_LEN)
    }

    /** A key seen before, in memory or in the repository, makes a known session's start a replay. */
    method RecordKey(cmd: Command) returns (replay: bool)
      requires cmd.SessionStart? && StartFieldsOk(cmd)
      modifies this`repo, registry
      ensures replay <==> KnownKey(old(Value()), cmd.key) && Resolve(old(Value()).reg, cmd.source, cmd.externalId).Some?
      ensures Value() == NoteKey(old(Value()), cmd)
    {
      if cmd.key.None? { return false; }
      var key := cmd.key.value;
      var known := key in registry.idempotency;
      if !known {
        known := key in repo.keys;
        repo := repo.(keys := repo.keys + {key});
      }
      if known {
        var found := registry.ResolveExternal(cmd.source, cmd.externalId);
        if found.Some? {
          assert old(key !in registry.idempotency) ==> old(repo.keys) + {key} == old(repo.keys);
          return true;
        }
      }
      registry.idempotency := registry.idempotency + {key};
      replay := false;
    }

    /** At capacity an oldest terminal session is dropped everywhere and its removal announced. */
    method MakeRoom() returns (ok: bool, evict: Option<string>)
      requires |registry.sessions| <= MAX_SESSIONS
      modifies this`repo, registry, coalescer
      ensures ok <==> |old(registry.sessions)| < MAX_SESSIONS || HasTerminal(old(registry.Value()))
      ensures evict.Some? <==> ok && |old(registry.sessions)| == MAX_SESSIONS
      ensures evict.Some? ==> IsOldestTerminal(old(registry.Value()), evict.value)
      ensures Value() == Queued(RoomFor(old(Value()), evict))
    {
      var candidate := registry.CapacityEvictionCandidate();
      if candidate.Full? { return false, None; }
      if candidate.Room? { return true, None; }
      evict := Some(candidate.id);
      QueuedSnoc(Effect(EvictEffect(Value(), candidate.id).host, []), SessionRemove(candidate.id));
      repo := DeleteSession(repo, candidate.id);
      var removed := registry.RemoveSession(candidate.id);
      QueuePayload(SessionRemove(candidate.id));
      ok := true;
    }

    /** Stores a new session and notes its start. */
    method StoreAndNote(s: Session, uuid: nat)
      requires Bounded(s.externalId, MAX_EXTERNAL_SESSION_ID_LEN) && KeyOf(s) !in registry.index
      requires |registry.sessions| < MAX_SESSIONS
      modifies this`repo, registry, coalescer
      ensures Value() == Queued(Started(old(Value()), s, uuid))
    {
      var outcome := registry.InsertNewSession(s);
      repo := SaveSession(repo, s);
      var e := AppendEvent(s.id, Draft(Lifecycle, Info, "Session started", None, s.startedAt), uuid);
    }

    /** Stores the same session again and announces it. */
    method StoreNew(s: Session, uuid: nat)
      requires Bounded(s.externalId, MAX_EXTERNAL_SESSION_ID_LEN) && KeyOf(s) !in registry.index
      requires |registry.sessions| < MAX_SESSIONS
      modifies this`repo, registry, coalescer
      ensures Value() == Queued(BeginEffect(old(Value()), s, None, uuid))
    {
      ghost var was := Value();
      StoreAndNote(s, uuid);
      StoredTwice(was, s, uuid);
      var again := registry.UpsertSession(s);
      repo := SaveSession(repo, s);
      BeginIsStarted(was, s, uuid);
      QueuedSnoc(Started(was, s, uuid), SessionUpsert(s));
      QueuePayload(SessionUpsert(s));
    }

    /** The checks of a start that do not change anything. */
    method CheckStart(cmd: Command) returns (error: Option<Error>, existing: bool)
      requires cmd.SessionStart?
      ensures error == if !TakesEvents(Value(), cmd.source) then Some(UnsupportedCapability)
                       else if !cmd.status.Starting? && !ValidTransition(Starting, cmd.status)
                       then Some(InvalidTransition) else None
      ensures existing <==> Resolve(Value().reg, cmd.source, cmd.externalId).Some?
    {
      var found := registry.ResolveExternal(cmd.source, cmd.externalId);
      existing := found.Some?;
      if !TakesEvents(Value(), cmd.source) { return Some(UnsupportedCapability), existing; }
      if !cmd.status.Starting? && !ValidTransition(Starting, cmd.status) { return Some(InvalidTransition), existing; }
      error := None;
    }

    /** Room is made if it can be, and the new session stored. */
    method BeginSession(s: Session, uuid: nat) returns (error: Option<Error>, ghost victim: string)
      requires |registry.sessions| <= MAX_SESSIONS && KeyOf(s) !in registry.index
      requires Bounded(s.externalId, MAX_EXTERNAL_SESSION_ID_LEN)
      modifies this`repo, registry, coalescer
      ensures var d := Admit(old(registry.Value()), s, victim);
              && error == ErrorOf(d) && Value() == Decided(old(Value()), d, uuid)
              && (error.Some? ==> !HasTerminal(old(registry.Value())))
    {
      ghost var was := Value();
      victim := "";
      var ok, evict := MakeRoom();
      if !ok { return Some(SessionCapacity), victim; }
      if evict.Some? {
        victim := evict.value;
        RemovalCounts(was.reg, evict.value);
      }
      BeginAfterRoom(was, s, evict, uuid);
      StoreNew(s, uuid);
      error := None;
    }

    method SessionStart(cmd: Command, uuid: nat) returns (error: Option<Error>, ghost victim: string)
      requires cmd.SessionStart? && |registry.sessions| <= MAX_SESSIONS && NoDangling(registry.Value())
      modifies this`repo, registry, coalescer
      ensures StartOutcome(old(Value()), cmd, idFor, Choice(uuid, victim, [], []), error, Value())
    {
      victim := "";
      if !StartFieldsOk(cmd) { return Some(Validation), victim; }
      ghost var was := Value();
      var replay := RecordKey(cmd);
      if replay { return None, victim; }
      var existing;
      error, existing := CheckStart(cmd);
      if error.Some? || existing { return; }
      ghost var noted := registry.Value();
      error, victim := BeginSession(NewSession(cmd, idFor), uuid);
      AdmitBySessions(was.reg, noted, NewSession(cmd, idFor), victim);
    }

    // ---------------------------------------------------------------- commands over the whole registry

    method Save(s: Session)
      modifies this`repo, registry
      ensures Value() == Saved(old(Value()), s)
    {
      registry.sessions := registry.sessions[s.id := s];
      repo := SaveSession(repo, s);
    }

    method MeasureOne(ghost was: Host, frame: MetricsFrame, ghost done: seq<string>, id: string)
      requires OwnIds(was.reg) && id in was.reg.sessions && id !in done
      requires Value() == SaveAll(was, Part(MeasuredSessions(was.reg.sessions, frame), done))
      modifies this`repo, registry
      ensures Value() == SaveAll(was, Part(MeasuredSessions(was.reg.sessions, frame), done + [id]))
    {
      NotYetSaved(was, MeasuredSessions(was.reg.sessions, frame), done, id);
      SaveOneMore(was, MeasuredSessions(was.reg.sessions, frame), done, id);
      var s := registry.sessions[id];
      if !IsTerminal(s.status) {
        s := s.(metric := if id in frame.agents then Some(frame.agents[id]) else None);
      } else {
        s := s.(metric := None);
      }
      Save(s);
    }

    method MeasureAll(frame: MetricsFrame)
      requires OwnIds(registry.Value())
      modifies this`repo, registry
      ensures Value() == SaveAll(old(Value()), MeasuredSessions(old(Value()).reg.sessions, frame))
    {
      ghost var was := Value();
      var ids := Enumerate(registry.sessions);
      SaveNone(was, MeasuredSessions(was.reg.sessions, frame));
      for i := 0 to |ids|
        invariant Value() == SaveAll(was, Part(MeasuredSessions(was.reg.sessions, frame), ids[..i]))
      {
        assert ids[..i + 1] == ids[..i] + [ids[i]];
        MeasureOne(was, frame, ids[..i], ids[i]);
      }
      assert ids[..|ids|] == ids;
      PartIsAll(MeasuredSessions(was.reg.sessions, frame), ids);
    }

    /** Every session takes its sample, or loses its old one. */
    method RecordMetrics(frame: MetricsFrame)
      requires OwnIds(registry.Value())
      modifies this`repo, this`metrics, registry, coalescer
      ensures Value() == Queued(WideEffect(old(Value()), HostCore.RecordMetrics(frame), []))
    {
      MeasureAll(frame);
      metrics := Some(frame);
      QueuedSnoc(Effect(Value(), []), Metrics(frame));
      QueuePayload(Metrics(frame));
    }

    method MarkOne(id: string, now: int)
      requires id in registry.sessions && registry.sessions[id].id == id && !IsTerminal(registry.sessions[id].status)
      modifies this`repo, registry, coalescer
      ensures Value() == Marked(old(Value()), Staled(old(registry.sessions)[id], now))
    {
      var s := registry.sessions[id];
      if ValidTransition(s.status, Stale) {
        s := s.(status := Stale, lastEventAt := now, metric := None);
        Save(s);
        QueuePayload(SessionUpsert(s));
      }
    }

    /** The ids are collected first, then each session is marked, saved and announced. */
    method MarkStale(now: int) returns (ghost order: seq<string>)
      requires OwnIds(registry.Value())
      modifies this`repo, registry, coalescer
      ensures IsOrder(order, StaleSessions(old(Value()).reg.sessions, now).Keys)
      ensures Value() == MarkedAll(old(Value()), StaleSessions(old(Value()).reg.sessions, now), order)
    {
      ghost var was := Value();
      var ids := Enumerate(StaleSessions(registry.sessions, now));
      order := ids;
      MarkedNone(was, StaleSessions(was.reg.sessions, now));
      for i := 0 to |ids|
        invariant Value() == MarkedAll(was, StaleSessions(was.reg.sessions, now), ids[..i])
      {
        MarkedOneMore(was, now, ids, i);
        MarkOne(ids[i], now);
      }
      assert ids[..|ids|] == ids;
    }

    method IntegrationHealth(a: Adapter)
      modifies this`adapters, coalescer
      ensures Value() == Queued(WideEffect(old(Value()), HostCore.IntegrationHealth(a), []))
    {
      adapters := ReplaceAdapter(adapters, a);
      QueuedSnoc(Effect(Value(), []), IntegrationChanged(a));
      QueuePayload(IntegrationChanged(a));
    }

    method RemoveSession(id: string) returns (error: Option<Error>)
      modifies this`repo, registry, coalescer
      ensures error == Refusal(old(Value()), HostCore.RemoveSession(id), idFor, Plain(0))
      ensures Value() == Queued(WideEffect(old(Value()), HostCore.RemoveSession(id), []))
    {
      if !Bounded(id, MAX_SESSION_ID_LEN) { return Some(Validation); }
      if id !in registry.sessions { return Some(SessionNotFound); }
      QueuedSnoc(Effect(EvictEffect(Value(), id).host, []), SessionRemove(id));
      repo := DeleteSession(repo, id);
      var removed := registry.RemoveSession(id);
      QueuePayload(SessionRemove(id));
      error := None;
    }

    // ---------------------------------------------------------------- snapshots

    /** Sessions, cursor and events captured together: what a bootstrap step of the replication model takes. */
    method SnapshotWithSequence() returns (c: Captured)
      requires RegistryOk(idFor, registry.Value())
      ensures c == Captured(SnapshotOf(Value(), c.snapshot.sessions), sequence, c.events)
      ensures ListsSessions(c.snapshot.sessions, registry.sessions) && Selection(registry.Value(), c.events)
      ensures Ordered(c.snapshot.sessions, LatestActivityFirst())
    {
      var listed := ListSessions(registry.sessions);
      var events := BootstrapEvents(idFor, registry.Value());
      c := Captured(SnapshotOf(Value(), listed), sequence, events);
    }

    // ---------------------------------------------------------------- one command

    /** Commands about one session. */
    method HandleSession(cmd: Command, uuid: nat) returns (error: Option<Error>, ghost victim: string)
      requires AboutSession(cmd) && OwnIds(registry.Value()) && NoDangling(registry.Value())
      requires |registry.sessions| <= MAX_SESSIONS
      modifies this`repo, registry, coalescer
      ensures var choice := Plain(uuid).(victim := victim);
              var d := Decide(old(Value()), cmd, idFor, choice);
              && error == ErrorOf(d) && Value() == Queued(EffectOf(old(Value()), cmd, idFor, choice))
              && (d == Refuse(SessionCapacity) ==> !HasTerminal(old(Value()).reg))
    {
      victim := "";
      if cmd.SessionStart? {
        error, victim := SessionStart(cmd, uuid);
        return;
      }
      OnlyStartsNeedRoom(Value(), cmd, idFor, Plain(uuid));
      if cmd.SessionUpdate? || cmd.SessionEnd? {
        error := ChangeSession(cmd, uuid);
      } else if cmd.LifecycleNote? || cmd.ToolNote? {
        error := NoteEvent(cmd, uuid);
      } else if cmd.SetAttention? || cmd.RegisterProcessRoot? {
        error := ReportOn(cmd, uuid);
      } else {
        error := ChangeById(cmd, uuid);
      }
    }

    method UpdateSettings(changed: Settings)
      modifies this`settings, coalescer
      ensures Value() == Queued(WideEffect(old(Value()), HostCore.UpdateSettings(changed), []))
    {
      settings := changed;
      QueuedSnoc(Effect(Value(), []), SettingsChanged(changed));
      QueuePayload(SettingsChanged(changed));
    }

    method EmitHeartbeat()
      modifies coalescer
      ensures Value() == Queued(WideEffect(old(Value()), HostCore.EmitHeartbeat, []))
    {
      QueuedSnoc(Effect(Value(), []), Heartbeat);
      QueuePayload(Heartbeat);
    }

    /** Purges change memory and repository without a frame. */
    method PurgeMetrics()
      modifies this, registry
      ensures Value() == Queued(WideEffect(old(Value()), HostCore.PurgeMetrics, []))
    {
      repo := repo.(sessions := Unmeasured(repo.sessions));
      registry.ClearLatestMetrics();
      metrics := None;
    }

    method PurgeEvents()
      modifies this, registry
      ensures Value() == Queued(WideEffect(old(Value()), HostCore.PurgeEvents, []))
    {
      repo := repo.(events := map[]);
      registry.events := map[];
    }

    /** A prune changes the repository alone. */
    method PruneHistory(cutoff: int)
      modifies this`repo
      ensures Value() == Queued(WideEffect(old(Value()), HostCore.PruneHistory(cutoff), []))
    {
      repo := repo.(events := Newer(repo.events, cutoff));
    }

    /** Any command up to the flush; a refused one queues nothing. */
    method Handle(cmd: Command, uuid: nat) returns (error: Option<Error>, ghost choice: Choice)
      requires OwnIds(registry.Value()) && NoDangling(registry.Value()) && |registry.sessions| <= MAX_SESSIONS
      requires coalescer.Value() == NOTHING
      modifies this, registry, coalescer
      ensures choice.uuid == uuid && choice.order == [] && Open(old(Value()), cmd, idFor, choice)
      ensures Value() == Queued(EffectOf(old(Value()), cmd, idFor, choice))
      ensures error == Refusal(old(Value()), cmd, idFor, choice)
      ensures error.Some? ==> Value().pending == NOTHING
    {
      ghost var was := Value();
      choice := Plain(uuid);
      error := None;
      if AboutSession(cmd) {
        ghost var victim;
        error, victim := HandleSession(cmd, uuid);
        choice := choice.(victim := victim);
        RefusedQueuesNothing(was, cmd, idFor, choice);
      } else if cmd.Tick? {
        ghost var staleOrder := MarkStale(cmd.now);
        choice := choice.(staleOrder := staleOrder);
        TickIsMarking(was, cmd.now, staleOrder);
      } else {
        OtherIgnoresChoice(was, cmd, choice.staleOrder);
        if cmd.IntegrationHealth? {
          IntegrationHealth(cmd.adapter);
        } else if cmd.RemoveSession? {
          error := RemoveSession(cmd.sessionId);
        } else if cmd.RecordMetrics? {
          RecordMetrics(cmd.frame);
        } else if cmd.UpdateSettings? {
          UpdateSettings(cmd.settings);
        } else if cmd.EmitHeartbeat? {
          EmitHeartbeat();
        } else if cmd.PurgeMetrics? {
          PurgeMetrics();
        } else if cmd.PurgeEvents? {
          PurgeEvents();
        } else {
          PruneHistory(cmd.cutoff);
        }
      }
    }

    /** One command from start to flush: the object moves exactly as the specification says. */
    method Perform(cmd: Command, uuid: nat) returns (error: Option<Error>, ghost choice: Choice)
      requires CoreOk(idFor, Value()) && FreshEventId(registry.Value(), uuid)
      modifies this, registry, coalescer
      ensures choice.uuid == uuid && ValidChoice(old(Value()), cmd, idFor, choice)
      ensures Value() == Exec(old(Value()), cmd, idFor, choice)
      ensures error == Refusal(old(Value()), cmd, idFor, choice)
    {
      ghost var was := Value();
      CoreGives(idFor, was);
      error, choice := Handle(cmd, uuid);
      ghost var order := [];
      if error.None? {
        order := FlushPending();
      } else {
        FlushNothing(Value());
      }
      Performed(was, cmd, idFor, choice, order);
      choice := choice.(order := order);
    }
  }
}
