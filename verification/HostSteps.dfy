/** How the core's step-by-step updates add up to the effects of commands. */
module HostSteps {
  import opened Options
  import opened Protocol
  import opened Registry
  import opened Coalescing
  import opened HostCore
  import opened HostSync

  /** An effect with its payloads queued. */
  function Queued(e: Effect): Host { e.host.(pending := PushAll(e.host.pending, e.batch)) }

  lemma QueuedSnoc(e: Effect, p: Payload)
    ensures Queued(e.(batch := e.batch + [p])) == Queued(e).(pending := Push(Queued(e).pending, p))
  {
    assert (e.batch + [p])[..|e.batch|] == e.batch;
  }

  function ErrorOf(d: Decision): Option<Error> {
    if d.Refuse? || d.RefuseAfter? then Some(d.error) else None
  }

  /** A session overwritten in memory only. */
  function Written(h: Host, s: Session): Host { h.(reg := h.reg.(sessions := h.reg.sessions[s.id := s])) }

  /** Writing a session first and touching it afterwards is touching it. */
  lemma TouchOver(h: Host, first: Session, s: Session, draft: Option<Draft>, announce: bool, uuid: nat)
    requires first.id == s.id
    ensures TouchEffect(Written(h, first), s, draft, announce, uuid)
            == TouchEffect(h, s, draft, announce, uuid)
  {
    assert h.reg.sessions[s.id := first][s.id := s] == h.reg.sessions[s.id := s];
  }

  /** The version of a stored session that a decision leaves in memory. */
  function Reached(stored: Session, d: Decision): Session {
    if d.Touch? || d.RefuseAfter? then d.session else stored
  }

  /** Every session is stored under its own id. */
  ghost predicate OwnIds(r: Registry) { forall id :: id in r.sessions ==> r.sessions[id].id == id }

  /** A choice for a command without hash-map walks. */
  function Plain(uuid: nat): Choice { Choice(uuid, "", [], []) }

  // ---------------------------------------------------------------- starting a session

  /** A new session stored and its start noted, before the announcement. */
  function Started(h: Host, s: Session, uuid: nat): Effect {
    AppendDraft(h.(reg := Put(h.reg, s), repo := SaveSession(h.repo, s)), s.id,
                Draft(Lifecycle, Info, "Session started", None, s.startedAt), uuid)
  }

  lemma StoredTwice(h: Host, s: Session, uuid: nat)
    ensures var q := Queued(Started(h, s, uuid));
            Put(q.reg, s) == q.reg && SaveSession(q.repo, s) == q.repo
  {
    var q := Queued(Started(h, s, uuid));
    assert s.id in q.reg.sessions && q.reg.sessions[s.id] == s && q.reg.index[KeyOf(s)] == s.id;
    assert q.reg.sessions[s.id := s] == q.reg.sessions && q.reg.index[KeyOf(s) := s.id] == q.reg.index;
    var rows := q.repo.sessions;
    assert rows[s.id] == Row(h.repo.sessions, s) && Row(rows, s) == rows[s.id];
    assert rows[s.id := rows[s.id]] == rows;
  }

  lemma BeginIsStarted(h: Host, s: Session, uuid: nat)
    ensures BeginEffect(h, s, None, uuid) ==
              Started(h, s, uuid).(batch := Started(h, s, uuid).batch + [SessionUpsert(s)])
  {
    var started := Started(h, s, uuid);
    assert [] + started.batch + [SessionUpsert(s)] == started.batch + [SessionUpsert(s)];
  }

  lemma {:induction false} PushConcat(c: Pending, a: seq<Payload>, b: seq<Payload>)
    ensures PushAll(PushAll(c, a), b) == PushAll(c, a + b)
  {
    if b == [] {
      assert a + b == a;
    } else {
      PushConcat(c, a, b[..|b| - 1]);
      assert (a + b)[..|a + b| - 1] == a + b[..|b| - 1];
    }
  }

  lemma BeginElsewhere(h: Host, s: Session, uuid: nat, pending: Pending)
    ensures BeginEffect(h.(pending := pending), s, None, uuid)
            == BeginEffect(h, s, None, uuid).(host := BeginEffect(h, s, None, uuid).host.(pending := pending))
    ensures BeginEffect(h, s, None, uuid).host.pending == h.pending
  {
  }

  lemma BeginBatches(h: Host, s: Session, evict: Option<string>, uuid: nat)
    requires evict.Some? ==> evict.value in h.reg.sessions
    ensures BeginEffect(h, s, evict, uuid).host == BeginEffect(RoomFor(h, evict).host, s, None, uuid).host
    ensures BeginEffect(h, s, evict, uuid).batch ==
              RoomFor(h, evict).batch + BeginEffect(RoomFor(h, evict).host, s, None, uuid).batch
  {
    var room := RoomFor(h, evict);
    BeginIsStarted(room.host, s, uuid);
  }

  /** Making room first and storing then is beginning with that eviction. */
  lemma BeginAfterRoom(h: Host, s: Session, evict: Option<string>, uuid: nat)
    requires evict.Some? ==> evict.value in h.reg.sessions
    ensures Queued(BeginEffect(Queued(RoomFor(h, evict)), s, None, uuid)) == Queued(BeginEffect(h, s, evict, uuid))
  {
    var room := RoomFor(h, evict);
    BeginBatches(h, s, evict, uuid);
    BeginElsewhere(room.host, s, uuid, Queued(room).pending);
    PushConcat(room.host.pending, room.batch, BeginEffect(room.host, s, None, uuid).batch);
  }

  ghost predicate NoDangling(r: Registry) { forall k :: k in r.index ==> r.index[k] in r.sessions }

  lemma RemovalCounts(r: Registry, id: string)
    requires id in r.sessions
    ensures |Remove(r, id).sessions| == |r.sessions| - 1
  {
    assert r.sessions.Keys == Remove(r, id).sessions.Keys + {id};
  }

  lemma AdmitBySessions(a: Registry, b: Registry, s: Session, victim: string)
    requires a.sessions == b.sessions
    ensures Admit(a, s, victim) == Admit(b, s, victim) && HasTerminal(a) == HasTerminal(b)
  {
  }

  /** What a start reports and leaves behind; it is refused for capacity only when nothing is evictable. */
  ghost predicate StartOutcome(h: Host, cmd: Command, idFor: IdFor, choice: Choice, error: Option<Error>, after: Host)
    requires cmd.SessionStart?
  {
    var d := DecideStart(h, cmd, idFor, choice);
    && error == ErrorOf(d)
    && after == Queued(Commit(NoteKey(h, cmd), d, choice.uuid))
    && (d == Refuse(SessionCapacity) ==> !HasTerminal(h.reg))
  }

  // ---------------------------------------------------------------- changing many sessions

  function Part(changed: map<string, Session>, ids: seq<string>): map<string, Session> {
    map id | id in ids && id in changed :: changed[id]
  }

  function Saved(h: Host, s: Session): Host { Written(h, s).(repo := SaveSession(h.repo, s)) }

  lemma PartGrows(changed: map<string, Session>, done: seq<string>, id: string)
    requires id in changed
    ensures Part(changed, done + [id]) == Part(changed, done)[id := changed[id]]
  {
  }

  lemma SumUpdate(a: map<string, Session>, b: map<string, Session>, id: string, s: Session)
    ensures a + b[id := s] == (a + b)[id := s]
  {
  }

  lemma RowsGrow(rows: map<string, Session>, part: map<string, Session>, id: string, s: Session)
    ensures Rows(rows, part[id := s]) == Rows(rows, part)[id := Row(rows, s)]
  {
  }

  /** Saving one session after another saves them all. */
  lemma SaveOneMore(h: Host, changed: map<string, Session>, done: seq<string>, id: string)
    requires id in changed && changed[id].id == id && id !in done
    ensures SaveAll(h, Part(changed, done + [id])) == Saved(SaveAll(h, Part(changed, done)), changed[id])
  {
    var part, s, rows := Part(changed, done), changed[id], h.repo.sessions;
    PartGrows(changed, done, id);
    SumUpdate(h.reg.sessions, part, id, s);
    RowsGrow(rows, part, id, s);
    SumUpdate(rows, Rows(rows, part), id, Row(rows, s));
    assert Row(rows + Rows(rows, part), s) == Row(rows, s);
  }

  lemma NotYetSaved(h: Host, changed: map<string, Session>, done: seq<string>, id: string)
    requires id in h.reg.sessions && id !in done
    ensures var now := SaveAll(h, Part(changed, done)).reg.sessions; id in now && now[id] == h.reg.sessions[id]
  {
  }

  lemma SaveNone(h: Host, changed: map<string, Session>)
    ensures SaveAll(h, Part(changed, [])) == h
  {
    assert Part(changed, []) == map[] && Rows(h.repo.sessions, map[]) == map[];
    assert h.reg.sessions + map[] == h.reg.sessions && h.repo.sessions + map[] == h.repo.sessions;
  }

  lemma PartIsAll(changed: map<string, Session>, ids: seq<string>)
    requires forall k :: k in changed ==> k in ids
    ensures Part(changed, ids) == changed
  {
  }

  // ---------------------------------------------------------------- marking stale sessions

  /** One session saved and announced. */
  function Marked(h: Host, s: Session): Host { Saved(h, s).(pending := Push(h.pending, SessionUpsert(s))) }

  /** The listed sessions saved and announced in that order. */
  function MarkedAll(h: Host, stale: map<string, Session>, ids: seq<string>): Host
    requires forall k :: k in ids ==> k in stale
  {
    Queued(Effect(SaveAll(h, Part(stale, ids)), UpsertsIn(stale, ids)))
  }

  lemma MarkedNone(h: Host, stale: map<string, Session>)
    ensures MarkedAll(h, stale, []) == h
  {
    SaveNone(h, stale);
  }

  lemma MarkedSnoc(h: Host, stale: map<string, Session>, done: seq<string>, id: string)
    requires (forall k :: k in done ==> k in stale) && id in stale && id !in done && stale[id].id == id
    ensures MarkedAll(h, stale, done + [id]) == Marked(MarkedAll(h, stale, done), stale[id])
  {
    SaveOneMore(h, stale, done, id);
    assert UpsertsIn(stale, done + [id]) == UpsertsIn(stale, done) + [SessionUpsert(stale[id])];
    QueuedSnoc(Effect(SaveAll(h, Part(stale, done + [id])), UpsertsIn(stale, done)), SessionUpsert(stale[id]));
  }

  lemma MarkedOneMore(h: Host, now: int, ids: seq<string>, i: nat)
    requires OwnIds(h.reg) && IsOrder(ids, StaleSessions(h.reg.sessions, now).Keys) && i < |ids|
    ensures var stale := StaleSessions(h.reg.sessions, now);
            var sofar := MarkedAll(h, stale, ids[..i]);
            && ids[i] in sofar.reg.sessions && sofar.reg.sessions[ids[i]] == h.reg.sessions[ids[i]]
            && MarkedAll(h, stale, ids[..i + 1]) == Marked(sofar, Staled(h.reg.sessions[ids[i]], now))
  {
    var stale := StaleSessions(h.reg.sessions, now);
    assert ids[i] in ids && ids[i] in stale && ids[..i + 1] == ids[..i] + [ids[i]];
    NotYetSaved(h, stale, ids[..i], ids[i]);
    MarkedSnoc(h, stale, ids[..i], ids[i]);
  }

  // ---------------------------------------------------------------- publishing

  lemma FlushNothing(h: Host)
    requires h.pending == NOTHING
    ensures Flush(h, []) == h
  {
    assert Drain(NOTHING, []) == [];
    assert h.emitted + [] == h.emitted;
  }

  lemma EffectIgnoresOrder(h: Host, cmd: Command, idFor: IdFor, choice: Choice, order: seq<string>)
    ensures EffectOf(h, cmd, idFor, choice.(order := order)) == EffectOf(h, cmd, idFor, choice)
  {
    if AboutSession(cmd) { DecideIgnoresOrder(h, cmd, idFor, choice, order); }
  }

  lemma DecideIgnoresOrder(h: Host, cmd: Command, idFor: IdFor, choice: Choice, order: seq<string>)
    requires AboutSession(cmd)
    ensures Decide(h, cmd, idFor, choice.(order := order)) == Decide(h, cmd, idFor, choice)
  {
  }

  /** Queueing an effect and flushing it is executing the command with that order. */
  lemma PublishQueued(h: Host, cmd: Command, idFor: IdFor, choice: Choice, order: seq<string>)
    requires IsOrder(order, Queued(EffectOf(h, cmd, idFor, choice)).pending.upserts.Keys)
    ensures Exec(h, cmd, idFor, choice.(order := order)) == Flush(Queued(EffectOf(h, cmd, idFor, choice)), order)
  {
    EffectIgnoresOrder(h, cmd, idFor, choice, order);
  }

  /** What the handlers need of the registry. */
  lemma CoreGives(idFor: IdFor, h: Host)
    requires CoreOk(idFor, h)
    ensures OwnIds(h.reg) && NoDangling(h.reg) && |h.reg.sessions| <= MAX_SESSIONS
  {
    forall k | k in h.reg.index
      ensures h.reg.index[k] in h.reg.sessions
    {
      assert h.reg.index[k] in Keys(h.reg.sessions);
    }
  }

  lemma OtherIgnoresChoice(h: Host, cmd: Command, order: seq<string>)
    requires !AboutSession(cmd) && !cmd.Tick?
    ensures WideEffect(h, cmd, order) == WideEffect(h, cmd, [])
  {
  }

  lemma TickIsMarking(h: Host, now: int, order: seq<string>)
    requires IsOrder(order, StaleSessions(h.reg.sessions, now).Keys)
    ensures Queued(WideEffect(h, Tick(now), order)) == MarkedAll(h, StaleSessions(h.reg.sessions, now), order)
  {
    PartIsAll(StaleSessions(h.reg.sessions, now), order);
  }

  lemma RefusedQueuesNothing(h: Host, cmd: Command, idFor: IdFor, choice: Choice)
    requires AboutSession(cmd) && h.pending == NOTHING
    ensures ErrorOf(Decide(h, cmd, idFor, choice)).Some? ==> Queued(EffectOf(h, cmd, idFor, choice)).pending == NOTHING
  {
  }

  /** How a command is refused, if it is: of the commands not about one session only a removal can be. */
  function Refusal(h: Host, cmd: Command, idFor: IdFor, choice: Choice): Option<Error> {
    if AboutSession(cmd) then ErrorOf(Decide(h, cmd, idFor, choice))
    else if cmd.RemoveSession? && !Bounded(cmd.sessionId, MAX_SESSION_ID_LEN) then Some(Validation)
    else if cmd.RemoveSession? && cmd.sessionId !in h.reg.sessions then Some(SessionNotFound)
    else None
  }

  lemma OnlyStartsNeedRoom(h: Host, cmd: Command, idFor: IdFor, choice: Choice)
    requires AboutSession(cmd) && !cmd.SessionStart?
    ensures Decide(h, cmd, idFor, choice) != Refuse(SessionCapacity) && NoteKey(h, cmd) == h
  {
  }

  /** A valid choice but for the event id and the drain order. */
  ghost predicate Open(h: Host, cmd: Command, idFor: IdFor, choice: Choice) {
    && (cmd.SessionStart? && DecideStart(h, cmd, idFor, choice) == Refuse(SessionCapacity) ==> !HasTerminal(h.reg))
    && (cmd.Tick? ==> IsOrder(choice.staleOrder, StaleSessions(h.reg.sessions, cmd.now).Keys))
  }

  lemma Performed(h: Host, cmd: Command, idFor: IdFor, choice: Choice, order: seq<string>)
    requires h.pending == NOTHING && FreshEventId(h.reg, choice.uuid) && Open(h, cmd, idFor, choice)
    requires IsOrder(order, Queued(EffectOf(h, cmd, idFor, choice)).pending.upserts.Keys)
    ensures ValidChoice(h, cmd, idFor, choice.(order := order))
    ensures Exec(h, cmd, idFor, choice.(order := order)) == Flush(Queued(EffectOf(h, cmd, idFor, choice)), order)
    ensures Refusal(h, cmd, idFor, choice.(order := order)) == Refusal(h, cmd, idFor, choice)
  {
    if AboutSession(cmd) { DecideIgnoresOrder(h, cmd, idFor, choice, order); }
    PublishQueued(h, cmd, idFor, choice, order);
    EffectIgnoresOrder(h, cmd, idFor, choice, order);
    EffectKeepsQueue(h, cmd, idFor, choice);
  }

  lemma EffectKeepsQueue(h: Host, cmd: Command, idFor: IdFor, choice: Choice)
    ensures EffectOf(h, cmd, idFor, choice).host.pending == h.pending
  {
  }
}
