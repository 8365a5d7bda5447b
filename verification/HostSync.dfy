/** What every host command keeps: the registry invariant, the repository mirror and the stream. */
module HostSync {
  import opened Options
  import opened Protocol
  import opened Registry
  import opened Views
  import opened Coalescing
  import opened HostCore

  ghost predicate UniqueSources(adapters: seq<Adapter>) {
    forall i, j :: 0 <= i < j < |adapters| ==> adapters[i].source != adapters[j].source
  }

  /** Holds between any two commands. */
  ghost predicate CoreOk(idFor: IdFor, h: Host) {
    && RegistryOk(idFor, h.reg)
    && UniqueSources(h.adapters)
    && h.pending == NOTHING
    && |h.emitted| == h.sequence
    && forall i :: 0 <= i < |h.emitted| ==> h.emitted[i].sequence == i + 1
  }

  /** Memory and repository hold the same sessions and events. */
  predicate RepoSync(h: Host) {
    h.repo.sessions == h.reg.sessions && h.repo.events == h.reg.events
  }

  function ViewOf(h: Host): View { View(ReplicatedAll(h.reg.sessions), h.adapters, h.settings) }

  // ---------------------------------------------------------------- decisions

  /** A stored session is only ever overwritten by a version of itself. */
  predicate Succeeds(s: Session, r: Registry) {
    s.id in r.sessions && SameIdentity(r.sessions[s.id], s) && s.startedAt == r.sessions[s.id].startedAt
  }

  ghost predicate SoundDecision(d: Decision, h: Host, idFor: IdFor) {
    match d
    case Refuse(_) => true
    case Nothing => true
    case RefuseAfter(s, _, _) => Succeeds(s, h.reg)
    case Touch(s, draft, announce) =>
      Succeeds(s, h.reg) && (!announce ==> Replicated(s) == Replicated(h.reg.sessions[s.id]))
    case Begin(s, evict) =>
      && KeyOf(s) !in h.reg.index && Minted(idFor, s)
      && if evict.Some? then |h.reg.sessions| == MAX_SESSIONS && IsOldestTerminal(h.reg, evict.value)
         else |h.reg.sessions| < MAX_SESSIONS
  }

  lemma ResolvedIsStored(idFor: IdFor, r: Registry, source: AgentSource, externalId: string)
    requires RegistryOk(idFor, r)
    ensures match Resolve(r, source, externalId)
      case Some(s) => s.id in r.sessions && r.sessions[s.id] == s
      case None => ExternalKey(source, externalId) !in r.index
  {
    var k := ExternalKey(source, externalId);
    if k in r.index { assert r.index[k] in Keys(r.sessions); }
  }

  lemma StartSound(idFor: IdFor, h: Host, cmd: Command, choice: Choice)
    requires RegistryOk(idFor, h.reg) && cmd.SessionStart?
    ensures SoundDecision(DecideStart(h, cmd, idFor, choice), h, idFor)
  {
    ResolvedIsStored(idFor, h.reg, cmd.source, cmd.externalId);
  }

  lemma UpdateSound(idFor: IdFor, h: Host, cmd: Command)
    requires RegistryOk(idFor, h.reg) && cmd.SessionUpdate?
    ensures SoundDecision(DecideUpdate(h, cmd), h, idFor)
  {
    ResolvedIsStored(idFor, h.reg, cmd.source, cmd.externalId);
    var found := Resolve(h.reg, cmd.source, cmd.externalId);
    if found.Some? { UpdateOfSound(h, found.value, cmd, idFor); }
  }

  lemma UpdateOfSound(h: Host, s: Session, cmd: Command, idFor: IdFor)
    requires cmd.SessionUpdate? && s.id in h.reg.sessions && h.reg.sessions[s.id] == s
    ensures SoundDecision(UpdateOf(s, cmd), h, idFor)
  {
  }

  lemma EndSound(idFor: IdFor, h: Host, cmd: Command)
    requires RegistryOk(idFor, h.reg) && cmd.SessionEnd?
    ensures SoundDecision(DecideEnd(h, cmd), h, idFor)
  {
    ResolvedIsStored(idFor, h.reg, cmd.source, cmd.externalId);
  }

  lemma NoteSound(idFor: IdFor, h: Host, cmd: Command)
    requires RegistryOk(idFor, h.reg) && (cmd.LifecycleNote? || cmd.ToolNote?)
    ensures SoundDecision(DecideNote(h, cmd), h, idFor)
  {
    ResolvedIsStored(idFor, h.reg, cmd.source, cmd.externalId);
  }

  lemma AttentionSound(idFor: IdFor, h: Host, cmd: Command)
    requires RegistryOk(idFor, h.reg) && (cmd.SetAttention? || cmd.RegisterProcessRoot?)
    ensures SoundDecision(if cmd.SetAttention? then DecideAttention(h, cmd) else DecideRoot(h, cmd), h, idFor)
  {
    ResolvedIsStored(idFor, h.reg, cmd.source, cmd.externalId);
  }

  lemma ByIdSound(idFor: IdFor, h: Host, cmd: Command)
    requires RegistryOk(idFor, h.reg)
    requires cmd.AcknowledgeAttention? || cmd.ClearProcessRoot? || cmd.SetVerifiedTerminal?
    ensures SoundDecision(DecideById(h, cmd), h, idFor)
  {
  }

  lemma DecisionsAreSound(idFor: IdFor, h: Host, cmd: Command, choice: Choice)
    requires RegistryOk(idFor, h.reg) && AboutSession(cmd)
    ensures SoundDecision(Decide(h, cmd, idFor, choice), h, idFor)
  {
    if cmd.SessionStart? { StartSound(idFor, h, cmd, choice); }
    else if cmd.SessionUpdate? { UpdateSound(idFor, h, cmd); }
    else if cmd.SessionEnd? { EndSound(idFor, h, cmd); }
    else if cmd.LifecycleNote? || cmd.ToolNote? { NoteSound(idFor, h, cmd); }
    else if cmd.SetAttention? || cmd.RegisterProcessRoot? { AttentionSound(idFor, h, cmd); }
    else { ByIdSound(idFor, h, cmd); }
  }

  // ---------------------------------------------------------------- single-session effects

  /** Nothing outside registry and repository differs. */
  predicate SameElsewhere(a: Host, b: Host) {
    && a.settings == b.settings && a.adapters == b.adapters && a.metrics == b.metrics
    && a.pending == b.pending && a.sequence == b.sequence && a.emitted == b.emitted
  }

  lemma StoreKeeps(idFor: IdFor, h: Host, s: Session)
    requires RegistryOk(idFor, h.reg) && Succeeds(s, h.reg)
    ensures RegistryOk(idFor, h.reg.(sessions := h.reg.sessions[s.id := s]))
    ensures h.repo.sessions == h.reg.sessions ==> SaveSession(h.repo, s).sessions == h.reg.sessions[s.id := s]
    ensures ReplicatedAll(h.reg.sessions[s.id := s]) == ReplicatedAll(h.reg.sessions)[s.id := Replicated(s)]
  {
    PutKeeps(idFor, h.reg, s);
    RowOfVersion(h.reg, s);
  }

  lemma RowOfVersion(r: Registry, s: Session)
    requires Succeeds(s, r)
    ensures Row(r.sessions, s) == s
    ensures ReplicatedAll(r.sessions[s.id := s]) == ReplicatedAll(r.sessions)[s.id := Replicated(s)]
  {
  }

  lemma AppendDraftKeeps(idFor: IdFor, h: Host, id: string, d: Draft, uuid: nat)
    requires RegistryOk(idFor, h.reg) && id in h.reg.sessions && FreshEventId(h.reg, uuid)
    ensures RegistryOk(idFor, AppendDraft(h, id, d, uuid).host.reg)
    ensures AppendDraft(h, id, d, uuid).host.reg.sessions == h.reg.sessions
    ensures h.repo.events == h.reg.events ==>
              AppendDraft(h, id, d, uuid).host.repo.events == AppendDraft(h, id, d, uuid).host.reg.events
  {
    AppendKeeps(idFor, h.reg, MakeEvent(h, id, d, uuid));
  }

  lemma TouchKeeps(idFor: IdFor, h: Host, s: Session, draft: Option<Draft>, announce: bool, uuid: nat)
    requires RegistryOk(idFor, h.reg) && Succeeds(s, h.reg) && FreshEventId(h.reg, uuid)
    ensures var after := TouchEffect(h, s, draft, announce, uuid).host;
            && RegistryOk(idFor, after.reg) && after.reg.sessions == h.reg.sessions[s.id := s]
            && SameElsewhere(h, after)
            && (RepoSync(h) ==> RepoSync(after))
  {
    var stored := h.(reg := h.reg.(sessions := h.reg.sessions[s.id := s]), repo := SaveSession(h.repo, s));
    StoreKeeps(idFor, h, s);
    if draft.Some? { AppendDraftKeeps(idFor, stored, s.id, draft.value, uuid); }
  }

  lemma TouchView(h: Host, after: Host, s: Session, noted: bool, e: Event, announce: bool)
    requires after.reg.sessions == h.reg.sessions[s.id := s] && SameElsewhere(h, after)
    requires !announce ==> s.id in h.reg.sessions && Replicated(s) == Replicated(h.reg.sessions[s.id])
    ensures ViewOf(after) == Fold(ViewOf(h), Announced([], noted, e, announce, s))
  {
    AnnouncedView(h, h, after, [], noted, e, announce, s);
  }

  lemma AnnouncedView(h: Host, mid: Host, after: Host, before: seq<Payload>, noted: bool, e: Event, announce: bool,
                      s: Session)
    requires Fold(ViewOf(h), before) == ViewOf(mid)
    requires after.reg.sessions == mid.reg.sessions[s.id := s] && SameElsewhere(mid, after)
    requires !announce ==> s.id in mid.reg.sessions && Replicated(s) == Replicated(mid.reg.sessions[s.id])
    ensures ViewOf(after) == Fold(ViewOf(h), Announced(before, noted, e, announce, s))
  {
    FoldAnnounced(ViewOf(h), before, noted, e, announce, s);
    StoredView(mid.reg.sessions, s);
  }

  lemma StoredView(sessions: map<string, Session>, s: Session)
    ensures ReplicatedAll(sessions[s.id := s]) == ReplicatedAll(sessions)[s.id := Replicated(s)]
    ensures s.id in sessions && Replicated(s) == Replicated(sessions[s.id]) ==>
              ReplicatedAll(sessions[s.id := s]) == ReplicatedAll(sessions)
  {
  }

  function Announced(before: seq<Payload>, noted: bool, e: Event, announce: bool, s: Session): seq<Payload> {
    before + (if noted then [SessionEvent(e)] else []) + (if announce then [SessionUpsert(s)] else [])
  }

  lemma TouchBatch(h: Host, s: Session, draft: Option<Draft>, announce: bool, uuid: nat) returns (e: Event)
    ensures TouchEffect(h, s, draft, announce, uuid).batch == Announced([], draft.Some?, e, announce, s)
  {
    var stored := h.(reg := h.reg.(sessions := h.reg.sessions[s.id := s]), repo := SaveSession(h.repo, s));
    e := MakeEvent(stored, s.id, if draft.Some? then draft.value else Draft(Lifecycle, Info, "", None, 0), uuid);
  }

  /** Events leave the view alone, so a batch of this shape acts by its upsert only. */
  lemma FoldAnnounced(v: View, before: seq<Payload>, noted: bool, e: Event, announce: bool, s: Session)
    ensures Fold(v, Announced(before, noted, e, announce, s)) ==
            if announce then ApplyPayload(Fold(v, before), SessionUpsert(s)) else Fold(v, before)
  {
    var mid := before + (if noted then [SessionEvent(e)] else []);
    if noted { FoldSnoc(v, before, SessionEvent(e)); } else { assert mid == before; }
    if announce { FoldSnoc(v, mid, SessionUpsert(s)); } else { assert Announced(before, noted, e, announce, s) == mid; }
  }

  lemma EvictKeeps(idFor: IdFor, h: Host, id: string)
    requires RegistryOk(idFor, h.reg) && id in h.reg.sessions
    ensures var effect := EvictEffect(h, id);
            && RegistryOk(idFor, effect.host.reg) && |effect.host.reg.sessions| == |h.reg.sessions| - 1
            && (RepoSync(h) ==> RepoSync(effect.host))
            && ViewOf(effect.host) == ApplyPayload(ViewOf(h), SessionRemove(id))
  {
    RemoveKeeps(idFor, h.reg, id);
    EvictShows(h, id);
  }

  lemma EvictShows(h: Host, id: string)
    requires id in h.reg.sessions
    ensures RepoSync(h) ==> RepoSync(EvictEffect(h, id).host)
    ensures ViewOf(EvictEffect(h, id).host) == ApplyPayload(ViewOf(h), SessionRemove(id))
  {
    assert ReplicatedAll(h.reg.sessions - {id}) == ReplicatedAll(h.reg.sessions) - {id};
  }

  lemma RemoveKeepsNew(idFor: IdFor, r: Registry, id: string, key: string)
    requires RegistryOk(idFor, r) && id in r.sessions && key !in r.index
    ensures key !in Remove(r, id).index
  {
  }

  lemma FreshAfterRemove(r: Registry, id: string, uuid: nat)
    requires FreshEventId(r, uuid) && id in r.sessions
    ensures FreshEventId(Remove(r, id), uuid)
  {
    forall a, i | EventAt(Remove(r, id).events, a, i) ensures Remove(r, id).events[a][i].id != uuid {
      assert EventAt(r.events, a, i);
    }
  }

  /** The room made for a new session, when the registry is full. */
  function RoomFor(h: Host, evict: Option<string>): Effect
    requires evict.Some? ==> evict.value in h.reg.sessions
  {
    if evict.Some? then EvictEffect(h, evict.value) else Effect(h, [])
  }

  lemma RoomKeeps(idFor: IdFor, h: Host, s: Session, evict: Option<string>, uuid: nat)
    requires RegistryOk(idFor, h.reg) && SoundDecision(Begin(s, evict), h, idFor) && FreshEventId(h.reg, uuid)
    ensures var room := RoomFor(h, evict);
            && RegistryOk(idFor, room.host.reg) && |room.host.reg.sessions| < MAX_SESSIONS
            && KeyOf(s) !in room.host.reg.index && FreshEventId(room.host.reg, uuid)
            && SameElsewhere(h, room.host)
            && (RepoSync(h) ==> RepoSync(room.host))
            && ViewOf(room.host) == Fold(ViewOf(h), room.batch)
  {
    if evict.Some? {
      EvictKeeps(idFor, h, evict.value);
      RemoveKeepsNew(idFor, h.reg, evict.value, KeyOf(s));
      FreshAfterRemove(h.reg, evict.value, uuid);
      FoldSnoc(ViewOf(h), [], SessionRemove(evict.value));
      assert [] + [SessionRemove(evict.value)] == [SessionRemove(evict.value)];
    }
  }

  lemma InsertEffectKeeps(idFor: IdFor, h: Host, s: Session, uuid: nat)
    requires Injective(idFor) && RegistryOk(idFor, h.reg) && |h.reg.sessions| < MAX_SESSIONS
    requires KeyOf(s) !in h.reg.index && Minted(idFor, s) && FreshEventId(h.reg, uuid)
    ensures var stored := h.(reg := Put(h.reg, s), repo := SaveSession(h.repo, s));
            var started := AppendDraft(stored, s.id, Draft(Lifecycle, Info, "Session started", None, s.startedAt),
                                       uuid);
            && RegistryOk(idFor, started.host.reg) && started.host.reg.sessions == h.reg.sessions[s.id := s]
            && SameElsewhere(h, started.host)
            && (RepoSync(h) ==> RepoSync(started.host))
  {
    InsertKeeps(idFor, h.reg, s);
    var stored := h.(reg := Put(h.reg, s), repo := SaveSession(h.repo, s));
    assert FreshEventId(stored.reg, uuid);
    AppendDraftKeeps(idFor, stored, s.id, Draft(Lifecycle, Info, "Session started", None, s.startedAt), uuid);
  }

  lemma BeginKeeps(idFor: IdFor, h: Host, s: Session, evict: Option<string>, uuid: nat)
    requires Injective(idFor) && RegistryOk(idFor, h.reg) && SoundDecision(Begin(s, evict), h, idFor)
    requires FreshEventId(h.reg, uuid)
    ensures var after := BeginEffect(h, s, evict, uuid).host;
            && RegistryOk(idFor, after.reg) && SameElsewhere(h, after)
            && after.reg.sessions == RoomFor(h, evict).host.reg.sessions[s.id := s]
            && (RepoSync(h) ==> RepoSync(after))
  {
    RoomKeeps(idFor, h, s, evict, uuid);
    InsertEffectKeeps(idFor, RoomFor(h, evict).host, s, uuid);
  }

  lemma BeginBatch(h: Host, s: Session, evict: Option<string>, uuid: nat) returns (e: Event)
    requires evict.Some? ==> evict.value in h.reg.sessions
    ensures BeginEffect(h, s, evict, uuid).batch == Announced(RoomFor(h, evict).batch, true, e, true, s)
  {
    var room := RoomFor(h, evict);
    var stored := room.host.(reg := Put(room.host.reg, s), repo := SaveSession(room.host.repo, s));
    e := MakeEvent(stored, s.id, Draft(Lifecycle, Info, "Session started", None, s.startedAt), uuid);
  }

  // ---------------------------------------------------------------- batches

  /** A batch without upserts, or with only its last payload an upsert, or without removals, is safe to coalesce. */
  lemma SafeBatch(batch: seq<Payload>)
    requires NoSnapshot(batch)
    requires
      || (forall i :: 0 <= i < |batch| - 1 ==> !batch[i].SessionUpsert?)
      || (forall p :: p in batch ==> !p.SessionRemove?)
    ensures NoUpsertUndone(batch)
  {
    forall id ensures !UpsertUndone(batch, id) {
      if LastUpsert(batch, id).Some? && batch[|batch| - 1].SessionUpsert? && batch[|batch| - 1].session.id != id {
        var i :| 0 <= i < |batch| && batch[i] == LastUpsert(batch, id).value;
      }
    }
  }

  lemma AnnouncedSafe(before: seq<Payload>, noted: bool, e: Event, announce: bool, s: Session)
    requires forall p :: p in before ==> p.SessionRemove?
    ensures NoSnapshot(Announced(before, noted, e, announce, s))
    ensures NoUpsertUndone(Announced(before, noted, e, announce, s))
  {
    assert forall i :: 0 <= i < |before| ==> before[i] in before;
    SafeBatch(Announced(before, noted, e, announce, s));
  }

  // ---------------------------------------------------------------- commits

  /** A rejection that changed what the renderer should see, without a frame. */
  predicate LeaksToView(h: Host, d: Decision) {
    && d.RefuseAfter? && d.session.id in h.reg.sessions
    && Replicated(d.session) != Replicated(h.reg.sessions[d.session.id])
  }

  /** A rejection that changed the session in memory only. */
  predicate LeaksFromRepo(h: Host, d: Decision) {
    d.RefuseAfter? && !d.saved && d.session.id in h.reg.sessions && d.session != h.reg.sessions[d.session.id]
  }

  ghost predicate Evictable(d: Decision, h: Host) {
    d.Begin? && d.evict.Some? ==> d.evict.value in h.reg.sessions
  }

  lemma CommitKeepsRegistry(idFor: IdFor, h: Host, d: Decision, uuid: nat)
    requires Injective(idFor) && RegistryOk(idFor, h.reg) && SoundDecision(d, h, idFor) && FreshEventId(h.reg, uuid)
    ensures Evictable(d, h) && RegistryOk(idFor, Commit(h, d, uuid).host.reg)
    ensures SameElsewhere(h, Commit(h, d, uuid).host)
  {
    match d
    case Refuse(_) =>
    case Nothing =>
    case RefuseAfter(s, _, _) => StoreKeeps(idFor, h, s);
    case Begin(s, evict) => BeginKeeps(idFor, h, s, evict, uuid);
    case Touch(s, draft, announce) => TouchKeeps(idFor, h, s, draft, announce, uuid);
  }

  lemma CommitRepo(idFor: IdFor, h: Host, d: Decision, uuid: nat)
    requires Injective(idFor) && RegistryOk(idFor, h.reg) && SoundDecision(d, h, idFor) && FreshEventId(h.reg, uuid)
    requires Evictable(d, h) && RepoSync(h)
    ensures RepoSync(Commit(h, d, uuid).host) <==> !LeaksFromRepo(h, d)
  {
    match d
    case Refuse(_) =>
    case Nothing =>
    case RefuseAfter(s, saved, _) =>
      StoreKeeps(idFor, h, s);
      if s == h.reg.sessions[s.id] { assert h.reg.sessions[s.id := s] == h.reg.sessions; }
      else { assert h.reg.sessions[s.id := s][s.id] != h.reg.sessions[s.id]; }
    case Begin(s, evict) => BeginKeeps(idFor, h, s, evict, uuid);
    case Touch(s, draft, announce) => TouchKeeps(idFor, h, s, draft, announce, uuid);
  }

  lemma RefusalView(idFor: IdFor, h: Host, s: Session, saved: bool, error: Error)
    requires RegistryOk(idFor, h.reg) && Succeeds(s, h.reg)
    ensures ViewOf(Commit(h, RefuseAfter(s, saved, error), 0).host) == ViewOf(h) <==>
              Replicated(s) == Replicated(h.reg.sessions[s.id])
  {
    RowOfVersion(h.reg, s);
    UpdateShows(ReplicatedAll(h.reg.sessions), s.id, Replicated(s));
  }

  lemma UpdateShows(sessions: map<string, Session>, id: string, s: Session)
    requires id in sessions
    ensures sessions[id := s] == sessions <==> s == sessions[id]
  {
    assert sessions[id := s][id] == s;
  }

  lemma CommitView(idFor: IdFor, h: Host, d: Decision, uuid: nat)
    requires Injective(idFor) && RegistryOk(idFor, h.reg) && SoundDecision(d, h, idFor) && FreshEventId(h.reg, uuid)
    requires Evictable(d, h)
    ensures var effect := Commit(h, d, uuid);
            ViewOf(effect.host) == Fold(ViewOf(h), effect.batch) <==> !LeaksToView(h, d)
  {
    match d
    case Refuse(_) =>
    case Nothing =>
    case RefuseAfter(s, saved, error) => RefusalView(idFor, h, s, saved, error);
    case Begin(s, evict) =>
      RoomKeeps(idFor, h, s, evict, uuid);
      BeginKeeps(idFor, h, s, evict, uuid);
      var e := BeginBatch(h, s, evict, uuid);
      AnnouncedView(h, RoomFor(h, evict).host, BeginEffect(h, s, evict, uuid).host, RoomFor(h, evict).batch, true, e,
                    true, s);
    case Touch(s, draft, announce) =>
      TouchKeeps(idFor, h, s, draft, announce, uuid);
      var e := TouchBatch(h, s, draft, announce, uuid);
      TouchView(h, TouchEffect(h, s, draft, announce, uuid).host, s, draft.Some?, e, announce);
  }

  lemma CommitBatch(h: Host, d: Decision, uuid: nat)
    requires Evictable(d, h)
    ensures NoSnapshot(Commit(h, d, uuid).batch) && NoUpsertUndone(Commit(h, d, uuid).batch)
  {
    match d
    case Refuse(_) => SafeBatch([]);
    case Nothing => SafeBatch([]);
    case RefuseAfter(_, _, _) => SafeBatch([]);
    case Begin(s, evict) =>
      var e := BeginBatch(h, s, evict, uuid);
      AnnouncedSafe(RoomFor(h, evict).batch, true, e, true, s);
    case Touch(s, draft, announce) =>
      var e := TouchBatch(h, s, draft, announce, uuid);
      AnnouncedSafe([], draft.Some?, e, announce, s);
  }
}
