/** Host invariants over every run of commands, accepted or refused. */
module HostRuns {
  import opened Options
  import opened Sequences
  import opened Protocol
  import opened Registry
  import opened Views
  import opened Coalescing
  import opened HostCore
  import opened HostSync

  // ---------------------------------------------------------------- adapters

  lemma {:induction false} ReplaceFirstIsMerge(adapters: seq<Adapter>, a: Adapter)
    requires UniqueSources(adapters)
    ensures ReplaceFirst(adapters, a) == MergeAdapter(adapters, a)
  {
    if adapters != [] {
      var rest := adapters[1..];
      if adapters[0].source == a.source {
        assert HasSource(adapters, a.source);
        assert MergeAdapter(adapters, a)[1..] == rest;
      } else {
        ReplaceFirstIsMerge(rest, a);
        assert HasSource(adapters, a.source) <==> HasSource(rest, a.source) by {
          assert forall x :: x in adapters <==> x == adapters[0] || x in rest;
        }
      }
    }
  }

  lemma MergeKeepsUnique(adapters: seq<Adapter>, a: Adapter)
    requires UniqueSources(adapters)
    ensures UniqueSources(MergeAdapter(adapters, a))
  {
    var merged := MergeAdapter(adapters, a);
    forall i, j | 0 <= i < j < |merged| ensures merged[i].source != merged[j].source {
      if !HasSource(adapters, a.source) { assert i < |adapters| && adapters[i] in adapters; }
    }
  }

  // ---------------------------------------------------------------- commands over the whole registry

  /** Replacing sessions by versions of themselves keeps the registry. */
  ghost predicate Versions(changed: map<string, Session>, r: Registry) {
    forall id :: id in changed ==> changed[id].id == id && Succeeds(changed[id], r)
  }

  lemma SaveAllKeeps(idFor: IdFor, h: Host, changed: map<string, Session>)
    requires RegistryOk(idFor, h.reg) && Versions(changed, h.reg)
    ensures RegistryOk(idFor, SaveAll(h, changed).reg)
    ensures RepoSync(h) ==> RepoSync(SaveAll(h, changed))
  {
    MergedVersions(h.reg, changed);
    ReplaceSessionsKeeps(idFor, h.reg, h.reg.sessions + changed);
    if RepoSync(h) { RowsOfVersions(h.reg, changed); }
  }

  lemma RowsOfVersions(r: Registry, changed: map<string, Session>)
    requires Versions(changed, r)
    ensures Rows(r.sessions, changed) == changed
  {
    forall id | id in changed ensures Row(r.sessions, changed[id]) == changed[id] { }
  }

  lemma MergedVersions(r: Registry, changed: map<string, Session>)
    requires Versions(changed, r)
    ensures (r.sessions + changed).Keys == r.sessions.Keys
    ensures forall id :: id in r.sessions ==> SameIdentity(r.sessions[id], (r.sessions + changed)[id])
  {
    forall id | id in changed ensures id in r.sessions && SameIdentity(r.sessions[id], changed[id]) { }
  }

  lemma StaleVersions(r: Registry, now: int)
    requires forall id :: id in r.sessions ==> r.sessions[id].id == id
    ensures Versions(StaleSessions(r.sessions, now), r)
  {
  }

  lemma MeasuredVersions(r: Registry, frame: MetricsFrame)
    requires forall id :: id in r.sessions ==> r.sessions[id].id == id
    ensures Versions(MeasuredSessions(r.sessions, frame), r)
    ensures ReplicatedAll(r.sessions + MeasuredSessions(r.sessions, frame)) == ReplicatedAll(r.sessions)
  {
  }

  lemma UnmeasuredView(sessions: map<string, Session>)
    ensures ReplicatedAll(Unmeasured(sessions)) == ReplicatedAll(sessions)
  {
  }

  lemma UnmeasuredKeeps(idFor: IdFor, r: Registry)
    requires RegistryOk(idFor, r)
    ensures RegistryOk(idFor, r.(sessions := Unmeasured(r.sessions)))
    ensures ReplicatedAll(Unmeasured(r.sessions)) == ReplicatedAll(r.sessions)
  {
    ReplaceSessionsKeeps(idFor, r, Unmeasured(r.sessions));
    UnmeasuredView(r.sessions);
  }

  lemma {:induction false} FoldUpserts(v: View, changed: map<string, Session>, order: seq<string>)
    requires forall k :: k in order ==> k in changed && changed[k].id == k
    ensures Fold(v, UpsertsIn(changed, order)).settings == v.settings
    ensures Fold(v, UpsertsIn(changed, order)).adapters == v.adapters
    ensures Fold(v, UpsertsIn(changed, order)).sessions == v.sessions + (map k | k in order :: Replicated(changed[k]))
  {
    if order != [] {
      var init := order[..|order| - 1];
      FoldUpserts(v, changed, init);
      assert UpsertsIn(changed, order)[..|order| - 1] == UpsertsIn(changed, init);
      OneMoreUpsert(v.sessions, changed, order);
    } else {
      assert v.sessions + map[] == v.sessions;
    }
  }

  lemma OneMoreUpsert(sessions: map<string, Session>, changed: map<string, Session>, order: seq<string>)
    requires order != [] && forall k :: k in order ==> k in changed
    ensures var init, last := order[..|order| - 1], order[|order| - 1];
            sessions + (map k | k in order :: Replicated(changed[k])) ==
            (sessions + (map k | k in init :: Replicated(changed[k])))[last := Replicated(changed[last])]
  {
    assert order == order[..|order| - 1] + [order[|order| - 1]];
  }

  lemma TickView(h: Host, now: int, order: seq<string>)
    requires forall id :: id in h.reg.sessions ==> h.reg.sessions[id].id == id
    requires IsOrder(order, StaleSessions(h.reg.sessions, now).Keys)
    ensures var stale := StaleSessions(h.reg.sessions, now);
            ViewOf(SaveAll(h, stale)) == Fold(ViewOf(h), UpsertsIn(stale, order))
  {
    var stale := StaleSessions(h.reg.sessions, now);
    assert forall k :: k in stale ==> stale[k].id == k;
    UpsertedView(h, stale, order);
  }

  lemma UpsertedView(h: Host, changed: map<string, Session>, order: seq<string>)
    requires (forall k :: k in changed ==> changed[k].id == k) && IsOrder(order, changed.Keys)
    ensures ViewOf(SaveAll(h, changed)) == Fold(ViewOf(h), UpsertsIn(changed, order))
  {
    FoldUpserts(ViewOf(h), changed, order);
    assert (map k | k in order :: Replicated(changed[k])) == ReplicatedAll(changed);
    ReplicatedSum(h.reg.sessions, changed);
  }

  lemma ReplicatedSum(a: map<string, Session>, b: map<string, Session>)
    ensures ReplicatedAll(a + b) == ReplicatedAll(a) + ReplicatedAll(b)
  {
  }

  // ---------------------------------------------------------------- pruning

  ghost predicate HasOlder(events: map<string, seq<Event>>, cutoff: int) {
    exists id, i :: EventAt(events, id, i) && events[id][i].occurredAt < cutoff
  }

  lemma NewerIsAll(events: map<string, seq<Event>>, cutoff: int)
    requires forall id :: id in events ==> events[id] != []
    ensures Newer(events, cutoff) == events <==> !HasOlder(events, cutoff)
  {
    var keep := NotBefore(cutoff);
    forall id | id in events
      ensures Filter(events[id], keep) == events[id] <==> forall e :: e in events[id] ==> keep(e)
    {
      FilterShrinks(events[id], keep);
    }
    var newer := Newer(events, cutoff);
    if !HasOlder(events, cutoff) {
      forall id | id in events ensures Filter(events[id], keep) == events[id] {
        forall e | e in events[id] ensures keep(e) {
          var i :| 0 <= i < |events[id]| && events[id][i] == e;
          assert EventAt(events, id, i);
        }
      }
      assert newer == events;
    } else {
      var id, i :| EventAt(events, id, i) && events[id][i].occurredAt < cutoff;
      assert events[id][i] in events[id] && !keep(events[id][i]);
      assert id in newer ==> newer[id] != events[id];
    }
  }

  // ---------------------------------------------------------------- one command

  predicate ViewLeak(h: Host, cmd: Command, idFor: IdFor, choice: Choice) {
    AboutSession(cmd) && LeaksToView(h, Decide(h, cmd, idFor, choice))
  }

  ghost predicate RepoLeak(h: Host, cmd: Command, idFor: IdFor, choice: Choice) {
    || (AboutSession(cmd) && LeaksFromRepo(h, Decide(h, cmd, idFor, choice)))
    || (cmd.PruneHistory? && HasOlder(h.repo.events, cmd.cutoff))
  }

  lemma NoteKeyKeeps(idFor: IdFor, h: Host, cmd: Command, choice: Choice)
    requires RegistryOk(idFor, h.reg) && AboutSession(cmd) && FreshEventId(h.reg, choice.uuid)
    ensures var n := NoteKey(h, cmd);
            && RegistryOk(idFor, n.reg) && n.reg.sessions == h.reg.sessions && SameElsewhere(h, n)
            && ViewOf(n) == ViewOf(h)
            && n.reg.events == h.reg.events && n.repo.sessions == h.repo.sessions && n.repo.events == h.repo.events
            && FreshEventId(n.reg, choice.uuid)
            && SoundDecision(Decide(h, cmd, idFor, choice), n, idFor)
  {
    DecisionsAreSound(idFor, h, cmd, choice);
  }

  predicate Frames(h: Host, after: Host) {
    after.pending == h.pending && after.sequence == h.sequence && after.emitted == h.emitted
  }

  lemma MetricsKeeps(idFor: IdFor, h: Host, frame: MetricsFrame)
    requires RegistryOk(idFor, h.reg)
    ensures RegistryOk(idFor, SaveAll(h, MeasuredSessions(h.reg.sessions, frame)).reg)
  {
    MeasuredVersions(h.reg, frame);
    SaveAllKeeps(idFor, h, MeasuredSessions(h.reg.sessions, frame));
  }

  lemma TickKeeps(idFor: IdFor, h: Host, now: int)
    requires RegistryOk(idFor, h.reg)
    ensures RegistryOk(idFor, SaveAll(h, StaleSessions(h.reg.sessions, now)).reg)
  {
    StaleVersions(h.reg, now);
    SaveAllKeeps(idFor, h, StaleSessions(h.reg.sessions, now));
  }

  lemma NoEventsKeeps(idFor: IdFor, r: Registry)
    requires RegistryOk(idFor, r)
    ensures RegistryOk(idFor, r.(events := map[]))
  {
  }

  lemma OtherEffectKeeps(idFor: IdFor, h: Host, cmd: Command, order: seq<string>)
    requires RegistryOk(idFor, h.reg) && !AboutSession(cmd)
    ensures RegistryOk(idFor, WideEffect(h, cmd, order).host.reg)
  {
    if cmd.RecordMetrics? || cmd.Tick? {
      ManyKeep(idFor, h, cmd, order);
    } else {
      match cmd
      case RemoveSession(id) => if id in h.reg.sessions { RemoveKeeps(idFor, h.reg, id); }
      case PurgeMetrics => UnmeasuredKeeps(idFor, h.reg);
      case PurgeEvents => NoEventsKeeps(idFor, h.reg);
      case _ =>
    }
  }

  lemma ManyKeep(idFor: IdFor, h: Host, cmd: Command, order: seq<string>)
    requires RegistryOk(idFor, h.reg) && (cmd.RecordMetrics? || cmd.Tick?)
    ensures RegistryOk(idFor, WideEffect(h, cmd, order).host.reg)
  {
    ManyRegistry(h, cmd, order);
    if cmd.Tick? { TickKeeps(idFor, h, cmd.now); } else { MetricsKeeps(idFor, h, cmd.frame); }
  }

  lemma ManyRegistry(h: Host, cmd: Command, order: seq<string>)
    requires cmd.RecordMetrics? || cmd.Tick?
    ensures WideEffect(h, cmd, order).host.reg ==
              SaveAll(h, if cmd.Tick? then StaleSessions(h.reg.sessions, cmd.now)
                         else MeasuredSessions(h.reg.sessions, cmd.frame)).reg
  {
  }

  lemma OtherEffectElsewhere(h: Host, cmd: Command, order: seq<string>)
    requires !AboutSession(cmd) && UniqueSources(h.adapters)
    ensures var after := WideEffect(h, cmd, order).host; UniqueSources(after.adapters) && Frames(h, after)
  {
    if cmd.IntegrationHealth? {
      ReplaceFirstIsMerge(h.adapters, cmd.adapter);
      MergeKeepsUnique(h.adapters, cmd.adapter);
    }
  }

  lemma SessionEffectKeeps(idFor: IdFor, h: Host, cmd: Command, choice: Choice)
    requires Injective(idFor) && RegistryOk(idFor, h.reg) && AboutSession(cmd) && FreshEventId(h.reg, choice.uuid)
    ensures var after := EffectOf(h, cmd, idFor, choice).host;
            RegistryOk(idFor, after.reg) && after.adapters == h.adapters && Frames(h, after)
  {
    NoteKeyKeeps(idFor, h, cmd, choice);
    CommitKeepsRegistry(idFor, NoteKey(h, cmd), Decide(h, cmd, idFor, choice), choice.uuid);
  }

  lemma EffectKeeps(idFor: IdFor, h: Host, cmd: Command, choice: Choice)
    requires Injective(idFor) && CoreOk(idFor, h) && ValidChoice(h, cmd, idFor, choice)
    ensures var after := EffectOf(h, cmd, idFor, choice).host;
            RegistryOk(idFor, after.reg) && UniqueSources(after.adapters) && Frames(h, after)
  {
    if AboutSession(cmd) {
      SessionEffectKeeps(idFor, h, cmd, choice);
    } else {
      OtherEffectKeeps(idFor, h, cmd, choice.staleOrder);
      OtherEffectElsewhere(h, cmd, choice.staleOrder);
    }
  }

  lemma EffectBatchSafe(idFor: IdFor, h: Host, cmd: Command, choice: Choice)
    requires Injective(idFor) && CoreOk(idFor, h) && ValidChoice(h, cmd, idFor, choice)
    ensures var batch := EffectOf(h, cmd, idFor, choice).batch; NoSnapshot(batch) && NoUpsertUndone(batch)
  {
    if AboutSession(cmd) {
      NoteKeyKeeps(idFor, h, cmd, choice);
      CommitKeepsRegistry(idFor, NoteKey(h, cmd), Decide(h, cmd, idFor, choice), choice.uuid);
      CommitBatch(NoteKey(h, cmd), Decide(h, cmd, idFor, choice), choice.uuid);
    } else {
      OtherBatchSafe(h, cmd, choice.staleOrder);
    }
  }

  lemma OtherBatchSafe(h: Host, cmd: Command, order: seq<string>)
    requires !AboutSession(cmd)
    ensures var batch := WideEffect(h, cmd, order).batch; NoSnapshot(batch) && NoUpsertUndone(batch)
  {
    SafeBatch(WideEffect(h, cmd, order).batch);
  }

  lemma EffectView(idFor: IdFor, h: Host, cmd: Command, choice: Choice)
    requires Injective(idFor) && CoreOk(idFor, h) && ValidChoice(h, cmd, idFor, choice)
    ensures var effect := EffectOf(h, cmd, idFor, choice);
            ViewOf(effect.host) == Fold(ViewOf(h), effect.batch) <==> !ViewLeak(h, cmd, idFor, choice)
  {
    if AboutSession(cmd) {
      SessionEffectView(idFor, h, cmd, choice);
    } else {
      WideView(idFor, h, cmd, choice.staleOrder);
    }
  }

  lemma WideView(idFor: IdFor, h: Host, cmd: Command, order: seq<string>)
    requires CoreOk(idFor, h) && !AboutSession(cmd)
    requires cmd.Tick? ==> IsOrder(order, StaleSessions(h.reg.sessions, cmd.now).Keys)
    ensures var effect := WideEffect(h, cmd, order); ViewOf(effect.host) == Fold(ViewOf(h), effect.batch)
  {
    if cmd.Tick? {
      TickView(h, cmd.now, order);
    } else {
      SingleView(idFor, h, cmd, order);
    }
  }

  lemma SessionEffectView(idFor: IdFor, h: Host, cmd: Command, choice: Choice)
    requires Injective(idFor) && RegistryOk(idFor, h.reg) && AboutSession(cmd) && FreshEventId(h.reg, choice.uuid)
    ensures var effect := EffectOf(h, cmd, idFor, choice);
            ViewOf(effect.host) == Fold(ViewOf(h), effect.batch) <==> !LeaksToView(h, Decide(h, cmd, idFor, choice))
  {
    NoteKeyKeeps(idFor, h, cmd, choice);
    NotedCommitView(idFor, h, NoteKey(h, cmd), Decide(h, cmd, idFor, choice), choice.uuid);
  }

  /** Storing the key first makes no difference to what a decision shows. */
  lemma NotedCommitView(idFor: IdFor, h: Host, noted: Host, d: Decision, uuid: nat)
    requires Injective(idFor) && RegistryOk(idFor, noted.reg) && FreshEventId(noted.reg, uuid)
    requires SoundDecision(d, noted, idFor) && noted.reg.sessions == h.reg.sessions && ViewOf(noted) == ViewOf(h)
    ensures Evictable(d, noted)
    ensures var effect := Commit(noted, d, uuid);
            ViewOf(effect.host) == Fold(ViewOf(h), effect.batch) <==> !LeaksToView(h, d)
  {
    CommitKeepsRegistry(idFor, noted, d, uuid);
    CommitView(idFor, noted, d, uuid);
  }

  lemma SingleView(idFor: IdFor, h: Host, cmd: Command, order: seq<string>)
    requires CoreOk(idFor, h) && !AboutSession(cmd) && !cmd.Tick?
    ensures var effect := WideEffect(h, cmd, order);
            ViewOf(effect.host) == Fold(ViewOf(h), effect.batch)
  {
    if cmd.RemoveSession? {
      RemovalView(idFor, h, cmd.sessionId, order);
    } else if cmd.RecordMetrics? {
      MetricsView(h, cmd.frame);
    } else if cmd.IntegrationHealth? {
      IntegrationView(h, cmd.adapter);
    } else {
      PlainView(h, cmd, order);
    }
  }

  lemma RemovalView(idFor: IdFor, h: Host, id: string, order: seq<string>)
    requires RegistryOk(idFor, h.reg)
    ensures var effect := WideEffect(h, RemoveSession(id), order);
            ViewOf(effect.host) == Fold(ViewOf(h), effect.batch)
  {
    if id in h.reg.sessions { EvictView(idFor, h, id); }
  }

  lemma PlainView(h: Host, cmd: Command, order: seq<string>)
    requires cmd.UpdateSettings? || cmd.EmitHeartbeat? || cmd.PurgeMetrics? || cmd.PurgeEvents? || cmd.PruneHistory?
    ensures var effect := WideEffect(h, cmd, order);
            ViewOf(effect.host) == Fold(ViewOf(h), effect.batch)
  {
    match cmd
    case UpdateSettings(settings) => FoldOne(ViewOf(h), SettingsChanged(settings));
    case EmitHeartbeat => FoldOne(ViewOf(h), Heartbeat);
    case PurgeMetrics => UnmeasuredView(h.reg.sessions);
    case _ =>
  }

  lemma FoldOne(v: View, p: Payload)
    ensures Fold(v, [p]) == ApplyPayload(v, p)
  {
    FoldSnoc(v, [], p);
    assert [] + [p] == [p];
  }

  lemma IntegrationView(h: Host, a: Adapter)
    requires UniqueSources(h.adapters)
    ensures ViewOf(h.(adapters := ReplaceFirst(h.adapters, a))) == Fold(ViewOf(h), [IntegrationChanged(a)])
  {
    ReplaceFirstIsMerge(h.adapters, a);
    FoldOne(ViewOf(h), IntegrationChanged(a));
  }

  lemma MetricsView(h: Host, frame: MetricsFrame)
    requires forall id :: id in h.reg.sessions ==> h.reg.sessions[id].id == id
    ensures ViewOf(SaveAll(h, MeasuredSessions(h.reg.sessions, frame)).(metrics := Some(frame))) ==
              Fold(ViewOf(h), [Metrics(frame)])
  {
    MeasuredVersions(h.reg, frame);
    FoldOne(ViewOf(h), Metrics(frame));
  }

  lemma EvictView(idFor: IdFor, h: Host, id: string)
    requires RegistryOk(idFor, h.reg) && id in h.reg.sessions
    ensures ViewOf(EvictEffect(h, id).host) == Fold(ViewOf(h), EvictEffect(h, id).batch)
  {
    EvictKeeps(idFor, h, id);
    FoldOne(ViewOf(h), SessionRemove(id));
  }

  lemma EffectRepo(idFor: IdFor, h: Host, cmd: Command, choice: Choice)
    requires Injective(idFor) && CoreOk(idFor, h) && ValidChoice(h, cmd, idFor, choice) && RepoSync(h)
    ensures RepoSync(EffectOf(h, cmd, idFor, choice).host) <==> !RepoLeak(h, cmd, idFor, choice)
  {
    if AboutSession(cmd) {
      SessionEffectRepo(idFor, h, cmd, choice);
    } else if cmd.PruneHistory? {
      PruneEffectRepo(idFor, h, cmd.cutoff, choice.staleOrder);
    } else {
      OtherEffectRepo(idFor, h, cmd, choice.staleOrder);
    }
  }

  lemma SessionEffectRepo(idFor: IdFor, h: Host, cmd: Command, choice: Choice)
    requires Injective(idFor) && RegistryOk(idFor, h.reg) && AboutSession(cmd) && FreshEventId(h.reg, choice.uuid)
    requires RepoSync(h)
    ensures RepoSync(EffectOf(h, cmd, idFor, choice).host) <==> !LeaksFromRepo(h, Decide(h, cmd, idFor, choice))
  {
    NoteKeyKeeps(idFor, h, cmd, choice);
    NotedCommitRepo(idFor, h, NoteKey(h, cmd), Decide(h, cmd, idFor, choice), choice.uuid);
  }

  /** Nor to what it saves. */
  lemma NotedCommitRepo(idFor: IdFor, h: Host, noted: Host, d: Decision, uuid: nat)
    requires Injective(idFor) && RegistryOk(idFor, noted.reg) && FreshEventId(noted.reg, uuid)
    requires SoundDecision(d, noted, idFor) && noted.reg.sessions == h.reg.sessions && RepoSync(noted)
    ensures Evictable(d, noted)
    ensures RepoSync(Commit(noted, d, uuid).host) <==> !LeaksFromRepo(h, d)
  {
    CommitKeepsRegistry(idFor, noted, d, uuid);
    CommitRepo(idFor, noted, d, uuid);
  }

  lemma PruneEffectRepo(idFor: IdFor, h: Host, cutoff: int, order: seq<string>)
    requires RegistryOk(idFor, h.reg) && RepoSync(h)
    ensures RepoSync(WideEffect(h, PruneHistory(cutoff), order).host) <==> !HasOlder(h.repo.events, cutoff)
  {
    NoEmptyWindows(h.reg);
    NewerIsAll(h.repo.events, cutoff);
    PruneIsNewer(h, cutoff, order);
  }

  lemma NoEmptyWindows(r: Registry)
    requires EventsOk(r)
    ensures forall id :: id in r.events ==> r.events[id] != []
  {
    forall id | id in r.events ensures r.events[id] != [] { assert WindowOk(id, r.events[id]); }
  }

  lemma PruneIsNewer(h: Host, cutoff: int, order: seq<string>)
    ensures var after := WideEffect(h, PruneHistory(cutoff), order).host;
            && after.reg == h.reg && after.repo.sessions == h.repo.sessions
            && after.repo.events == Newer(h.repo.events, cutoff)
  {
  }

  lemma MetricsRepo(idFor: IdFor, h: Host, frame: MetricsFrame, order: seq<string>)
    requires RegistryOk(idFor, h.reg) && RepoSync(h)
    ensures RepoSync(WideEffect(h, RecordMetrics(frame), order).host)
  {
    MeasuredVersions(h.reg, frame);
    RowsOfVersions(h.reg, MeasuredSessions(h.reg.sessions, frame));
  }

  lemma TickRepo(idFor: IdFor, h: Host, now: int, order: seq<string>)
    requires RegistryOk(idFor, h.reg) && RepoSync(h)
    ensures RepoSync(WideEffect(h, Tick(now), order).host)
  {
    StaleVersions(h.reg, now);
    RowsOfVersions(h.reg, StaleSessions(h.reg.sessions, now));
  }

  lemma PlainRepo(h: Host, cmd: Command, order: seq<string>)
    requires RepoSync(h) && !AboutSession(cmd) && !cmd.PruneHistory? && !cmd.RecordMetrics? && !cmd.Tick?
    ensures RepoSync(WideEffect(h, cmd, order).host)
  {
    if cmd.RemoveSession? && cmd.sessionId in h.reg.sessions { EvictShows(h, cmd.sessionId); }
  }

  lemma OtherEffectRepo(idFor: IdFor, h: Host, cmd: Command, order: seq<string>)
    requires RegistryOk(idFor, h.reg) && RepoSync(h) && !AboutSession(cmd) && !cmd.PruneHistory?
    ensures RepoSync(WideEffect(h, cmd, order).host)
  {
    if cmd.RecordMetrics? {
      MetricsRepo(idFor, h, cmd.frame, order);
    } else if cmd.Tick? {
      TickRepo(idFor, h, cmd.now, order);
    } else {
      PlainRepo(h, cmd, order);
    }
  }

  // ---------------------------------------------------------------- emission

  function Payloads(frames: seq<Frame>): seq<Payload> {
    seq(|frames|, i requires 0 <= i < |frames| => frames[i].payload)
  }

  ghost predicate InSync(base: View, h: Host) {
    ViewOf(h) == Fold(base, Payloads(h.emitted))
  }

  lemma PublishShape(h: Host, effect: Effect, choice: Choice)
    requires h.pending == NOTHING && Frames(h, effect.host)
    requires IsOrder(choice.order, PushAll(NOTHING, effect.batch).upserts.Keys)
    ensures var after := Publish(effect, choice);
            var out := Drain(PushAll(NOTHING, effect.batch), choice.order);
            && after == effect.host.(pending := NOTHING, sequence := h.sequence + |out|,
                                     emitted := h.emitted + Numbered(out, h.sequence))
            && Payloads(after.emitted) == Payloads(h.emitted) + out
  {
  }

  lemma PublishKeepsCore(idFor: IdFor, h: Host, effect: Effect, choice: Choice)
    requires CoreOk(idFor, h) && Frames(h, effect.host) && RegistryOk(idFor, effect.host.reg)
    requires UniqueSources(effect.host.adapters)
    requires IsOrder(choice.order, PushAll(NOTHING, effect.batch).upserts.Keys)
    ensures CoreOk(idFor, Publish(effect, choice))
  {
    PublishShape(h, effect, choice);
  }

  lemma PublishInSync(base: View, h: Host, effect: Effect, choice: Choice)
    requires h.pending == NOTHING && Frames(h, effect.host) && InSync(base, h)
    requires IsOrder(choice.order, PushAll(NOTHING, effect.batch).upserts.Keys)
    requires NoSnapshot(effect.batch) && NoUpsertUndone(effect.batch)
    ensures InSync(base, Publish(effect, choice)) <==> ViewOf(effect.host) == Fold(ViewOf(h), effect.batch)
  {
    PublishShape(h, effect, choice);
    CoalescingIsExact(ViewOf(h), effect.batch, choice.order);
    FoldConcat(base, Payloads(h.emitted), Drain(PushAll(NOTHING, effect.batch), choice.order));
  }

  /** Every command, accepted or refused, keeps the core invariant and leaves nothing queued. */
  lemma ExecKeepsCore(idFor: IdFor, h: Host, cmd: Command, choice: Choice)
    requires Injective(idFor) && CoreOk(idFor, h) && ValidChoice(h, cmd, idFor, choice)
    ensures CoreOk(idFor, Exec(h, cmd, idFor, choice))
  {
    EffectKeeps(idFor, h, cmd, choice);
    PublishKeepsCore(idFor, h, EffectOf(h, cmd, idFor, choice), choice);
  }

  /** The stream keeps telling the host's state, exactly unless a refused command left a mark. */
  lemma ExecInSync(idFor: IdFor, base: View, h: Host, cmd: Command, choice: Choice)
    requires Injective(idFor) && CoreOk(idFor, h) && ValidChoice(h, cmd, idFor, choice) && InSync(base, h)
    ensures InSync(base, Exec(h, cmd, idFor, choice)) <==> !ViewLeak(h, cmd, idFor, choice)
  {
    EffectKeeps(idFor, h, cmd, choice);
    EffectBatchSafe(idFor, h, cmd, choice);
    EffectView(idFor, h, cmd, choice);
    PublishInSync(base, h, EffectOf(h, cmd, idFor, choice), choice);
  }

  /** Memory and repository stay equal, exactly unless a refused command wrote memory only or a
      prune dropped rows that memory keeps. */
  lemma ExecRepoSync(idFor: IdFor, h: Host, cmd: Command, choice: Choice)
    requires Injective(idFor) && CoreOk(idFor, h) && ValidChoice(h, cmd, idFor, choice) && RepoSync(h)
    ensures RepoSync(Exec(h, cmd, idFor, choice)) <==> !RepoLeak(h, cmd, idFor, choice)
  {
    EffectKeeps(idFor, h, cmd, choice);
    PublishShape(h, EffectOf(h, cmd, idFor, choice), choice);
    EffectRepo(idFor, h, cmd, choice);
  }

  // ---------------------------------------------------------------- which sessions can disappear

  /** Only an explicit removal, or a start at capacity that evicts an oldest terminal session, drops one. */
  lemma OnlyRemovalDrops(idFor: IdFor, h: Host, cmd: Command, choice: Choice, id: string)
    requires Injective(idFor) && CoreOk(idFor, h) && ValidChoice(h, cmd, idFor, choice)
    requires id in h.reg.sessions
    ensures id !in Exec(h, cmd, idFor, choice).reg.sessions ==>
              || cmd == RemoveSession(id)
              || (cmd.SessionStart? && |h.reg.sessions| == MAX_SESSIONS && IsOldestTerminal(h.reg, id))
  {
    EffectKeeps(idFor, h, cmd, choice);
    PublishShape(h, EffectOf(h, cmd, idFor, choice), choice);
    if AboutSession(cmd) {
      SessionCommandDrops(idFor, h, cmd, choice, id);
    } else {
      OtherCommandDrops(h, cmd, choice.staleOrder, id);
    }
  }

  lemma SessionCommandDrops(idFor: IdFor, h: Host, cmd: Command, choice: Choice, id: string)
    requires Injective(idFor) && CoreOk(idFor, h) && FreshEventId(h.reg, choice.uuid) && AboutSession(cmd)
    requires id in h.reg.sessions
    ensures id !in EffectOf(h, cmd, idFor, choice).host.reg.sessions ==>
              cmd.SessionStart? && |h.reg.sessions| == MAX_SESSIONS && IsOldestTerminal(h.reg, id)
  {
    var d := Decide(h, cmd, idFor, choice);
    DecisionsAreSound(idFor, h, cmd, choice);
    DecideBegins(h, cmd, idFor, choice);
    NoteKeyKeeps(idFor, h, cmd, choice);
    CommitKeepsRegistry(idFor, NoteKey(h, cmd), d, choice.uuid);
    CommitDrops(idFor, NoteKey(h, cmd), d, choice.uuid, id);
  }

  lemma OtherCommandDrops(h: Host, cmd: Command, order: seq<string>, id: string)
    requires !AboutSession(cmd) && id in h.reg.sessions
    ensures id !in WideEffect(h, cmd, order).host.reg.sessions ==> cmd == RemoveSession(id)
  {
  }

  lemma DecideBegins(h: Host, cmd: Command, idFor: IdFor, choice: Choice)
    requires AboutSession(cmd)
    ensures Decide(h, cmd, idFor, choice).Begin? ==> cmd.SessionStart?
  {
  }

  lemma CommitDrops(idFor: IdFor, h: Host, d: Decision, uuid: nat, id: string)
    requires Injective(idFor) && RegistryOk(idFor, h.reg) && SoundDecision(d, h, idFor) && FreshEventId(h.reg, uuid)
    requires Evictable(d, h) && id in h.reg.sessions
    ensures id !in Commit(h, d, uuid).host.reg.sessions ==> d.Begin? && d.evict == Some(id)
  {
    if d.Begin? {
      BeginKeeps(idFor, h, d.session, d.evict, uuid);
    } else if d.Touch? {
      TouchKeeps(idFor, h, d.session, d.draft, d.announce, uuid);
    }
  }

  // ---------------------------------------------------------------- runs

  datatype Turn = Turn(cmd: Command, choice: Choice)

  function Run(h: Host, turns: seq<Turn>, idFor: IdFor): Host {
    if turns == [] then h
    else
      var before := Run(h, turns[..|turns| - 1], idFor);
      Exec(before, turns[|turns| - 1].cmd, idFor, turns[|turns| - 1].choice)
  }

  ghost predicate ValidRun(h: Host, turns: seq<Turn>, idFor: IdFor) {
    forall i :: 0 <= i < |turns| ==> ValidChoice(Run(h, turns[..i], idFor), turns[i].cmd, idFor, turns[i].choice)
  }

  /** No refused command of the run leaves a mark the stream does not tell. */
  ghost predicate TellsAll(h: Host, turns: seq<Turn>, idFor: IdFor) {
    forall i :: 0 <= i < |turns| ==> !ViewLeak(Run(h, turns[..i], idFor), turns[i].cmd, idFor, turns[i].choice)
  }

  /** No command of the run leaves memory and repository different. */
  ghost predicate SavesAll(h: Host, turns: seq<Turn>, idFor: IdFor) {
    forall i :: 0 <= i < |turns| ==> !RepoLeak(Run(h, turns[..i], idFor), turns[i].cmd, idFor, turns[i].choice)
  }

  lemma RunPrefix(h: Host, turns: seq<Turn>, idFor: IdFor)
    requires turns != []
    ensures ValidRun(h, turns, idFor) ==> ValidRun(h, turns[..|turns| - 1], idFor)
    ensures TellsAll(h, turns, idFor) ==> TellsAll(h, turns[..|turns| - 1], idFor)
    ensures SavesAll(h, turns, idFor) ==> SavesAll(h, turns[..|turns| - 1], idFor)
  {
    var init := turns[..|turns| - 1];
    assert forall i :: 0 <= i < |init| ==> init[..i] == turns[..i] && init[i] == turns[i];
  }

  /** Registry invariant, empty coalescer and gap-free frame numbers after every run. */
  lemma {:induction false} RunKeepsCore(idFor: IdFor, h: Host, turns: seq<Turn>)
    requires Injective(idFor) && CoreOk(idFor, h) && ValidRun(h, turns, idFor)
    ensures CoreOk(idFor, Run(h, turns, idFor))
  {
    if turns != [] {
      RunPrefix(h, turns, idFor);
      RunKeepsCore(idFor, h, turns[..|turns| - 1]);
      var last := turns[|turns| - 1];
      ExecKeepsCore(idFor, Run(h, turns[..|turns| - 1], idFor), last.cmd, last.choice);
    }
  }

  /** Folding everything emitted since the start gives the host's view. */
  lemma {:induction false} RunStaysInSync(idFor: IdFor, h: Host, turns: seq<Turn>)
    requires Injective(idFor) && CoreOk(idFor, h) && h.emitted == [] && ValidRun(h, turns, idFor)
    requires TellsAll(h, turns, idFor)
    ensures InSync(ViewOf(h), Run(h, turns, idFor))
  {
    if turns != [] {
      var init, last := turns[..|turns| - 1], turns[|turns| - 1];
      RunPrefix(h, turns, idFor);
      RunStaysInSync(idFor, h, init);
      RunKeepsCore(idFor, h, init);
      ExecInSync(idFor, ViewOf(h), Run(h, init, idFor), last.cmd, last.choice);
    }
  }

  /** The repository holds exactly the live sessions and events after every run. */
  lemma {:induction false} RunStaysSaved(idFor: IdFor, h: Host, turns: seq<Turn>)
    requires Injective(idFor) && CoreOk(idFor, h) && RepoSync(h) && ValidRun(h, turns, idFor)
    requires SavesAll(h, turns, idFor)
    ensures RepoSync(Run(h, turns, idFor))
  {
    if turns != [] {
      var init, last := turns[..|turns| - 1], turns[|turns| - 1];
      RunPrefix(h, turns, idFor);
      RunStaysSaved(idFor, h, init);
      RunKeepsCore(idFor, h, init);
      ExecRepoSync(idFor, Run(h, init, idFor), last.cmd, last.choice);
    }
  }
}
