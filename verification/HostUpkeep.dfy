/** What the commands over the whole registry do. */
module HostUpkeep {
  import opened Options
  import opened Sequences
  import opened Protocol
  import opened Registry
  import opened Views
  import opened HostCore
  import opened HostSync
  import opened HostRuns
  import opened HostSteps
  import opened HostEffects

  predicate Live(s: Session) { s.status.Starting? || s.status.Running? || s.status.Waiting? || s.status.Paused? }

  /** No event was told, and nothing but sessions and their events differs. */
  ghost predicate Quietly(before: Host, after: Host) {
    && after.settings == before.settings && after.adapters == before.adapters && after.metrics == before.metrics
    && EventsIn(Payloads(after.emitted)) == EventsIn(Payloads(before.emitted))
  }

  /** Every live session silent for half an hour is stale from `now`; every other session is as it was. */
  ghost predicate WentStale(before: Registry, after: Registry, now: int) {
    && after == before.(sessions := after.sessions) && after.sessions.Keys == before.sessions.Keys
    && forall id :: id in before.sessions ==>
         after.sessions[id] ==
           if Live(before.sessions[id]) && now - before.sessions[id].lastEventAt >= 1_800_000
           then before.sessions[id].(status := Stale, lastEventAt := now, metric := None)
           else before.sessions[id]
  }

  lemma TickDoes(idFor: IdFor, h: Host, now: int, choice: Choice)
    requires Injective(idFor) && CoreOk(idFor, h) && ValidChoice(h, Tick(now), idFor, choice)
    ensures WentStale(h.reg, Exec(h, Tick(now), idFor, choice).reg, now)
    ensures Quietly(h, Exec(h, Tick(now), idFor, choice))
  {
    ExecReaches(idFor, h, Tick(now), choice);
    TickedHost(h, Exec(h, Tick(now), idFor, choice), now, choice.staleOrder);
  }

  lemma TickedHost(h: Host, after: Host, now: int, order: seq<string>)
    requires Reaches(h, after, WideEffect(h, Tick(now), order))
    ensures WentStale(h.reg, after.reg, now) && Quietly(h, after)
  {
    QuietEffect(h, after, WideEffect(h, Tick(now), order));
  }

  /** Every live session has the frame's sample for it, or none; every ended one has none. */
  ghost predicate Sampled(before: Registry, after: Registry, samples: map<string, Metric>) {
    && after == before.(sessions := after.sessions) && after.sessions.Keys == before.sessions.Keys
    && forall id :: id in before.sessions ==>
         after.sessions[id] ==
           before.sessions[id].(metric := if Live(before.sessions[id]) && id in samples then Some(samples[id])
                                          else None)
  }

  lemma RecordMetricsDoes(idFor: IdFor, h: Host, frame: MetricsFrame, choice: Choice)
    requires Injective(idFor) && CoreOk(idFor, h) && ValidChoice(h, RecordMetrics(frame), idFor, choice)
    ensures Sampled(h.reg, Exec(h, RecordMetrics(frame), idFor, choice).reg, frame.agents)
    ensures Exec(h, RecordMetrics(frame), idFor, choice).metrics == Some(frame)
    ensures Quietly(h.(metrics := Some(frame)), Exec(h, RecordMetrics(frame), idFor, choice))
  {
    ExecReaches(idFor, h, RecordMetrics(frame), choice);
    SampledHost(h, Exec(h, RecordMetrics(frame), idFor, choice), frame, choice.staleOrder);
  }

  lemma SampledHost(h: Host, after: Host, frame: MetricsFrame, order: seq<string>)
    requires Reaches(h, after, WideEffect(h, RecordMetrics(frame), order))
    ensures Sampled(h.reg, after.reg, frame.agents) && after.metrics == Some(frame)
    ensures Quietly(h.(metrics := Some(frame)), after)
  {
    QuietEffect(h, after, WideEffect(h, RecordMetrics(frame), order));
    MeasuredAreSampled(h.reg, frame);
  }

  lemma MeasuredAreSampled(r: Registry, frame: MetricsFrame)
    ensures Sampled(r, r.(sessions := r.sessions + MeasuredSessions(r.sessions, frame)), frame.agents)
  {
    var after := r.sessions + MeasuredSessions(r.sessions, frame);
    forall id | id in r.sessions
      ensures after[id] ==
                r.sessions[id].(metric := if Live(r.sessions[id]) && id in frame.agents then Some(frame.agents[id])
                                          else None)
    {
      assert after[id] == Measured(id, r.sessions[id], frame);
    }
  }

  /** The session is gone with its key and its events. */
  predicate SessionGone(before: Registry, after: Registry, id: string) {
    && id in before.sessions && after.idempotency == before.idempotency
    && after.sessions == before.sessions - {id} && after.events == before.events - {id}
    && after.index == before.index - {ExternalKey(before.sessions[id].source, before.sessions[id].externalId)}
  }

  /** A removal is accepted exactly when the id is stored and of legal length. */
  lemma RemoveSessionDoes(idFor: IdFor, h: Host, id: string, choice: Choice)
    requires Injective(idFor) && CoreOk(idFor, h) && ValidChoice(h, RemoveSession(id), idFor, choice)
    ensures Refusal(h, RemoveSession(id), idFor, choice).None? <==>
              Bounded(id, MAX_SESSION_ID_LEN) && id in h.reg.sessions
    ensures var after := Exec(h, RemoveSession(id), idFor, choice).reg;
            if Refusal(h, RemoveSession(id), idFor, choice).None? then SessionGone(h.reg, after, id) else after == h.reg
    ensures Quietly(h, Exec(h, RemoveSession(id), idFor, choice))
  {
    ExecReaches(idFor, h, RemoveSession(id), choice);
    RemovedHost(h, Exec(h, RemoveSession(id), idFor, choice), id, choice.staleOrder);
  }

  lemma RemovedHost(h: Host, after: Host, id: string, order: seq<string>)
    requires Reaches(h, after, WideEffect(h, RemoveSession(id), order))
    ensures if Bounded(id, MAX_SESSION_ID_LEN) && id in h.reg.sessions
            then SessionGone(h.reg, after.reg, id) else after.reg == h.reg
    ensures Quietly(h, after)
  {
    QuietEffect(h, after, WideEffect(h, RemoveSession(id), order));
  }

  /** New settings are installed whole; a purge empties its own part; the rest of these commands move nothing. */
  predicate Upkept(before: Host, after: Host, cmd: Command) {
    && after.settings == (if cmd.UpdateSettings? then cmd.settings else before.settings)
    && after.metrics == (if cmd.PurgeMetrics? then None else before.metrics)
    && after.adapters == before.adapters
    && after.reg == before.reg.(events := after.reg.events, sessions := after.reg.sessions)
    && after.reg.events == (if cmd.PurgeEvents? then map[] else before.reg.events)
    && after.reg.sessions == map id | id in before.reg.sessions ::
         if cmd.PurgeMetrics? then before.reg.sessions[id].(metric := None) else before.reg.sessions[id]
  }

  lemma UpkeepDoes(idFor: IdFor, h: Host, cmd: Command, choice: Choice)
    requires Injective(idFor) && CoreOk(idFor, h) && ValidChoice(h, cmd, idFor, choice)
    requires cmd.UpdateSettings? || cmd.PurgeEvents? || cmd.PurgeMetrics? || cmd.EmitHeartbeat? || cmd.PruneHistory?
    ensures Upkept(h, Exec(h, cmd, idFor, choice), cmd)
  {
    ExecReaches(idFor, h, cmd, choice);
    UpkeptHost(h, Exec(h, cmd, idFor, choice), cmd, choice.staleOrder);
  }

  lemma UpkeptHost(h: Host, after: Host, cmd: Command, order: seq<string>)
    requires cmd.UpdateSettings? || cmd.PurgeEvents? || cmd.PurgeMetrics? || cmd.EmitHeartbeat? || cmd.PruneHistory?
    requires Reaches(h, after, WideEffect(h, cmd, order))
    ensures Upkept(h, after, cmd)
  {
  }

  /** A reported adapter stands for its source; those of other sources keep their places. */
  ghost predicate Reported(before: seq<Adapter>, after: seq<Adapter>, a: Adapter) {
    && |after| == |before| + (if HasSource(before, a.source) then 0 else 1) && a in after
    && forall i :: 0 <= i < |before| ==> after[i] == if before[i].source == a.source then a else before[i]
  }

  lemma IntegrationDoes(idFor: IdFor, h: Host, a: Adapter, choice: Choice)
    requires Injective(idFor) && CoreOk(idFor, h) && ValidChoice(h, IntegrationHealth(a), idFor, choice)
    ensures Reported(h.adapters, Exec(h, IntegrationHealth(a), idFor, choice).adapters, a)
    ensures Exec(h, IntegrationHealth(a), idFor, choice).reg == h.reg
  {
    ExecReaches(idFor, h, IntegrationHealth(a), choice);
    ReportedHost(h, Exec(h, IntegrationHealth(a), idFor, choice), a, choice.staleOrder);
  }

  lemma ReportedHost(h: Host, after: Host, a: Adapter, order: seq<string>)
    requires UniqueSources(h.adapters) && Reaches(h, after, WideEffect(h, IntegrationHealth(a), order))
    ensures Reported(h.adapters, after.adapters, a) && after.reg == h.reg
  {
    ReplaceFirstIsMerge(h.adapters, a);
    MergeReports(h.adapters, a);
  }

  lemma MergeReports(adapters: seq<Adapter>, a: Adapter)
    ensures Reported(adapters, MergeAdapter(adapters, a), a)
  {
    var merged := MergeAdapter(adapters, a);
    if HasSource(adapters, a.source) {
      var b :| b in adapters && b.source == a.source;
      var i :| 0 <= i < |adapters| && adapters[i] == b;
      assert merged[i] == a;
    } else {
      assert merged[|adapters|] == a;
      assert forall i :: 0 <= i < |adapters| ==> adapters[i] in adapters;
    }
  }

  /** Of each session's rows exactly those not older than the cutoff are left, in order. */
  ghost predicate Pruned(before: map<string, seq<Event>>, after: map<string, seq<Event>>, cutoff: int) {
    forall id :: PrunedTo(before, after, cutoff, id)
  }

  predicate PrunedTo(before: map<string, seq<Event>>, after: map<string, seq<Event>>, cutoff: int, id: string) {
    WindowIn(after, id) == Filter(WindowIn(before, id), (e: Event) => e.occurredAt >= cutoff)
  }

  lemma PruneDoes(idFor: IdFor, h: Host, cutoff: int, choice: Choice)
    requires Injective(idFor) && CoreOk(idFor, h) && ValidChoice(h, PruneHistory(cutoff), idFor, choice)
    ensures Pruned(h.repo.events, Exec(h, PruneHistory(cutoff), idFor, choice).repo.events, cutoff)
    ensures Exec(h, PruneHistory(cutoff), idFor, choice).repo.sessions == h.repo.sessions
    ensures Exec(h, PruneHistory(cutoff), idFor, choice).reg == h.reg
  {
    ExecReaches(idFor, h, PruneHistory(cutoff), choice);
    PrunedHost(h, Exec(h, PruneHistory(cutoff), idFor, choice), cutoff, choice.staleOrder);
  }

  lemma PrunedHost(h: Host, after: Host, cutoff: int, order: seq<string>)
    requires Reaches(h, after, WideEffect(h, PruneHistory(cutoff), order))
    ensures Pruned(h.repo.events, after.repo.events, cutoff)
    ensures after.repo.sessions == h.repo.sessions && after.reg == h.reg
  {
    forall id ensures PrunedTo(h.repo.events, after.repo.events, cutoff, id) {
      var rows := WindowIn(h.repo.events, id);
      SameFilter(rows, NotBefore(cutoff), (e: Event) => e.occurredAt >= cutoff);
    }
  }
}
