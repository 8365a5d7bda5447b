/** Which refused commands leave a mark, read off the command and the stored session. */
module HostLeaks {
  import opened Options
  import opened Sequences
  import opened Protocol
  import opened Registry
  import opened Coalescing
  import opened HostCore
  import opened HostSync
  import opened HostRuns

  predicate RelabelsTo(s: Session, cmd: Command)
    requires cmd.SessionUpdate?
  {
    cmd.newLabel.Some? && cmd.newLabel.value != s.labelText
  }

  predicate Relocates(s: Session, cmd: Command)
    requires cmd.SessionUpdate?
  {
    cmd.workspace.Some? && cmd.workspace != s.workspace
  }

  /** An update whose label is fine and new, refused for its workspace or its status; or one whose
      workspace is fine and new, refused for its status. */
  predicate MarkingUpdate(s: Session, cmd: Command)
    requires cmd.SessionUpdate?
  {
    && BoundedIfGiven(cmd.newLabel, MAX_SESSION_LABEL_LEN)
    && if !BoundedIfGiven(cmd.workspace, MAX_WORKSPACE_LABEL_LEN) then RelabelsTo(s, cmd)
       else cmd.newStatus.Some? && !ValidTransition(s.status, cmd.newStatus.value) &&
            (RelabelsTo(s, cmd) || Relocates(s, cmd))
  }

  /** An end that is fine except for its summary, of a session not already ended just so. */
  predicate MarkingEnd(s: Session, cmd: Command)
    requires cmd.SessionEnd?
  {
    && (cmd.status.Completed? || cmd.status.Failed?) && ValidTransition(s.status, cmd.status)
    && cmd.endSummary.Some? && !Bounded(cmd.endSummary.value, MAX_EVENT_SUMMARY_LEN)
    && !(s.status == cmd.status && s.endedAt == Some(cmd.at) && s.attention.NoAttention?)
  }

  /** Commands of an event-reporting integration about a session that is there. */
  predicate Reaches(h: Host, cmd: Command)
    requires cmd.SessionUpdate? || cmd.SessionEnd?
  {
    && Bounded(cmd.externalId, MAX_EXTERNAL_SESSION_ID_LEN) && TakesEvents(h, cmd.source)
    && Resolve(h.reg, cmd.source, cmd.externalId).Some?
  }

  predicate MarksView(h: Host, cmd: Command) {
    || (cmd.SessionUpdate? && Reaches(h, cmd) && MarkingUpdate(Resolve(h.reg, cmd.source, cmd.externalId).value, cmd))
    || (cmd.SessionEnd? && Reaches(h, cmd) && MarkingEnd(Resolve(h.reg, cmd.source, cmd.externalId).value, cmd))
  }

  lemma UpdateMarks(idFor: IdFor, h: Host, cmd: Command)
    requires RegistryOk(idFor, h.reg) && cmd.SessionUpdate?
    ensures LeaksToView(h, DecideUpdate(h, cmd)) <==> MarksView(h, cmd)
    ensures LeaksFromRepo(h, DecideUpdate(h, cmd)) <==> MarksView(h, cmd)
  {
    ResolvedIsStored(idFor, h.reg, cmd.source, cmd.externalId);
  }

  lemma EndMarks(idFor: IdFor, h: Host, cmd: Command)
    requires RegistryOk(idFor, h.reg) && cmd.SessionEnd?
    ensures LeaksToView(h, DecideEnd(h, cmd)) <==> MarksView(h, cmd)
    ensures !LeaksFromRepo(h, DecideEnd(h, cmd))
  {
    ResolvedIsStored(idFor, h.reg, cmd.source, cmd.externalId);
  }

  lemma OthersLeaveNoMark(h: Host, cmd: Command, idFor: IdFor, choice: Choice)
    requires AboutSession(cmd) && !cmd.SessionUpdate? && !cmd.SessionEnd?
    ensures !Decide(h, cmd, idFor, choice).RefuseAfter?
  {
  }

  /** A command leaves a mark the stream does not tell exactly when it is a refused update or end of that shape. */
  lemma ViewLeakExactly(idFor: IdFor, h: Host, cmd: Command, choice: Choice)
    requires RegistryOk(idFor, h.reg)
    ensures ViewLeak(h, cmd, idFor, choice) <==> MarksView(h, cmd)
  {
    if cmd.SessionUpdate? { UpdateMarks(idFor, h, cmd); }
    else if cmd.SessionEnd? { EndMarks(idFor, h, cmd); }
    else if AboutSession(cmd) { OthersLeaveNoMark(h, cmd, idFor, choice); }
  }

  /** Memory runs ahead of the repository on refused updates only, or after a prune. */
  lemma RepoLeakExactly(idFor: IdFor, h: Host, cmd: Command, choice: Choice)
    requires RegistryOk(idFor, h.reg)
    ensures RepoLeak(h, cmd, idFor, choice) <==>
            || (cmd.SessionUpdate? && MarksView(h, cmd))
            || (cmd.PruneHistory? && HasOlder(h.repo.events, cmd.cutoff))
  {
    if cmd.SessionUpdate? { UpdateMarks(idFor, h, cmd); }
    else if cmd.SessionEnd? { EndMarks(idFor, h, cmd); }
    else if AboutSession(cmd) { OthersLeaveNoMark(h, cmd, idFor, choice); }
  }

  // ---------------------------------------------------------------- commands that leave a mark

  const CODEX := Adapter(Codex, true, FullAttention, true, 0)

  function CodexSession(status: SessionStatus): Session {
    Session("s", Codex, "x", "before", None, status, NoAttention, 0, 0, None, None, None, None)
  }

  /** A host with one session, its events, and the same rows in the repository. */
  function HostWith(s: Session, events: map<string, seq<Event>>, settings: Settings): Host {
    Host(Registry(map[s.id := s], map[KeyOf(s) := s.id], events, {}), settings, [CODEX], None, NOTHING,
         Repo(map[s.id := s], events, {}), 0, [])
  }

  /** At most one event, of the session itself. */
  predicate FewEvents(s: Session, events: map<string, seq<Event>>) {
    events.Keys <= {s.id} && forall id :: id in events ==> |events[id]| == 1 && WindowOk(id, events[id])
  }

  lemma HostWithIsSound(idFor: IdFor, s: Session, events: map<string, seq<Event>>, settings: Settings)
    requires Minted(idFor, s) && FewEvents(s, events)
    ensures CoreOk(idFor, HostWith(s, events, settings)) && RepoSync(HostWith(s, events, settings))
    ensures Resolve(HostWith(s, events, settings).reg, s.source, s.externalId) == Some(s)
  {
    var h := HostWith(s, events, settings);
    IndexOfOne(s);
    EventsOfOne(h.reg, s);
    assert |h.reg.sessions| == |h.reg.sessions.Keys| == 1;
  }

  lemma IndexOfOne(s: Session)
    ensures Inverts(Keys(map[s.id := s]), map[KeyOf(s) := s.id])
  {
    assert Keys(map[s.id := s]) == map[s.id := KeyOf(s)];
  }

  lemma EventsOfOne(r: Registry, s: Session)
    requires s.id in r.sessions && FewEvents(s, r.events)
    ensures EventsOk(r)
  {
  }

  const RELABEL := SessionUpdate(Codex, "x", Some(Running), Some("after"), None, 1)

  /** A finished session is relabelled by an update that is refused: neither stream nor repository learns of it. */
  lemma RefusedRelabelIsKept(idFor: IdFor, choice: Choice, settings: Settings)
    requires idFor(Codex, "x") == "s"
    ensures var h := HostWith(CodexSession(Completed), map[], settings);
            && CoreOk(idFor, h) && RepoSync(h)
            && Decide(h, RELABEL, idFor, choice).RefuseAfter?
            && Commit(h, Decide(h, RELABEL, idFor, choice), 0).host.reg.sessions["s"].labelText == "after"
            && ViewLeak(h, RELABEL, idFor, choice) && RepoLeak(h, RELABEL, idFor, choice)
  {
    HostWithIsSound(idFor, CodexSession(Completed), map[], settings);
    assert |"after"| == 5 && |"before"| == 6 && |"x"| == 1;
  }

  const SILENT_END := SessionEnd(Codex, "x", Completed, 1, Some(""))

  /** A running session is ended by a command that is refused for its empty summary: memory and repository
      both hold it as completed, and no frame tells so. */
  lemma RefusedEndIsSaved(idFor: IdFor, choice: Choice, settings: Settings)
    requires idFor(Codex, "x") == "s"
    ensures var h := HostWith(CodexSession(Running), map[], settings);
            && CoreOk(idFor, h) && RepoSync(h)
            && Decide(h, SILENT_END, idFor, choice).RefuseAfter?
            && Commit(h, Decide(h, SILENT_END, idFor, choice), 0).host.repo.sessions["s"].status == Completed
            && ViewLeak(h, SILENT_END, idFor, choice) && !RepoLeak(h, SILENT_END, idFor, choice)
  {
    HostWithIsSound(idFor, CodexSession(Running), map[], settings);
    assert |"x"| == 1;
  }

  lemma NothingNewer(id: string, e: Event, cutoff: int)
    requires e.occurredAt < cutoff
    ensures HasOlder(map[id := [e]], cutoff) && id !in Newer(map[id := [e]], cutoff)
  {
    assert EventAt(map[id := [e]], id, 0);
    FilterNone([e], NotBefore(cutoff));
  }

  /** A prune drops the row of an event that memory keeps. */
  lemma PruneForgets(h: Host, id: string, e: Event, cutoff: int, idFor: IdFor, choice: Choice)
    requires h.repo.events == map[id := [e]] && e.occurredAt < cutoff
    ensures EffectOf(h, PruneHistory(cutoff), idFor, choice).host.reg == h.reg
    ensures id !in EffectOf(h, PruneHistory(cutoff), idFor, choice).host.repo.events
    ensures RepoLeak(h, PruneHistory(cutoff), idFor, choice) && !ViewLeak(h, PruneHistory(cutoff), idFor, choice)
  {
    NothingNewer(id, e, cutoff);
  }

  const OLD_EVENT := Event(7, "s", 1, 0, Lifecycle, Info, "Session started", None)

  /** A host like that: one session with one old event, in memory and repository alike. */
  lemma PruneForgetsOldEvent(idFor: IdFor, choice: Choice, settings: Settings)
    requires idFor(Codex, "x") == "s"
    ensures var h := HostWith(CodexSession(Running), map["s" := [OLD_EVENT]], settings);
            CoreOk(idFor, h) && RepoSync(h) && RepoLeak(h, PruneHistory(1), idFor, choice)
  {
    var events := map["s" := [OLD_EVENT]];
    assert |"x"| == 1;
    HostWithIsSound(idFor, CodexSession(Running), events, settings);
    PruneForgets(HostWith(CodexSession(Running), events, settings), "s", OLD_EVENT, 1, idFor, choice);
  }
}
