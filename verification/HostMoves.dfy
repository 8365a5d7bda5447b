/** How a stored session can change, by any command and over every run. */
module HostMoves {
  import opened Protocol
  import opened Registry
  import opened HostCore
  import opened HostSync
  import opened HostRuns
  import opened HostEffects
  import opened HostStarts

  /** No session that stays changes identity or start time, and its status moves along a legal transition. */
  ghost predicate LegalMoves(before: map<string, Session>, after: map<string, Session>) {
    forall id :: id in before && id in after ==> LegalMove(before[id], after[id])
  }

  predicate LegalMove(s: Session, t: Session) {
    SameIdentity(s, t) && s.startedAt == t.startedAt && ValidTransition(s.status, t.status)
  }

  /** Whatever the command and whether it is accepted or refused. */
  lemma ExecMovesLegally(idFor: IdFor, h: Host, cmd: Command, choice: Choice)
    requires Injective(idFor) && CoreOk(idFor, h) && ValidChoice(h, cmd, idFor, choice)
    ensures LegalMoves(h.reg.sessions, Exec(h, cmd, idFor, choice).reg.sessions)
  {
    ExecReaches(idFor, h, cmd, choice);
    if AboutSession(cmd) {
      DecisionMovesLegally(idFor, h, cmd, choice);
      NoteKeyKeeps(idFor, h, cmd, choice);
      CommitMovesLegally(idFor, NoteKey(h, cmd), Decide(h, cmd, idFor, choice), choice.uuid);
    } else {
      WideMovesLegally(h, cmd, choice.staleOrder);
    }
  }

  lemma WideMovesLegally(h: Host, cmd: Command, order: seq<string>)
    requires !AboutSession(cmd)
    ensures LegalMoves(h.reg.sessions, WideEffect(h, cmd, order).host.reg.sessions)
  {
  }

  predicate MovesLegally(h: Host, d: Decision) {
    d.Touch? || d.RefuseAfter? ==> d.session.id in h.reg.sessions && LegalMove(h.reg.sessions[d.session.id], d.session)
  }

  lemma DecisionMovesLegally(idFor: IdFor, h: Host, cmd: Command, choice: Choice)
    requires CoreOk(idFor, h) && AboutSession(cmd)
    ensures MovesLegally(h, Decide(h, cmd, idFor, choice))
  {
    if ByName(cmd) {
      ResolvedIsStored(idFor, h.reg, cmd.source, cmd.externalId);
      NamedMovesLegally(h, cmd, idFor, choice);
    } else if !cmd.SessionStart? {
      ByIdMovesLegally(h, cmd);
    }
  }

  lemma NamedMovesLegally(h: Host, cmd: Command, idFor: IdFor, choice: Choice)
    requires ByName(cmd)
    requires match Resolve(h.reg, cmd.source, cmd.externalId)
      case Some(s) => s.id in h.reg.sessions && h.reg.sessions[s.id] == s
      case None => true
    ensures MovesLegally(h, Decide(h, cmd, idFor, choice))
  {
    var found := Resolve(h.reg, cmd.source, cmd.externalId);
    if cmd.SessionUpdate? && found.Some? { UpdateMovesLegally(h, found.value, cmd); }
    if cmd.SessionEnd? && found.Some? { EndMovesLegally(h, found.value, cmd); }
  }

  lemma UpdateMovesLegally(h: Host, s: Session, cmd: Command)
    requires cmd.SessionUpdate? && s.id in h.reg.sessions && h.reg.sessions[s.id] == s
    ensures MovesLegally(h, UpdateOf(s, cmd))
  {
  }

  lemma EndMovesLegally(h: Host, s: Session, cmd: Command)
    requires cmd.SessionEnd? && s.id in h.reg.sessions && h.reg.sessions[s.id] == s
    ensures MovesLegally(h, EndOf(s, cmd))
  {
  }

  lemma ByIdMovesLegally(h: Host, cmd: Command)
    requires ById(cmd) && forall id :: id in h.reg.sessions ==> h.reg.sessions[id].id == id
    ensures MovesLegally(h, DecideById(h, cmd))
  {
  }

  lemma CommitMovesLegally(idFor: IdFor, h: Host, d: Decision, uuid: nat)
    requires Injective(idFor) && RegistryOk(idFor, h.reg) && SoundDecision(d, h, idFor) && FreshEventId(h.reg, uuid)
    requires MovesLegally(h, d)
    ensures Evictable(d, h) && LegalMoves(h.reg.sessions, Commit(h, d, uuid).host.reg.sessions)
  {
    match d
    case Begin(s, evict) =>
      BeginKeeps(idFor, h, s, evict, uuid);
      NewIdIsNew(idFor, h.reg, s.source, s.externalId);
      RoomRegistry(h, evict);
      StoredMovesLegally(h.reg.sessions, RoomFor(h, evict).host.reg.sessions, s);
    case Touch(s, draft, announce) =>
      TouchKeeps(idFor, h, s, draft, announce, uuid);
      StoredMovesLegally(h.reg.sessions, h.reg.sessions, s);
    case RefuseAfter(s, _, _) => StoredMovesLegally(h.reg.sessions, h.reg.sessions, s);
    case _ =>
  }

  lemma StoredMovesLegally(before: map<string, Session>, mid: map<string, Session>, s: Session)
    requires forall id :: id in mid ==> id in before && mid[id] == before[id]
    requires s.id in before ==> LegalMove(before[s.id], s)
    ensures LegalMoves(before, mid[s.id := s])
  {
  }

  /** Stored at the start and after every command of the run. */
  ghost predicate Stays(h: Host, turns: seq<Turn>, idFor: IdFor, id: string) {
    forall i :: 0 <= i <= |turns| ==> id in Run(h, turns[..i], idFor).reg.sessions
  }

  predicate KeepsEnded(s: Session, t: Session) {
    SameIdentity(s, t) && s.startedAt == t.startedAt && (IsTerminal(s.status) ==> IsTerminal(t.status))
  }

  lemma StaysStored(h: Host, turns: seq<Turn>, idFor: IdFor, id: string)
    requires Stays(h, turns, idFor, id)
    ensures id in h.reg.sessions && id in Run(h, turns, idFor).reg.sessions
    ensures turns != [] ==> Stays(h, turns[..|turns| - 1], idFor, id)
  {
    assert turns[..|turns|] == turns && turns[..0] == [];
    assert id in Run(h, turns[..0], idFor).reg.sessions && id in Run(h, turns[..|turns|], idFor).reg.sessions;
    if turns != [] {
      var init := turns[..|turns| - 1];
      assert forall i :: 0 <= i <= |init| ==> init[..i] == turns[..i];
    }
  }

  /** A session that ended never comes back to life while it is kept, and keeps identity and start time. */
  lemma {:induction false} EndedForGood(idFor: IdFor, h: Host, turns: seq<Turn>, id: string)
    requires Injective(idFor) && CoreOk(idFor, h) && ValidRun(h, turns, idFor) && Stays(h, turns, idFor, id)
    ensures id in h.reg.sessions && id in Run(h, turns, idFor).reg.sessions
    ensures KeepsEnded(h.reg.sessions[id], Run(h, turns, idFor).reg.sessions[id])
  {
    StaysStored(h, turns, idFor, id);
    if turns != [] {
      var init, last := turns[..|turns| - 1], turns[|turns| - 1];
      RunPrefix(h, turns, idFor);
      StaysStored(h, init, idFor, id);
      EndedForGood(idFor, h, init, id);
      RunKeepsCore(idFor, h, init);
      OneMoreTurn(idFor, h.reg.sessions[id], Run(h, init, idFor), last, id);
    }
  }

  lemma OneMoreTurn(idFor: IdFor, s: Session, h: Host, turn: Turn, id: string)
    requires Injective(idFor) && CoreOk(idFor, h) && ValidChoice(h, turn.cmd, idFor, turn.choice)
    requires id in h.reg.sessions && KeepsEnded(s, h.reg.sessions[id])
    ensures var after := Exec(h, turn.cmd, idFor, turn.choice).reg.sessions;
            id in after ==> KeepsEnded(s, after[id])
  {
    ExecMovesLegally(idFor, h, turn.cmd, turn.choice);
    LegalKeepsEnded(s, h.reg.sessions, Exec(h, turn.cmd, idFor, turn.choice).reg.sessions, id);
  }

  lemma LegalKeepsEnded(s: Session, before: map<string, Session>, after: map<string, Session>, id: string)
    requires LegalMoves(before, after) && id in before && KeepsEnded(s, before[id])
    ensures id in after ==> KeepsEnded(s, after[id])
  {
    if id in after { assert LegalMove(before[id], after[id]); }
  }
}
