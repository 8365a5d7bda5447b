/** Why a command that names a session is refused. */
module HostRefusals {
  import opened Options
  import opened Protocol
  import opened Registry
  import opened HostCore
  import opened HostSync
  import opened HostSteps
  import opened HostEffects

  /** What is checked before anything is looked up. */
  predicate FieldsFit(cmd: Command)
    requires ByName(cmd)
  {
    && Bounded(cmd.externalId, MAX_EXTERNAL_SESSION_ID_LEN)
    && match cmd
       case LifecycleNote(_, _, _, summary, _) => Bounded(summary, MAX_EVENT_SUMMARY_LEN)
       case ToolNote(_, _, _, summary, tool, _) =>
         Bounded(summary, MAX_EVENT_SUMMARY_LEN) && (tool.Some? ==> Bounded(tool.value, MAX_TOOL_NAME_LEN))
       case SetAttention(_, _, _, _, summary, _) => Bounded(summary, MAX_EVENT_SUMMARY_LEN)
       case _ => true
  }

  /** The adapter offers what the command needs. */
  predicate Offers(a: Adapter, cmd: Command)
    requires ByName(cmd)
  {
    match cmd
    case SetAttention(_, _, attention, _, _, _) =>
      a.attention.FullAttention? || (a.attention.PartialAttention? <==> attention != NoAttention)
    case RegisterProcessRoot(_, _, _, _) => a.attributesProcesses
    case _ => a.events
  }

  ghost predicate Supported(h: Host, cmd: Command)
    requires ByName(cmd)
  {
    exists a :: IsAdapter(h, a, cmd.source) && Offers(a, cmd)
  }

  /** A status change that the stored session cannot make, all earlier checks passed. */
  predicate MovesBadly(cmd: Command, s: Session)
    requires ByName(cmd)
  {
    match cmd
    case SessionUpdate(_, _, status, name, workspace, _) =>
      && (name.Some? ==> Bounded(name.value, MAX_SESSION_LABEL_LEN))
      && (workspace.Some? ==> Bounded(workspace.value, MAX_WORKSPACE_LABEL_LEN))
      && status.Some? && !ValidTransition(s.status, status.value)
    case SessionEnd(_, _, status, _, _) => (status.Completed? || status.Failed?) && !ValidTransition(s.status, status)
    case _ => false
  }

  lemma SupportedExactly(h: Host, cmd: Command)
    requires UniqueSources(h.adapters) && ByName(cmd)
    ensures Supported(h, cmd) <==>
              AdapterFor(h.adapters, cmd.source).Some? && Offers(AdapterFor(h.adapters, cmd.source).value, cmd)
  {
    AdapterForIsOne(h.adapters, cmd.source);
    if a :| IsAdapter(h, a, cmd.source) && Offers(a, cmd) { AdapterFound(h.adapters, a); }
  }

  predicate Capable(h: Host, cmd: Command)
    requires ByName(cmd)
  {
    AdapterFor(h.adapters, cmd.source).Some? && Offers(AdapterFor(h.adapters, cmd.source).value, cmd)
  }

  /** Fields, then capability, then the session itself; after that only its own fields and its status can
      stand in the way. */
  predicate InOrder(h: Host, cmd: Command, d: Decision)
    requires ByName(cmd)
  {
    if !FieldsFit(cmd) then d == Refuse(Validation)
    else if !Capable(h, cmd) then d == Refuse(UnsupportedCapability)
    else if Resolve(h.reg, cmd.source, cmd.externalId).None? then d == Refuse(SessionNotFound)
    else LateOnly(d)
  }

  lemma ChangesInOrder(h: Host, cmd: Command)
    requires cmd.SessionUpdate? || cmd.SessionEnd?
    ensures InOrder(h, cmd, if cmd.SessionUpdate? then DecideUpdate(h, cmd) else DecideEnd(h, cmd))
  {
  }

  lemma NotesInOrder(h: Host, cmd: Command)
    requires cmd.LifecycleNote? || cmd.ToolNote?
    ensures InOrder(h, cmd, DecideNote(h, cmd))
  {
  }

  lemma ReportsInOrder(h: Host, cmd: Command)
    requires cmd.SetAttention? || cmd.RegisterProcessRoot?
    ensures InOrder(h, cmd, if cmd.SetAttention? then DecideAttention(h, cmd) else DecideRoot(h, cmd))
  {
    if cmd.SetAttention? && AdapterFor(h.adapters, cmd.source).Some? {
      AttentionFits(AdapterFor(h.adapters, cmd.source).value, cmd.attention);
    }
  }

  lemma DecidedInOrder(h: Host, cmd: Command, idFor: IdFor, choice: Choice)
    requires ByName(cmd)
    ensures InOrder(h, cmd, Decide(h, cmd, idFor, choice))
  {
    if cmd.SessionUpdate? || cmd.SessionEnd? { ChangesInOrder(h, cmd); }
    else if cmd.LifecycleNote? || cmd.ToolNote? { NotesInOrder(h, cmd); }
    else { ReportsInOrder(h, cmd); }
  }

  /** The reason as the caller sees it, in the order of the checks. */
  lemma RefusalReasons(idFor: IdFor, h: Host, cmd: Command, choice: Choice)
    requires CoreOk(idFor, h) && ByName(cmd)
    ensures var refusal := Refusal(h, cmd, idFor, choice);
            && (!FieldsFit(cmd) ==> refusal == Some(Validation))
            && (refusal == Some(UnsupportedCapability) <==> FieldsFit(cmd) && !Supported(h, cmd))
            && (refusal == Some(SessionNotFound) <==>
                  FieldsFit(cmd) && Supported(h, cmd) && !KnownSession(h, cmd.source, cmd.externalId))
            && refusal != Some(SessionCapacity)
  {
    SupportedExactly(h, cmd);
    FoundExactly(idFor, h, cmd.source, cmd.externalId);
    DecidedInOrder(h, cmd, idFor, choice);
    ReasonOf(h, cmd, Decide(h, cmd, idFor, choice));
  }

  lemma ReasonOf(h: Host, cmd: Command, d: Decision)
    requires ByName(cmd) && InOrder(h, cmd, d)
    ensures (!FieldsFit(cmd) ==> ErrorOf(d) == Some(Validation)) && ErrorOf(d) != Some(SessionCapacity)
    ensures ErrorOf(d) == Some(UnsupportedCapability) <==> FieldsFit(cmd) && !Capable(h, cmd)
    ensures ErrorOf(d) == Some(SessionNotFound) <==>
              FieldsFit(cmd) && Capable(h, cmd) && Resolve(h.reg, cmd.source, cmd.externalId).None?
  {
  }

  predicate LateOnly(d: Decision) {
    ErrorOf(d).Some? ==> ErrorOf(d).value.Validation? || ErrorOf(d).value.InvalidTransition?
  }

  /** An illegal move is refused as such, exactly when nothing is wrong before it. */
  lemma BadMoveRefused(idFor: IdFor, h: Host, cmd: Command, choice: Choice, id: string)
    requires CoreOk(idFor, h) && ByName(cmd) && IsSession(h, id, cmd.source, cmd.externalId)
    ensures Refusal(h, cmd, idFor, choice) == Some(InvalidTransition) <==>
              Supported(h, cmd) && FieldsFit(cmd) && MovesBadly(cmd, h.reg.sessions[id])
  {
    SupportedExactly(h, cmd);
    SessionFound(idFor, h, id, cmd.source, cmd.externalId);
    if cmd.SessionUpdate? {
      UpdateMovesBadly(cmd, h.reg.sessions[id]);
    } else if cmd.SessionEnd? {
      EndMovesBadly(cmd, h.reg.sessions[id]);
    }
  }

  lemma UpdateMovesBadly(cmd: Command, s: Session)
    requires cmd.SessionUpdate?
    ensures ErrorOf(UpdateOf(s, cmd)) == Some(InvalidTransition) <==> MovesBadly(cmd, s)
  {
  }

  lemma EndMovesBadly(cmd: Command, s: Session)
    requires cmd.SessionEnd?
    ensures ErrorOf(EndOf(s, cmd)) == Some(InvalidTransition) <==> MovesBadly(cmd, s)
  {
  }
}
