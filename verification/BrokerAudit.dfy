/** What a submission leaves in the audit row, and how long it stays there. */
module BrokerAudit {
  import opened Options
  import opened Broker
  import opened BrokerRuns

  // ---------------------------------------------------------------- one submission

  /** A yes or no to a pending, actionable decision whose window is open. */
  predicate Answers(s: Slot, submit: Step) {
    && submit.SubmitDecision? && submit.t !in s.submitters
    && (submit.response == Action(Allow) || submit.response == Action(Deny))
    && s.entry.active.Some? && s.entry.active.value.state.Pending? && s.entry.active.value.actionable
    && submit.now < s.entry.active.value.expiresAt
  }

  /** The adapter made something of it that a hook does not take for silence. */
  predicate Usable(build: Build) { build.Built? && build.stdout != "{}" }

  /** The row after an answer whose write succeeded. */
  function Logged(r: Row, submit: Step): Row
    requires submit.SubmitDecision?
  {
    match submit.build
    case CapabilityDisabled => Row(WireFailed, Some(submit.response), Some(submit.now), Some(DISABLED))
    case BuildFailed(message) => Row(WireFailed, r.response, Some(submit.now), Some(message))
    case Built(stdout) =>
      if stdout == "{}" then Row(WireFailed, Some(submit.response), Some(submit.now), Some(NEUTRAL_DETAIL))
      else Row(WirePending, Some(submit.response), Some(submit.now), r.detail)
  }

  /** Exactly an answer with a usable output is accepted. It is audited with its response and time if its
      write succeeds on an existing row; an answer the adapter refused is audited as failed. */
  lemma SubmissionIsAudited(s: Slot, submit: Step)
    requires submit.SubmitDecision?
    ensures var after := StepSlot(s, submit);
            && after.accepted == s.accepted +
                 (if Answers(s, submit) && Usable(submit.build)
                  then [Answered(submit.response, submit.now, submit.build.stdout, s.entry.active.value.expiresAt)]
                  else [])
            && after.entry.row ==
                 (if Answers(s, submit) && submit.storeOk && s.entry.row.Some?
                  then Some(Logged(s.entry.row.value, submit)) else s.entry.row)
            && after.written == s.written
            && (!Answers(s, submit) ==> after.entry == s.entry && after.waits == s.waits)
  {
  }

  // ---------------------------------------------------------------- the audited answer over runs

  /** The columns of the row that an answer fills. */
  function AnswerColumns(row: Option<Row>): Option<(Option<Response>, Option<int>)> {
    match row
    case None => None
    case Some(r) => Some((r.response, r.respondedAt))
  }

  lemma WaitKeepsColumns(s: Slot, step: Step, w: nat)
    requires LiveOk(s, w) && s.accepted != []
    ensures StepWait(s, step, w).accepted == s.accepted
    ensures AnswerColumns(StepWait(s, step, w).entry.row) == AnswerColumns(s.entry.row)
  {
  }

  lemma SubmitKeepsColumns(s: Slot, step: Step)
    requires StateOk(s) && s.accepted != [] && SubmitStep(step)
    ensures StepSubmit(s, step, step.t).accepted == s.accepted
    ensures AnswerColumns(StepSubmit(s, step, step.t).entry.row) == AnswerColumns(s.entry.row)
  {
  }

  /** Once an answer was accepted, no step accepts another or touches what is audited of it. */
  lemma AnswerIsFinal(s: Slot, step: Step)
    requires SlotOk(s) && Fresh(s, step) && s.accepted != []
    ensures StepSlot(s, step).accepted == s.accepted
    ensures AnswerColumns(StepSlot(s, step).entry.row) == AnswerColumns(s.entry.row)
  {
    var w :| LiveOk(s, w);
    if SubmitStep(step) {
      SubmitKeepsColumns(s, step);
    } else if !step.Start? && step.w in s.waits {
      WaitKeepsColumns(s, step, step.w);
    }
  }

  lemma {:induction false} AnswerStaysFinal(run: Run, more: Run, nonce: string)
    requires SingleUse(run + more) && SlotIn(After(run), nonce).accepted != []
    ensures var s, u := SlotIn(After(run), nonce), SlotIn(After(run + more), nonce);
            u.accepted == s.accepted && AnswerColumns(u.entry.row) == AnswerColumns(s.entry.row)
    decreases |more|
  {
    if more == [] {
      assert run + more == run;
    } else {
      var all, init := run + more, more[..|more| - 1];
      assert all[..|all| - 1] == run + init;
      SingleUsePrefix(all, |all| - 1);
      AnswerStaysFinal(run, init, nonce);
      if all[|all| - 1].0 == nonce {
        LastStepFresh(all);
        RunKeepsSlotOk(run + init, nonce);
        AnswerIsFinal(SlotIn(After(run + init), nonce), all[|all| - 1].1);
      }
    }
  }

  /** The row holds that answer and its time. */
  predicate Logs(row: Option<Row>, response: Response, at: int) {
    row.Some? && row.value.response == Some(response) && row.value.respondedAt == Some(at)
  }

  lemma NoEarlierAnswer(s: Slot, submit: Step)
    requires SlotOk(s) && Answers(s, submit)
    ensures s.accepted == [] && (s.entry.row.Some? ==> s.entry.row.value.response.None?)
  {
    var w :| LiveOk(s, w);
  }

  /** The answer accepted in a run is the only one of its nonce for good, and is audited for good
      exactly when its own write succeeded on an existing row. */
  lemma AcceptedIsAudited(run: Run, nonce: string, submit: Step, more: Run)
    requires SingleUse(run + [(nonce, submit)] + more)
    requires Answers(SlotIn(After(run), nonce), submit) && Usable(submit.build)
    ensures var s, u := SlotIn(After(run), nonce), SlotIn(After(run + [(nonce, submit)] + more), nonce);
            && u.accepted ==
                 [Answered(submit.response, submit.now, submit.build.stdout, s.entry.active.value.expiresAt)]
            && (Logs(u.entry.row, submit.response, submit.now) <==> submit.storeOk && s.entry.row.Some?)
            && (Audits(u, submit.response) <==> submit.storeOk && s.entry.row.Some?)
  {
    var told := run + [(nonce, submit)];
    var s := SlotIn(After(run), nonce);
    assert told[..|told| - 1] == run;
    SingleUsePrefix(told + more, |run|);
    assert (told + more)[..|run|] == run;
    RunKeepsSlotOk(run, nonce);
    NoEarlierAnswer(s, submit);
    SubmissionIsAudited(s, submit);
    AnswerStaysFinal(told, more, nonce);
  }
}
