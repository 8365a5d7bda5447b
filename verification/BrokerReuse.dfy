/** What a second wait on a live nonce can do: where it breaks the broker's promises and where it cannot. */
module BrokerReuse {
  import opened Options
  import opened Broker
  import opened BrokerRuns

  function StepAll(s: Slot, steps: seq<Step>): Slot {
    if steps == [] then s else StepSlot(StepAll(s, steps[..|steps| - 1]), steps[|steps| - 1])
  }

  lemma StepOneMore(s: Slot, steps: seq<Step>, step: Step)
    ensures StepAll(s, steps + [step]) == StepSlot(StepAll(s, steps), step)
  {
    assert (steps + [step])[..|steps|] == steps;
  }

  lemma StepThree(s: Slot, a: Step, b: Step, c: Step)
    ensures StepAll(s, [a, b, c]) == StepSlot(StepSlot(StepSlot(s, a), b), c)
  {
    StepOneMore(s, [], a);
    StepOneMore(s, [a], b);
    StepOneMore(s, [a, b], c);
    assert [] + [a] == [a] && [a] + [b] == [a, b] && [a, b] + [c] == [a, b, c];
  }

  // ---------------------------------------------------------------- another connection

  /** A foreign connection's wait is answered with the neutral output at once. */
  lemma ForeignWaitIsNeutral(s: Slot, start: Step)
    requires start.Start? && start.w !in s.waits
    requires s.entry.active.Some? && s.entry.active.value.connection != start.connection
    ensures var t := StepSlot(s, start);
            && start.w in t.waits && t.waits[start.w].at == Returned(NeutralReply(WireFailed))
            && !t.waits[start.w].abandoned && t == s.(waits := t.waits)
  {
  }

  lemma NeutralIsWritten(t: Slot, w: nat)
    requires w in t.waits && t.waits[w].at == Returned(NeutralReply(WireFailed)) && !t.waits[w].abandoned
    ensures var u := StepSlot(t, ServerWrite(w, true));
            && w in u.waits && u.waits[w].at == Written(NeutralReply(WireFailed), true)
            && u == t.(waits := u.waits, written := t.written + [NEUTRAL])
  {
  }

  lemma ChosenIsConfirmed(u: Slot, w: nat, reply: Reply, detail: string)
    requires Retains(u.entry.active) && u.entry.row.Some? && w in u.waits && u.waits[w].at == Written(reply, true)
    ensures var after := StepSlot(u, ServerReport(w, detail, true));
            SaysDelivered(after) && after.written == u.written && after.accepted == u.accepted
  {
  }

  /** A foreign wait on a chosen nonce: its neutral reply is recorded as the answer's delivery. */
  lemma StolenWhenChosen(s: Slot, start: Step, detail: string)
    requires start.Start? && start.w !in s.waits && s.entry.row.Some?
    requires Retains(s.entry.active) && s.entry.active.value.connection != start.connection
    ensures var after := StepAll(s, [start, ServerWrite(start.w, true), ServerReport(start.w, detail, true)]);
            SaysDelivered(after) && after.written == s.written + [NEUTRAL] && after.accepted == s.accepted
  {
    var w := start.w;
    StepThree(s, start, ServerWrite(w, true), ServerReport(w, detail, true));
    ForeignWaitIsNeutral(s, start);
    NeutralIsWritten(StepSlot(s, start), w);
    ChosenIsConfirmed(StepSlot(StepSlot(s, start), ServerWrite(w, true)), w, NeutralReply(WireFailed), detail);
  }

  predicate Acceptable(a: ActiveDecision, submit: Step) {
    && submit.SubmitDecision? && ValidResponse(submit.response) && submit.storeOk
    && submit.build.Built? && submit.build.stdout != NEUTRAL
    && a.state.Pending? && a.actionable && submit.now < a.expiresAt
  }

  lemma AcceptedIsChosen(s: Slot, submit: Step)
    requires s.entry.active.Some? && Acceptable(s.entry.active.value, submit) && submit.t !in s.submitters
    ensures var u := StepSlot(s, submit);
            && Retains(u.entry.active) && u.written == s.written && (s.entry.row.Some? ==> u.entry.row.Some?)
            && u.accepted == s.accepted
                 + [Answered(submit.response, submit.now, submit.build.stdout, s.entry.active.value.expiresAt)]
            && u.waits.Keys == s.waits.Keys
            && forall w :: w in s.waits && !s.waits[w].at.Listening? ==> u.waits[w] == s.waits[w]
  {
  }

  /** A foreign wait on a pending nonce: the answer accepted after its neutral reply counts as delivered by it. */
  lemma StolenWhilePending(s: Slot, start: Step, submit: Step, detail: string)
    requires start.Start? && start.w !in s.waits && s.entry.row.Some?
    requires s.entry.active.Some? && s.entry.active.value.connection != start.connection
    requires Acceptable(s.entry.active.value, submit) && submit.t !in s.submitters
    ensures var steps := [start, ServerWrite(start.w, true), submit] + [ServerReport(start.w, detail, true)];
            var after := StepAll(s, steps);
            SaysDelivered(after) && after.written == s.written + [NEUTRAL] && |after.accepted| == |s.accepted| + 1
  {
    var w := start.w;
    StepThree(s, start, ServerWrite(w, true), submit);
    StepOneMore(s, [start, ServerWrite(w, true), submit], ServerReport(w, detail, true));
    ForeignWaitIsNeutral(s, start);
    var t := StepSlot(s, start);
    NeutralIsWritten(t, w);
    var u := StepSlot(t, ServerWrite(w, true));
    AcceptedIsChosen(u, submit);
    ChosenIsConfirmed(StepSlot(u, submit), w, NeutralReply(WireFailed), detail);
  }

  // ---------------------------------------------------------------- the same connection

  lemma ReinsertsPending(s: Slot, start: Step, timeout: nat)
    requires start.Start? && start.w !in s.waits
    requires Retains(s.entry.active) && s.entry.active.value.connection == start.connection
    ensures var u := StepSlot(StepAll(s, [start, Audit(start.w, true), Register(start.w)]), Insert(start.w, timeout));
            && u.entry.active ==
                 Some(ActiveDecision(Pending, start.connection, start.actionable, start.created + timeout))
            && u.accepted == s.accepted && u.submitters == s.submitters
  {
    var w := start.w;
    StepThree(s, start, Audit(w, true), Register(w));
    var t := StepSlot(s, start);
    assert w in t.waits && t.waits[w] == Wait(start.connection, start.created, start.actionable, Checked, false);
    InsertsFromChecked(t, w, timeout);
  }

  lemma InsertsFromChecked(t: Slot, w: nat, timeout: nat)
    requires w in t.waits && t.waits[w].at == Checked
    ensures var u := StepSlot(StepSlot(StepSlot(t, Audit(w, true)), Register(w)), Insert(w, timeout));
            var wait := t.waits[w];
            && u.entry.active == Some(ActiveDecision(Pending, wait.connection, wait.actionable, wait.created + timeout))
            && u.accepted == t.accepted && u.submitters == t.submitters && u.written == t.written
            && u.waits.Keys == t.waits.Keys && u.entry.row.Some?
  {
    var audited := StepSlot(t, Audit(w, true));
    assert audited.waits[w] == t.waits[w].(at := Audited) && audited.entry.row.Some?;
    var registered := StepSlot(audited, Register(w));
    assert registered.waits[w].at.Registered? && registered.entry.row == audited.entry.row;
  }

  /** A second wait of the same connection puts a chosen nonce back to pending: it is answered twice. */
  lemma AnsweredTwice(s: Slot, start: Step, timeout: nat, submit: Step)
    requires start.Start? && start.w !in s.waits
    requires Retains(s.entry.active) && s.entry.active.value.connection == start.connection
    requires Acceptable(ActiveDecision(Pending, start.connection, start.actionable, start.created + timeout), submit)
    requires submit.t !in s.submitters
    ensures var steps := [start, Audit(start.w, true), Register(start.w)] + [Insert(start.w, timeout)] + [submit];
            var after := StepAll(s, steps);
            |after.accepted| == |s.accepted| + 1
  {
    var first := [start, Audit(start.w, true), Register(start.w)];
    StepOneMore(s, first, Insert(start.w, timeout));
    StepOneMore(s, first + [Insert(start.w, timeout)], submit);
    ReinsertsPending(s, start, timeout);
    AcceptedIsChosen(StepSlot(StepAll(s, first), Insert(start.w, timeout)), submit);
  }

  // ---------------------------------------------------------------- where it is harmless

  predicate Settled(a: ActiveDecision) { a.state.Failed? || a.state.Expired? }

  /** Nothing can be chosen any more: no wait is still to insert its decision. */
  predicate Dead(s: Slot) {
    && !SaysDelivered(s) && (s.entry.active.Some? ==> Settled(s.entry.active.value))
    && forall w :: w in s.waits ==> Spent(s.waits[w].at)
  }

  predicate Spent(at: Position) { !BeforeInsert(at) && (at.Reinserting? ==> Settled(at.taken)) }

  lemma DeadToSubmits(s: Slot, step: Step)
    requires Dead(s) && SubmitStep(step)
    ensures Dead(StepSubmit(s, step, step.t))
  {
  }

  lemma DeadToWaits(s: Slot, step: Step, w: nat)
    requires Dead(s) && w in s.waits && !step.Start? && !SubmitStep(step)
    ensures Dead(StepWait(s, step, w))
  {
    assert Spent(s.waits[w].at);
  }

  lemma DeadStays(s: Slot, step: Step)
    requires Dead(s) && !step.Start?
    ensures Dead(StepSlot(s, step))
  {
    if SubmitStep(step) {
      DeadToSubmits(s, step);
    } else if step.w in s.waits {
      DeadToWaits(s, step, step.w);
    }
  }

  /** A second wait on a nonce whose decision failed or expired is answered at once, and whatever runs
      afterwards, short of a further wait, no delivery is ever recorded. */
  lemma {:induction false} HarmlessWhenSettled(s: Slot, start: Step, steps: seq<Step>)
    requires SlotOk(s) && start.Start? && s.entry.active.Some? && Settled(s.entry.active.value)
    requires forall step :: step in steps ==> !step.Start?
    ensures Dead(StepAll(StepSlot(s, start), steps)) && !SaysDelivered(StepAll(StepSlot(s, start), steps))
  {
    if steps == [] {
      var w :| LiveOk(s, w);
    } else {
      HarmlessWhenSettled(s, start, steps[..|steps| - 1]);
      DeadStays(StepAll(StepSlot(s, start), steps[..|steps| - 1]), steps[|steps| - 1]);
    }
  }

  // ---------------------------------------------------------------- a breaking run

  lemma AfterOne(run: Run, nonce: string, step: Step)
    ensures SlotIn(After(run + [(nonce, step)]), nonce) == StepSlot(SlotIn(After(run), nonce), step)
  {
    assert (run + [(nonce, step)])[..|run|] == run;
  }

  const ALLOW := SubmitDecision(0, Action(Allow), 1, Built("allow"), true)

  /** A pending decision whose wait has not yet begun to listen. */
  lemma PendingEarly()
    ensures var s := StepSlot(StepSlot(StepSlot(StepSlot(EMPTY, Start(0, "a", 0, true)), Audit(0, true)), Register(0)),
                              Insert(0, 120_000));
            && s.entry.active == Some(ActiveDecision(Pending, "a", true, 120_000)) && s.entry.row.Some?
            && s.waits.Keys == {0} && s.submitters == map[] && s.written == [] && s.accepted == []
  {
    var s := StepSlot(EMPTY, Start(0, "a", 0, true));
    assert s.waits == map[0 := Wait("a", 0, true, Checked, false)];
    InsertsFromChecked(s, 0, 120_000);
  }

  /** Without fresh nonces the promise breaks: a second connection waiting on a chosen nonce is
      sent the neutral output, and confirming that write records the answer as delivered. */
  lemma SecondWaitBreaksHonesty(nonce: string) returns (run: Run)
    ensures !SingleUse(run)
    ensures var s := SlotIn(After(run), nonce);
            s.entry.row.Some? && s.entry.row.value.state.WireDelivered? && s.written == [NEUTRAL] &&
            |s.accepted| == 1 && s.accepted[0].stdout == "allow"
  {
    PendingEarly();
    var s := StepSlot(StepSlot(StepSlot(StepSlot(EMPTY, Start(0, "a", 0, true)), Audit(0, true)), Register(0)),
                      Insert(0, 120_000));
    AcceptedIsChosen(s, ALLOW);
    var chosen := StepSlot(s, ALLOW);
    StolenWhenChosen(chosen, Start(1, "b", 0, true), "");
    StepThree(chosen, Start(1, "b", 0, true), ServerWrite(1, true), ServerReport(1, "", true));
    run := [];
    AfterOne(run, nonce, Start(0, "a", 0, true));
    run := run + [(nonce, Start(0, "a", 0, true))];
    AfterOne(run, nonce, Audit(0, true));
    run := run + [(nonce, Audit(0, true))];
    AfterOne(run, nonce, Register(0));
    run := run + [(nonce, Register(0))];
    AfterOne(run, nonce, Insert(0, 120_000));
    run := run + [(nonce, Insert(0, 120_000))];
    AfterOne(run, nonce, ALLOW);
    run := run + [(nonce, ALLOW)];
    AfterOne(run, nonce, Start(1, "b", 0, true));
    run := run + [(nonce, Start(1, "b", 0, true))];
    AfterOne(run, nonce, ServerWrite(1, true));
    run := run + [(nonce, ServerWrite(1, true))];
    AfterOne(run, nonce, ServerReport(1, "", true));
    run := run + [(nonce, ServerReport(1, "", true))];
    assert Starts(run, 0, nonce) && Starts(run, 5, nonce);
  }
}
