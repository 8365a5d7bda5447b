/** Where whole conversations end: an answer that arrives, one the adapter refuses, and silence. */
module BrokerTalks {
  import opened Options
  import opened Broker
  import opened BrokerRuns
  import opened BrokerReuse
  import opened BrokerAudit

  lemma {:induction false} StepsConcat(s: Slot, a: seq<Step>, b: seq<Step>)
    ensures StepAll(s, a + b) == StepAll(StepAll(s, a), b)
  {
    if b == [] {
      assert a + b == a;
    } else {
      StepsConcat(s, a, b[..|b| - 1]);
      assert (a + b)[..|a + b| - 1] == a + b[..|b| - 1];
    }
  }

  /** Stages of a conversation in a row. */
  lemma ThreeStages(s: Slot, a: seq<Step>, t: Slot, b: seq<Step>, u: Slot, c: seq<Step>, v: Slot)
    requires StepAll(s, a) == t && StepAll(t, b) == u && StepAll(u, c) == v
    ensures StepAll(s, a + b + c) == v
  {
    StepsConcat(s, a + b, c);
    StepsConcat(s, a, b);
  }

  /** A nonce with one wait and no late submitter. */
  function Lone(e: Entry, w: nat, wait: Wait, accepted: seq<Answered>, written: seq<string>): Slot {
    Slot(e, map[w := wait], map[], accepted, written)
  }

  lemma LoneMoves(s: Slot, e: Entry, w: nat, wait: Wait, at: Position)
    requires s.waits == map[w := wait]
    ensures At(s.(entry := e), w, at) == s.(entry := e, waits := map[w := wait.(at := at)])
  {
    assert s.waits[w := wait.(at := at)] == map[w := wait.(at := at)];
  }

  // ---------------------------------------------------------------- asking

  /** A question put to the user: one audited pending row, one decision, one listening wait. */
  function Asked(w: nat, connection: string, created: int, actionable: bool, timeout: nat): Slot {
    Lone(Entry(Some(ActiveDecision(Pending, connection, actionable, created + timeout)), Some(w),
               Some(Row(WirePending, None, None, None))),
         w, Wait(connection, created, actionable, Listening(w, false), false), [], [])
  }

  function Asking(w: nat, connection: string, created: int, actionable: bool, timeout: nat): seq<Step> {
    [Start(w, connection, created, actionable), Audit(w, true), Register(w)] + [Insert(w, timeout), Listen(w)]
  }

  lemma StartsAsking(w: nat, connection: string, created: int, actionable: bool)
    ensures StepAll(EMPTY, [Start(w, connection, created, actionable), Audit(w, true), Register(w)]) ==
              Lone(Entry(None, Some(w), Some(Row(WirePending, None, None, None))), w,
                   Wait(connection, created, actionable, Registered(w), false), [], [])
  {
    StepThree(EMPTY, Start(w, connection, created, actionable), Audit(w, true), Register(w));
    var wait := Wait(connection, created, actionable, Checked, false);
    var checked := Lone(Entry(None, None, None), w, wait, [], []);
    assert StepSlot(EMPTY, Start(w, connection, created, actionable)) == checked;
    var audited := Entry(None, None, Some(Row(WirePending, None, None, None)));
    LoneMoves(checked, audited, w, wait, Audited);
    LoneMoves(Lone(audited, w, wait.(at := Audited), [], []), audited.(waiter := Some(w)), w, wait.(at := Audited),
              Registered(w));
  }

  lemma EndsAsking(row: Option<Row>, w: nat, wait: Wait, timeout: nat)
    requires wait.at == Registered(w)
    ensures StepAll(Lone(Entry(None, Some(w), row), w, wait, [], []), [Insert(w, timeout), Listen(w)]) ==
              Lone(Entry(Some(ActiveDecision(Pending, wait.connection, wait.actionable, wait.created + timeout)),
                         Some(w), row), w, wait.(at := Listening(w, false)), [], [])
  {
    var s := Lone(Entry(None, Some(w), row), w, wait, [], []);
    StepTwo(s, Insert(w, timeout), Listen(w));
    var a := ActiveDecision(Pending, wait.connection, wait.actionable, wait.created + timeout);
    LoneMoves(s, s.entry.(active := Some(a)), w, wait, Inserted(w));
    var inserted := Lone(s.entry.(active := Some(a)), w, wait.(at := Inserted(w)), [], []);
    LoneMoves(inserted, inserted.entry, w, wait.(at := Inserted(w)), Listening(w, false));
  }

  lemma StepTwo(s: Slot, a: Step, b: Step)
    ensures StepAll(s, [a, b]) == StepSlot(StepSlot(s, a), b)
  {
    StepOneMore(s, [], a);
    StepOneMore(s, [a], b);
    assert [] + [a] == [a] && [a] + [b] == [a, b];
  }

  lemma AskingAsks(w: nat, connection: string, created: int, actionable: bool, timeout: nat)
    ensures StepAll(EMPTY, Asking(w, connection, created, actionable, timeout)) ==
              Asked(w, connection, created, actionable, timeout)
  {
    StepsConcat(EMPTY, [Start(w, connection, created, actionable), Audit(w, true), Register(w)],
                [Insert(w, timeout), Listen(w)]);
    StartsAsking(w, connection, created, actionable);
    EndsAsking(Some(Row(WirePending, None, None, None)), w,
               Wait(connection, created, actionable, Registered(w), false), timeout);
  }

  // ---------------------------------------------------------------- answering

  /** How an answer settles a decision. */
  function SettledAs(submit: Step): Delivery
    requires submit.SubmitDecision?
  {
    match submit.build
    case CapabilityDisabled => Failed(DISABLED)
    case BuildFailed(message) => Failed(message)
    case Built(stdout) =>
      if stdout == "{}" then Failed(NEUTRAL_DETAIL) else Chosen(submit.response, submit.now, stdout)
  }

  function Told(s: Slot, submit: Step): seq<Answered>
    requires submit.SubmitDecision? && s.entry.active.Some?
  {
    if Usable(submit.build)
    then [Answered(submit.response, submit.now, submit.build.stdout, s.entry.active.value.expiresAt)] else []
  }

  lemma AnswerSettles(e: Entry, w: nat, wait: Wait, submit: Step)
    requires wait.at == Listening(w, false) && e.waiter == Some(w) && e.row.Some?
    requires Answers(Lone(e, w, wait, [], []), submit) && submit.storeOk
    ensures var s := Lone(e, w, wait, [], []);
            StepSlot(s, submit) ==
              Lone(Entry(Some(e.active.value.(state := SettledAs(submit))), None, Some(Logged(e.row.value, submit))),
                   w, wait.(at := Listening(w, true)), Told(s, submit), [])
  {
    var s := Lone(e, w, wait, [], []);
    assert WakeAll(s.waits, Some(w)) == map[w := wait.(at := Listening(w, true))];
  }

  /** A settled answer wakes the wait that listens for it. */
  lemma AnswerWakes(e: Entry, w: nat, wait: Wait, submit: Step)
    requires wait.at == Listening(w, false) && e.waiter == Some(w) && e.row.Some?
    requires Answers(Lone(e, w, wait, [], []), submit) && submit.storeOk
    ensures var s := Lone(e, w, wait, [], []);
            StepAll(s, [submit, Resume(w)]) ==
              Lone(Entry(Some(e.active.value.(state := SettledAs(submit))), None, Some(Logged(e.row.value, submit))),
                   w, wait.(at := Resumed), Told(s, submit), [])
  {
    var s := Lone(e, w, wait, [], []);
    StepTwo(s, submit, Resume(w));
    AnswerSettles(e, w, wait, submit);
    var settled := StepSlot(s, submit);
    LoneMoves(settled, settled.entry, w, wait.(at := Listening(w, true)), Resumed);
  }

  // ---------------------------------------------------------------- expiring

  lemma TimesOut(e: Entry, w: nat, wait: Wait)
    requires wait.at == Listening(w, false)
    ensures StepSlot(Lone(e, w, wait, [], []), Timeout(w)) == Lone(e, w, wait.(at := TimedOut), [], [])
  {
    LoneMoves(Lone(e, w, wait, [], []), e, w, wait, TimedOut);
  }

  lemma TakesPending(e: Entry, w: nat, wait: Wait)
    requires wait.at == TimedOut && e.active.Some? && e.active.value.state.Pending?
    ensures StepSlot(Lone(e, w, wait, [], []), ExpireTake(w)) ==
              Lone(e.(active := None), w, wait.(at := Expiring), [], [])
  {
    LoneMoves(Lone(e, w, wait, [], []), e.(active := None), w, wait, Expiring);
  }

  lemma AuditsExpiry(e: Entry, w: nat, wait: Wait)
    requires wait.at == Expiring && e.row.Some?
    ensures StepSlot(Lone(e, w, wait, [], []), ExpireEnd(w, true)) ==
              Lone(e.(row := Some(e.row.value.(state := WireExpired, detail := Some("decision window elapsed")))),
                   w, wait.(at := Resumed), [], [])
  {
    LoneMoves(Lone(e, w, wait, [], []), FinalizeExpired(e, true), w, wait, Resumed);
  }

  lemma SilenceTakes(e: Entry, w: nat, wait: Wait)
    requires wait.at == Listening(w, false) && e.active.Some? && e.active.value.state.Pending? && e.row.Some?
    ensures StepAll(Lone(e, w, wait, [], []), [Timeout(w), ExpireTake(w), ExpireEnd(w, true)]) ==
              Lone(e.(active := None,
                      row := Some(e.row.value.(state := WireExpired, detail := Some("decision window elapsed")))),
                   w, wait.(at := Resumed), [], [])
  {
    StepThree(Lone(e, w, wait, [], []), Timeout(w), ExpireTake(w), ExpireEnd(w, true));
    TimesOut(e, w, wait);
    TakesPending(e, w, wait.(at := TimedOut));
    AuditsExpiry(e.(active := None), w, wait.(at := Expiring));
  }

  // ---------------------------------------------------------------- returning and sending

  function Returning(w: nat): seq<Step> { [MakeReply(w), CheckRetain(w)] + [Clear(w), Unregister(w)] }

  function Sending(w: nat, detail: string): seq<Step> {
    [ServerWrite(w, true), ServerReport(w, detail, true), RemoveReported(w)]
  }

  /** A chosen answer is replied with; of a failed or expired decision only its state. */
  function ReplyTo(active: Option<ActiveDecision>): Reply {
    if active.None? then Reply("{}", WireExpired)
    else match active.value.state
      case Chosen(_, _, stdout) => Reply(stdout, WirePending)
      case Delivered(stdout, _) => Reply(stdout, WireDelivered)
      case Failed(_) => Reply("{}", WireFailed)
      case _ => Reply("{}", WireExpired)
  }

  predicate IsChosen(active: Option<ActiveDecision>) { active.Some? && active.value.state.Chosen? }

  lemma MakesReply(e: Entry, w: nat, wait: Wait, accepted: seq<Answered>)
    requires wait.at == Resumed
    ensures StepSlot(Lone(e, w, wait, accepted, []), MakeReply(w)) ==
              Lone(e, w, wait.(at := Replied(ReplyTo(e.active))), accepted, [])
  {
    LoneMoves(Lone(e, w, wait, accepted, []), e, w, wait, Replied(ReplyTo(e.active)));
  }

  lemma ChecksRetain(e: Entry, w: nat, wait: Wait, accepted: seq<Answered>)
    requires wait.at.Replied?
    ensures StepSlot(Lone(e, w, wait, accepted, []), CheckRetain(w)) ==
              Lone(e, w, wait.(at := RetainChecked(wait.at.reply, IsChosen(e.active))), accepted, [])
  {
    LoneMoves(Lone(e, w, wait, accepted, []), e, w, wait, RetainChecked(wait.at.reply, IsChosen(e.active)));
  }

  lemma ReadsReply(e: Entry, w: nat, wait: Wait, accepted: seq<Answered>)
    requires wait.at == Resumed
    ensures StepAll(Lone(e, w, wait, accepted, []), [MakeReply(w), CheckRetain(w)]) ==
              Lone(e, w, wait.(at := RetainChecked(ReplyTo(e.active), IsChosen(e.active))), accepted, [])
  {
    StepTwo(Lone(e, w, wait, accepted, []), MakeReply(w), CheckRetain(w));
    MakesReply(e, w, wait, accepted);
    ChecksRetain(e, w, wait.(at := Replied(ReplyTo(e.active))), accepted);
  }

  lemma Clears(e: Entry, w: nat, wait: Wait, accepted: seq<Answered>)
    requires wait.at.RetainChecked?
    ensures StepSlot(Lone(e, w, wait, accepted, []), Clear(w)) ==
              Lone(e.(active := if wait.at.retain then e.active else None), w, wait.(at := Cleared(wait.at.reply)),
                   accepted, [])
  {
    LoneMoves(Lone(e, w, wait, accepted, []), e.(active := if wait.at.retain then e.active else None), w, wait,
              Cleared(wait.at.reply));
  }

  lemma Unregisters(e: Entry, w: nat, wait: Wait, accepted: seq<Answered>)
    requires wait.at.Cleared?
    ensures StepSlot(Lone(e, w, wait, accepted, []), Unregister(w)) ==
              Lone(e.(waiter := None), w, wait.(at := Returned(wait.at.reply)), accepted, [])
  {
    LoneMoves(Lone(e, w, wait, accepted, []), e.(waiter := None), w, wait, Returned(wait.at.reply));
  }

  lemma Leaves(e: Entry, w: nat, wait: Wait, accepted: seq<Answered>)
    requires wait.at.RetainChecked?
    ensures StepAll(Lone(e, w, wait, accepted, []), [Clear(w), Unregister(w)]) ==
              Lone(e.(active := if wait.at.retain then e.active else None, waiter := None), w,
                   wait.(at := Returned(wait.at.reply)), accepted, [])
  {
    StepTwo(Lone(e, w, wait, accepted, []), Clear(w), Unregister(w));
    Clears(e, w, wait, accepted);
    Unregisters(e.(active := if wait.at.retain then e.active else None), w, wait.(at := Cleared(wait.at.reply)),
                accepted);
  }

  lemma ReturningReturns(e: Entry, w: nat, wait: Wait, accepted: seq<Answered>)
    requires wait.at == Resumed
    ensures StepAll(Lone(e, w, wait, accepted, []), Returning(w)) ==
              Lone(e.(active := if IsChosen(e.active) then e.active else None, waiter := None), w,
                   wait.(at := Returned(ReplyTo(e.active))), accepted, [])
  {
    StepsConcat(Lone(e, w, wait, accepted, []), [MakeReply(w), CheckRetain(w)], [Clear(w), Unregister(w)]);
    ReadsReply(e, w, wait, accepted);
    Leaves(e, w, wait.(at := RetainChecked(ReplyTo(e.active), IsChosen(e.active))), accepted);
  }

  lemma SendingDelivers(e: Entry, w: nat, wait: Wait, accepted: seq<Answered>, detail: string)
    requires wait.at.Returned? && !wait.abandoned && IsChosen(e.active) && e.row.Some?
    ensures StepAll(Lone(e, w, wait, accepted, []), Sending(w, detail)) ==
              Lone(e.(active := None, row := Some(e.row.value.(state := WireDelivered))), w, wait.(at := Done),
                   accepted, [wait.at.reply.stdout])
  {
    var out := [wait.at.reply.stdout];
    StepThree(Lone(e, w, wait, accepted, []), ServerWrite(w, true), ServerReport(w, detail, true), RemoveReported(w));
    WritesReply(e, w, wait, accepted);
    Confirms(e, w, wait.(at := Written(wait.at.reply, true)), accepted, out, detail);
    Removes(Confirm(e, true).0, w, wait.(at := Marked), accepted, out);
  }

  lemma Removes(e: Entry, w: nat, wait: Wait, accepted: seq<Answered>, out: seq<string>)
    requires wait.at.Marked?
    ensures StepSlot(Lone(e, w, wait, accepted, out), RemoveReported(w)) ==
              Lone(e.(active := None), w, wait.(at := Done), accepted, out)
  {
    LoneMoves(Lone(e, w, wait, accepted, out), e.(active := None), w, wait, Done);
  }

  lemma WritesReply(e: Entry, w: nat, wait: Wait, accepted: seq<Answered>)
    requires wait.at.Returned? && !wait.abandoned
    ensures StepSlot(Lone(e, w, wait, accepted, []), ServerWrite(w, true)) ==
              Lone(e, w, wait.(at := Written(wait.at.reply, true)), accepted, [wait.at.reply.stdout])
  {
    var s := Lone(e, w, wait, accepted, []).(written := [] + [wait.at.reply.stdout]);
    LoneMoves(s, e, w, wait, Written(wait.at.reply, true));
  }

  lemma Confirms(e: Entry, w: nat, wait: Wait, accepted: seq<Answered>, out: seq<string>, detail: string)
    requires wait.at.Written? && wait.at.ok
    ensures StepSlot(Lone(e, w, wait, accepted, out), ServerReport(w, detail, true)) ==
              Lone(Confirm(e, true).0, w, wait.(at := if IsChosen(e.active) then Marked else Done), accepted, out)
  {
    LoneMoves(Lone(e, w, wait, accepted, out), Confirm(e, true).0, w, wait,
              if IsChosen(e.active) then Marked else Done);
  }

  lemma SendingNeutral(e: Entry, w: nat, wait: Wait, accepted: seq<Answered>, detail: string)
    requires wait.at.Returned? && !wait.abandoned && e.active.None?
    ensures StepAll(Lone(e, w, wait, accepted, []), Sending(w, detail)) ==
              Lone(e, w, wait.(at := Done), accepted, [wait.at.reply.stdout])
  {
    var s, out := Lone(e, w, wait, accepted, []), [wait.at.reply.stdout];
    StepThree(s, ServerWrite(w, true), ServerReport(w, detail, true), RemoveReported(w));
    WritesReply(e, w, wait, accepted);
    Confirms(e, w, wait.(at := Written(wait.at.reply, true)), accepted, out, detail);
    assert Confirm(e, true).0 == e;
  }

  // ---------------------------------------------------------------- three conversations

  function Closing(w: nat, detail: string): seq<Step> { Returning(w) + Sending(w, detail) }

  lemma ClosingDelivers(e: Entry, w: nat, wait: Wait, accepted: seq<Answered>, detail: string)
    requires wait.at == Resumed && !wait.abandoned && IsChosen(e.active) && e.row.Some?
    ensures StepAll(Lone(e, w, wait, accepted, []), Closing(w, detail)) ==
              Lone(Entry(None, None, Some(e.row.value.(state := WireDelivered))), w, wait.(at := Done), accepted,
                   [e.active.value.state.stdout])
  {
    StepsConcat(Lone(e, w, wait, accepted, []), Returning(w), Sending(w, detail));
    ReturningReturns(e, w, wait, accepted);
    SendingDelivers(e.(waiter := None), w, wait.(at := Returned(ReplyTo(e.active))), accepted, detail);
  }

  lemma ClosingStaysSilent(e: Entry, w: nat, wait: Wait, accepted: seq<Answered>, detail: string)
    requires wait.at == Resumed && !wait.abandoned
    requires e.active.Some? ==> e.active.value.state.Failed?
    ensures StepAll(Lone(e, w, wait, accepted, []), Closing(w, detail)) ==
              Lone(Entry(None, None, e.row), w, wait.(at := Done), accepted, ["{}"])
  {
    StepsConcat(Lone(e, w, wait, accepted, []), Returning(w), Sending(w, detail));
    ReturningReturns(e, w, wait, accepted);
    SendingNeutral(Entry(None, None, e.row), w, wait.(at := Returned(ReplyTo(e.active))), accepted, detail);
  }

  predicate YesOrNo(submit: Step) {
    submit.SubmitDecision? && (submit.response == Action(Allow) || submit.response == Action(Deny))
  }

  /** A question and a timely answer, up to the wait's waking. */
  lemma AskedAndAnswered(w: nat, connection: string, created: int, timeout: nat, submit: Step)
    requires YesOrNo(submit) && submit.storeOk && submit.now < created + timeout
    ensures var asked := Asked(w, connection, created, true, timeout);
            StepAll(asked, [submit, Resume(w)]) ==
              Lone(Entry(Some(ActiveDecision(SettledAs(submit), connection, true, created + timeout)), None,
                         Some(Logged(Row(WirePending, None, None, None), submit))),
                   w, Wait(connection, created, true, Resumed, false), Told(asked, submit), [])
  {
    AnswerWakes(Asked(w, connection, created, true, timeout).entry, w,
                Wait(connection, created, true, Listening(w, false), false), submit);
  }

  /** The answer is chosen and audited, and the wait about to reply with it. */
  function Informed(w: nat, connection: string, created: int, timeout: nat, response: Response, now: int,
                    stdout: string): Slot {
    Lone(Entry(Some(ActiveDecision(Chosen(response, now, stdout), connection, true, created + timeout)), None,
               Some(Row(WirePending, Some(response), Some(now), None))),
         w, Wait(connection, created, true, Resumed, false), [Answered(response, now, stdout, created + timeout)], [])
  }

  lemma AskedAndAccepted(w: nat, connection: string, created: int, timeout: nat, submit: Step)
    requires YesOrNo(submit) && submit.storeOk && Usable(submit.build) && submit.now < created + timeout
    ensures StepAll(Asked(w, connection, created, true, timeout), [submit, Resume(w)]) ==
              Informed(w, connection, created, timeout, submit.response, submit.now, submit.build.stdout)
  {
    AskedAndAnswered(w, connection, created, timeout, submit);
  }

  lemma InformedDelivers(w: nat, connection: string, created: int, timeout: nat, response: Response, now: int,
                         stdout: string, detail: string)
    ensures StepAll(Informed(w, connection, created, timeout, response, now, stdout), Closing(w, detail)) ==
              Lone(Entry(None, None, Some(Row(WireDelivered, Some(response), Some(now), None))), w,
                   Wait(connection, created, true, Done, false),
                   [Answered(response, now, stdout, created + timeout)], [stdout])
  {
    var told := Informed(w, connection, created, timeout, response, now, stdout);
    ClosingDelivers(told.entry, w, Wait(connection, created, true, Resumed, false), told.accepted, detail);
  }

  /** An answer goes through: the hook is sent it, the row says delivered with its response and time,
      and nothing stays in the broker. */
  lemma AnswerArrives(w: nat, connection: string, created: int, timeout: nat, submit: Step, detail: string)
    requires YesOrNo(submit) && submit.storeOk && Usable(submit.build) && submit.now < created + timeout
    ensures StepAll(EMPTY, Asking(w, connection, created, true, timeout) + [submit, Resume(w)] + Closing(w, detail)) ==
              Lone(Entry(None, None, Some(Row(WireDelivered, Some(submit.response), Some(submit.now), None))),
                   w, Wait(connection, created, true, Done, false),
                   [Answered(submit.response, submit.now, submit.build.stdout, created + timeout)],
                   [submit.build.stdout])
  {
    var stdout := submit.build.stdout;
    AskingAsks(w, connection, created, true, timeout);
    AskedAndAccepted(w, connection, created, timeout, submit);
    InformedDelivers(w, connection, created, timeout, submit.response, submit.now, stdout, detail);
    var told := Informed(w, connection, created, timeout, submit.response, submit.now, stdout);
    ThreeStages(EMPTY, Asking(w, connection, created, true, timeout), Asked(w, connection, created, true, timeout),
                [submit, Resume(w)], told, Closing(w, detail), StepAll(told, Closing(w, detail)));
  }

  /** An answer the adapter cannot put into words: the hook hears nothing of it and the row says failed. */
  lemma RefusedAnswerIsNeutral(w: nat, connection: string, created: int, timeout: nat, submit: Step, detail: string)
    requires YesOrNo(submit) && submit.storeOk && !Usable(submit.build) && submit.now < created + timeout
    ensures StepAll(EMPTY, Asking(w, connection, created, true, timeout) + [submit, Resume(w)] + Closing(w, detail)) ==
              Lone(Entry(None, None, Some(Logged(Row(WirePending, None, None, None), submit))),
                   w, Wait(connection, created, true, Done, false), [], ["{}"])
  {
    var asked := Asked(w, connection, created, true, timeout);
    AskingAsks(w, connection, created, true, timeout);
    AskedAndAnswered(w, connection, created, timeout, submit);
    var told := StepAll(asked, [submit, Resume(w)]);
    ClosingStaysSilent(told.entry, w, Wait(connection, created, true, Resumed, false), told.accepted, detail);
    ThreeStages(EMPTY, Asking(w, connection, created, true, timeout), asked, [submit, Resume(w)], told,
                Closing(w, detail), StepAll(told, Closing(w, detail)));
  }

  /** Nobody answers: the hook is sent the neutral output, the row says expired, and nothing stays. */
  lemma SilenceExpires(w: nat, connection: string, created: int, actionable: bool, timeout: nat, detail: string)
    ensures StepAll(EMPTY, Asking(w, connection, created, actionable, timeout)
                             + [Timeout(w), ExpireTake(w), ExpireEnd(w, true)] + Closing(w, detail)) ==
              Lone(Entry(None, None, Some(Row(WireExpired, None, None, Some("decision window elapsed")))),
                   w, Wait(connection, created, actionable, Done, false), [], ["{}"])
  {
    var asked := Asked(w, connection, created, actionable, timeout);
    var wait := Wait(connection, created, actionable, Listening(w, false), false);
    var expiring := [Timeout(w), ExpireTake(w), ExpireEnd(w, true)];
    AskingAsks(w, connection, created, actionable, timeout);
    SilenceTakes(asked.entry, w, wait);
    var expired := StepAll(asked, expiring);
    ClosingStaysSilent(expired.entry, w, wait.(at := Resumed), [], detail);
    ThreeStages(EMPTY, Asking(w, connection, created, actionable, timeout), asked, expiring, expired,
                Closing(w, detail), StepAll(expired, Closing(w, detail)));
  }
}
