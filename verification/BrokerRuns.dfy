/** All interleavings of waits, submissions, timeouts and transport steps over the nonces of a broker. */
module BrokerRuns {
  import opened Options
  import opened Broker

  /** Where a wait stands, from its first check to the end of the connection that carries it.
      Between two positions any other step may run. */
  datatype Position =
    | Checked
    | Audited
    | Registered(notify: nat)
    | Inserted(notify: nat)
    | Listening(notify: nat, woken: bool)
    | TimedOut
    | Expiring
    | Reinserting(taken: ActiveDecision)
    | Resumed
    | Replied(reply: Reply)
    | RetainChecked(reply: Reply, retain: bool)
    | Cleared(reply: Reply)
    | Returned(reply: Reply)
    | Written(reply: Reply, ok: bool)
    | Marked
    | Done

  /** A wait together with its connection; `abandoned` once the server's own timer fired. */
  datatype Wait = Wait(connection: string, created: int, actionable: bool, at: Position, abandoned: bool)

  /** A submission that saw the window elapsed and still has to audit, remove and wake. */
  datatype Submitter = Finalizing | Removing | Waking

  datatype Answered = Answered(response: Response, at: int, stdout: string, expiresAt: int)

  /** All there is under one nonce. `accepted` and `written` record what was told to the
      submitter and what reached the hook. */
  datatype Slot = Slot(entry: Entry, waits: map<nat, Wait>, submitters: map<nat, Submitter>,
                       accepted: seq<Answered>, written: seq<string>)

  const EMPTY := Slot(Entry(None, None, None), map[], map[], [], [])

  datatype Step =
    | Start(w: nat, connection: string, created: int, actionable: bool)
    | Audit(w: nat, storeOk: bool)
    | Register(w: nat)
    | Insert(w: nat, timeout: nat)
    | Listen(w: nat)
    | Resume(w: nat)
    | Timeout(w: nat)
    | ExpireTake(w: nat)
    | ExpireEnd(w: nat, storeOk: bool)
    | MakeReply(w: nat)
    | CheckRetain(w: nat)
    | Clear(w: nat)
    | Unregister(w: nat)
    | ServerTimeout(w: nat)
    | ServerWrite(w: nat, writeOk: bool)
    | ServerReport(w: nat, detail: string, storeOk: bool)
    | RemoveReported(w: nat)
    | SubmitDecision(t: nat, response: Response, now: int, build: Build, storeOk: bool)
    | SubmitFinalize(t: nat, storeOk: bool)
    | SubmitRemove(t: nat)
    | SubmitWake(t: nat)

  /** Waking reaches exactly the waits that listen on the registered notification. */
  function WakeAll(waits: map<nat, Wait>, notify: Option<nat>): map<nat, Wait> {
    if notify.None? then waits else
    map w | w in waits ::
      if waits[w].at.Listening? && waits[w].at.notify == notify.value
      then waits[w].(at := waits[w].at.(woken := true)) else waits[w]
  }

  function At(s: Slot, w: nat, at: Position): Slot
    requires w in s.waits
  {
    s.(waits := s.waits[w := s.waits[w].(at := at)])
  }

  function StepWait(s: Slot, step: Step, w: nat): Slot
    requires w in s.waits
  {
    var wait := s.waits[w];
    var e := s.entry;
    match (step, wait.at)
    case (Audit(_, ok), Checked) =>
      At(s.(entry := e.(row := Stored(ok, e.row, UpsertActive(e.row)))), w, Audited)
    case (Register(_), Audited) =>
      var notify := if e.waiter.Some? then e.waiter.value else w;
      At(s.(entry := e.(waiter := Some(notify))), w, Registered(notify))
    case (Insert(_, timeout), Registered(notify)) =>
      var a := ActiveDecision(Pending, wait.connection, wait.actionable, wait.created + timeout);
      At(s.(entry := e.(active := Some(a))), w, Inserted(notify))
    case (Listen(_), Inserted(notify)) => At(s, w, Listening(notify, false))
    case (Resume(_), Listening(_, true)) => At(s, w, Resumed)
    case (Timeout(_), Listening(_, _)) => At(s, w, TimedOut)
    case (ExpireTake(_), TimedOut) =>
      var rest := s.(entry := e.(active := None));
      if e.active.None? then At(rest, w, Resumed)
      else if e.active.value.state.IsTerminal() then At(rest, w, Reinserting(e.active.value))
      else At(rest, w, Expiring)
    case (ExpireEnd(_, ok), Expiring) => At(s.(entry := FinalizeExpired(e, ok)), w, Resumed)
    case (ExpireEnd(_, _), Reinserting(a)) => At(s.(entry := e.(active := Some(a))), w, Resumed)
    case (MakeReply(_), Resumed) => At(s, w, Replied(ReplyFor(e.active)))
    case (CheckRetain(_), Replied(reply)) => At(s, w, RetainChecked(reply, Retains(e.active)))
    case (Clear(_), RetainChecked(reply, retain)) =>
      At(if retain then s else s.(entry := e.(active := None)), w, Cleared(reply))
    case (Unregister(_), Cleared(reply)) => At(s.(entry := e.(waiter := None)), w, Returned(reply))
    case (ServerWrite(_, ok), Returned(reply)) =>
      if wait.abandoned then s
      else At(if ok then s.(written := s.written + [reply.stdout]) else s, w, Written(reply, ok))
    case (ServerReport(_, detail, ok), Written(_, wrote)) =>
      var (after, marked) := if wrote then Confirm(e, ok) else Fail(e, detail, ok);
      At(s.(entry := after), w, if marked then Marked else Done)
    case (RemoveReported(_), Marked) => At(s.(entry := e.(active := None)), w, Done)
    case (ServerTimeout(_), at) =>
      if wait.abandoned || at.Written? || at.Marked? || at.Done? then s
      else s.(waits := s.waits[w := wait.(abandoned := true)], written := s.written + [NEUTRAL])
    case _ => s
  }

  function StepSubmit(s: Slot, step: Step, t: nat): Slot {
    match step
    case SubmitDecision(_, response, now, build, ok) =>
      if t in s.submitters then s else
      var (after, outcome) := Submit(s.entry, response, now, build, ok);
      (match outcome
      case SawExpiry => s.(submitters := s.submitters[t := Finalizing])
      case Refused(Adapter(_)) => s.(entry := after, waits := WakeAll(s.waits, s.entry.waiter))
      case Refused(_) => s
      case Accepted(stdout, expiresAt) =>
        s.(entry := after, waits := WakeAll(s.waits, s.entry.waiter),
           accepted := s.accepted + [Answered(response, now, stdout, expiresAt)]))
    case SubmitFinalize(_, ok) =>
      if t in s.submitters && s.submitters[t].Finalizing?
      then s.(entry := FinalizeExpired(s.entry, ok), submitters := s.submitters[t := Removing]) else s
    case SubmitRemove(_) =>
      if t in s.submitters && s.submitters[t].Removing?
      then s.(entry := s.entry.(active := None), submitters := s.submitters[t := Waking]) else s
    case SubmitWake(_) =>
      if t in s.submitters && s.submitters[t].Waking?
      then s.(entry := s.entry.(waiter := None), waits := WakeAll(s.waits, s.entry.waiter),
              submitters := s.submitters - {t}) else s
    case _ => s
  }

  function StepSlot(s: Slot, step: Step): Slot {
    if step.Start? then
      if step.w in s.waits then s else
      var at := match CheckWait(s.entry, step.connection)
                case Some(reply) => Returned(reply)
                case None => Checked;
      s.(waits := s.waits[step.w := Wait(step.connection, step.created, step.actionable, at, false)])
    else if step.SubmitDecision? || step.SubmitFinalize? || step.SubmitRemove? || step.SubmitWake? then
      StepSubmit(s, step, step.t)
    else if step.w in s.waits then StepWait(s, step, step.w)
    else s
  }

  // ---------------------------------------------------------------- invariant for nonces waited on once

  predicate NotPending(s: Slot) {
    s.entry.active.Some? ==> !s.entry.active.value.state.Pending?
  }

  predicate NoAnswer(s: Slot) {
    s.accepted == [] && (s.entry.row.Some? ==> s.entry.row.value.response.None?)
  }

  /** A reply computed for the hook, before and after it is written. */
  predicate ReplyHonest(s: Slot, reply: Reply) {
    && NotPending(s)
    && (if reply.stdout == NEUTRAL
        then s.entry.active.Some? ==> !s.entry.active.value.state.Chosen? && !s.entry.active.value.state.Delivered?
        else |s.accepted| == 1 && s.accepted[0].stdout == reply.stdout)
  }

  /** The hook was sent nothing, the neutral output, or the accepted one. */
  predicate OneOutput(s: Slot) {
    s.written == [] || s.written == [NEUTRAL] || (|s.accepted| == 1 && s.written == [s.accepted[0].stdout])
  }

  predicate SaysDelivered(s: Slot) { s.entry.row.Some? && s.entry.row.value.state.WireDelivered? }

  predicate BeforeInsert(at: Position) { at.Checked? || at.Audited? || at.Registered? }

  predicate WaitOk(s: Slot, wait: Wait) {
    && (match wait.at
        case Checked => s.entry.active.None? && NoAnswer(s)
        case Audited => s.entry.active.None? && NoAnswer(s)
        case Registered(_) => s.entry.active.None? && NoAnswer(s)
        case Inserted(_) => true
        case Listening(_, woken) => woken ==> NotPending(s)
        case TimedOut => true
        case Expiring => s.entry.active.None?
        case Reinserting(a) => s.entry.active.None? && (a.state.Failed? || a.state.Expired?) && !SaysDelivered(s)
        case Resumed => NotPending(s)
        case Replied(r) => ReplyHonest(s, r)
        case RetainChecked(r, _) => ReplyHonest(s, r)
        case Cleared(r) => ReplyHonest(s, r)
        case Returned(r) => ReplyHonest(s, r)
        case Written(r, _) => ReplyHonest(s, r)
        case Marked => NotPending(s) && !Retains(s.entry.active)
        case Done => NotPending(s) && !Retains(s.entry.active))
    && (match wait.at
        case Written(r, ok) => !wait.abandoned && s.written == (if ok then [r.stdout] else [])
        case Marked => !wait.abandoned && OneOutput(s)
        case Done => !wait.abandoned && OneOutput(s)
        case _ => s.written == (if wait.abandoned then [NEUTRAL] else []))
    && (BeforeInsert(wait.at) ==> s.submitters == map[])
  }

  predicate StateOk(s: Slot) {
    match s.entry.active
    case None => true
    case Some(a) =>
      match a.state
      case Pending => NoAnswer(s)
      case Chosen(r, now, out) => s.accepted == [Answered(r, now, out, a.expiresAt)] && !SaysDelivered(s)
      case Delivered(out, _) => |s.accepted| == 1 && s.accepted[0].stdout == out && s.written == [out]
      case _ => !SaysDelivered(s)
  }

  predicate AuditOk(s: Slot) {
    && |s.accepted| <= 1
    && (forall a :: a in s.accepted ==> a.stdout != NEUTRAL && a.at < a.expiresAt)
    && (s.entry.row.Some? && s.entry.row.value.state.WireDelivered? ==>
          |s.accepted| == 1 && s.written == [s.accepted[0].stdout])
    && (s.accepted != [] && s.entry.row.Some? && s.entry.row.value.response.Some? ==>
          s.entry.row.value.response.value == s.accepted[0].response)
  }

  predicate LiveOk(s: Slot, w: nat) {
    && s.waits.Keys == {w}
    && WaitOk(s, s.waits[w])
    && (forall t :: t in s.submitters && s.submitters[t].Waking? ==> NotPending(s))
    && StateOk(s)
    && AuditOk(s)
  }

  ghost predicate SlotOk(s: Slot) {
    s == EMPTY || exists w :: LiveOk(s, w)
  }

  /** The hook mints a new nonce for each wait. */
  predicate Fresh(s: Slot, step: Step) {
    step.Start? ==> s.waits == map[]
  }

  lemma RegistrationKeeps(s: Slot, step: Step, w: nat)
    requires LiveOk(s, w) && (step.Audit? || step.Register? || step.Insert? || step.Listen?)
    ensures LiveOk(StepWait(s, step, w), w)
  {
  }

  lemma WakingUpKeeps(s: Slot, step: Step, w: nat)
    requires LiveOk(s, w) && (step.Resume? || step.Timeout?)
    ensures LiveOk(StepWait(s, step, w), w)
  {
  }

  lemma TakingKeeps(s: Slot, step: Step, w: nat)
    requires LiveOk(s, w) && step.ExpireTake?
    ensures LiveOk(StepWait(s, step, w), w)
  {
  }

  lemma ExpiringKeeps(s: Slot, step: Step, w: nat)
    requires LiveOk(s, w) && step.ExpireEnd?
    ensures LiveOk(StepWait(s, step, w), w)
  {
  }

  lemma ReplyingKeeps(s: Slot, step: Step, w: nat)
    requires LiveOk(s, w) && (step.MakeReply? || step.CheckRetain?)
    ensures LiveOk(StepWait(s, step, w), w)
  {
  }

  lemma ClearingKeeps(s: Slot, step: Step, w: nat)
    requires LiveOk(s, w) && (step.Clear? || step.Unregister?)
    ensures LiveOk(StepWait(s, step, w), w)
  {
  }

  lemma TransportKeeps(s: Slot, step: Step, w: nat)
    requires LiveOk(s, w) && (step.ServerTimeout? || step.ServerWrite? || step.RemoveReported?)
    ensures LiveOk(StepWait(s, step, w), w)
  {
  }

  lemma ReportingKeeps(s: Slot, step: Step, w: nat)
    requires LiveOk(s, w) && step.ServerReport?
    ensures LiveOk(StepWait(s, step, w), w)
  {
  }

  predicate Accepts(s: Slot, step: Step)
    requires step.SubmitDecision?
  {
    Submit(s.entry, step.response, step.now, step.build, step.storeOk).1.Accepted?
  }

  lemma AcceptingKeeps(s: Slot, step: Step, w: nat)
    requires LiveOk(s, w) && step.SubmitDecision? && Accepts(s, step)
    ensures LiveOk(StepSubmit(s, step, step.t), w)
  {
  }

  lemma RefusingKeeps(s: Slot, step: Step, w: nat)
    requires LiveOk(s, w) && step.SubmitDecision? && !Accepts(s, step)
    ensures LiveOk(StepSubmit(s, step, step.t), w)
  {
  }

  lemma SubmittingKeeps(s: Slot, step: Step, w: nat)
    requires LiveOk(s, w) && step.SubmitDecision?
    ensures LiveOk(StepSubmit(s, step, step.t), w)
  {
    if Accepts(s, step) { AcceptingKeeps(s, step, w); } else { RefusingKeeps(s, step, w); }
  }

  lemma ElapsedSubmitKeeps(s: Slot, step: Step, w: nat)
    requires LiveOk(s, w) && (step.SubmitFinalize? || step.SubmitRemove? || step.SubmitWake?)
    ensures LiveOk(StepSubmit(s, step, step.t), w)
  {
  }

  predicate SubmitStep(step: Step) {
    step.SubmitDecision? || step.SubmitFinalize? || step.SubmitRemove? || step.SubmitWake?
  }

  lemma StepKeepsSlotOk(s: Slot, step: Step)
    requires SlotOk(s) && Fresh(s, step)
    ensures SlotOk(StepSlot(s, step))
  {
    var after := StepSlot(s, step);
    if s == EMPTY {
      if step.Start? { assert LiveOk(after, step.w); }
    } else {
      var w :| LiveOk(s, w);
      assert !step.Start?;
      if SubmitStep(step) {
        if step.SubmitDecision? { SubmittingKeeps(s, step, w); } else { ElapsedSubmitKeeps(s, step, w); }
      } else if step.w in s.waits {
        if step.Audit? || step.Register? || step.Insert? || step.Listen? { RegistrationKeeps(s, step, w); }
        else if step.Resume? || step.Timeout? { WakingUpKeeps(s, step, w); }
        else if step.ExpireTake? { TakingKeeps(s, step, w); }
        else if step.ExpireEnd? { ExpiringKeeps(s, step, w); }
        else if step.MakeReply? || step.CheckRetain? { ReplyingKeeps(s, step, w); }
        else if step.Clear? || step.Unregister? { ClearingKeeps(s, step, w); }
        else if step.ServerReport? { ReportingKeeps(s, step, w); }
        else { TransportKeeps(s, step, w); }
      }
      assert LiveOk(after, w);
    }
  }

  ghost predicate Audits(s: Slot, r: Response) {
    s.entry.row.Some? && s.entry.row.value.response == Some(r)
  }

  lemma StepKeepsResponse(s: Slot, step: Step, r: Response)
    requires SlotOk(s) && Fresh(s, step) && Audits(s, r)
    ensures Audits(StepSlot(s, step), r)
  {
    var w :| LiveOk(s, w);
    if SubmitStep(step) {
      SubmitKeepsResponse(s, step, r);
    } else if !step.Start? && step.w in s.waits {
      WaitKeepsResponse(s, step, step.w, r);
    }
  }

  lemma SubmitKeepsResponse(s: Slot, step: Step, r: Response)
    requires StateOk(s) && SubmitStep(step) && Audits(s, r)
    ensures Audits(StepSubmit(s, step, step.t), r)
  {
  }

  lemma WaitKeepsResponse(s: Slot, step: Step, w: nat, r: Response)
    requires w in s.waits && Audits(s, r)
    ensures Audits(StepWait(s, step, w), r)
  {
  }

  // ---------------------------------------------------------------- whole runs

  type Run = seq<(string, Step)>

  function SlotIn(world: map<string, Slot>, nonce: string): Slot {
    if nonce in world then world[nonce] else EMPTY
  }

  /** The broker after a run: each step acts on the nonce it names. */
  function After(run: Run): map<string, Slot> {
    if run == [] then map[] else
      var before := After(run[..|run| - 1]);
      var (nonce, step) := run[|run| - 1];
      before[nonce := StepSlot(SlotIn(before, nonce), step)]
  }

  predicate Starts(run: Run, i: nat, nonce: string) {
    i < |run| && run[i].0 == nonce && run[i].1.Start?
  }

  /** No nonce is waited on twice. */
  ghost predicate SingleUse(run: Run) {
    forall i, j, nonce :: Starts(run, i, nonce) && Starts(run, j, nonce) ==> i == j
  }

  lemma SingleUsePrefix(run: Run, k: nat)
    requires SingleUse(run) && k <= |run|
    ensures SingleUse(run[..k])
  {
    forall i, j, nonce | Starts(run[..k], i, nonce) && Starts(run[..k], j, nonce) ensures i == j {
      assert Starts(run, i, nonce) && Starts(run, j, nonce);
    }
  }

  lemma {:induction false} NoStartNoWaits(run: Run, nonce: string)
    requires forall i :: !Starts(run, i, nonce)
    ensures SlotIn(After(run), nonce).waits == map[]
  {
    if run != [] {
      var init := run[..|run| - 1];
      forall i ensures !Starts(init, i, nonce) {
        assert !Starts(run, i, nonce);
      }
      NoStartNoWaits(init, nonce);
      assert !Starts(run, |run| - 1, nonce);
    }
  }

  lemma LastStepFresh(run: Run)
    requires run != [] && SingleUse(run)
    ensures var (nonce, step) := run[|run| - 1];
            Fresh(SlotIn(After(run[..|run| - 1]), nonce), step)
  {
    var init := run[..|run| - 1];
    var (nonce, step) := run[|run| - 1];
    if step.Start? {
      assert Starts(run, |run| - 1, nonce);
      forall i ensures !Starts(init, i, nonce) {
        if Starts(init, i, nonce) { assert Starts(run, i, nonce); }
      }
      NoStartNoWaits(init, nonce);
    }
  }

  lemma {:induction false} RunKeepsSlotOk(run: Run, nonce: string)
    requires SingleUse(run)
    ensures SlotOk(SlotIn(After(run), nonce))
  {
    if run != [] {
      var init := run[..|run| - 1];
      SingleUsePrefix(run, |run| - 1);
      RunKeepsSlotOk(init, nonce);
      if run[|run| - 1].0 == nonce {
        LastStepFresh(run);
        StepKeepsSlotOk(SlotIn(After(init), nonce), run[|run| - 1].1);
      }
    }
  }

  /** Honest delivery: a row says Delivered only when exactly one submission was accepted, its
      output is not the neutral one, and that output is all the hook was ever sent. */
  lemma HonestDelivery(run: Run, nonce: string)
    requires SingleUse(run)
    ensures var s := SlotIn(After(run), nonce);
            s.entry.row.Some? && s.entry.row.value.state.WireDelivered? ==>
              |s.accepted| == 1 && s.accepted[0].stdout != NEUTRAL && s.written == [s.accepted[0].stdout]
    ensures var s := SlotIn(After(run), nonce);
            NEUTRAL in s.written ==> !(s.entry.row.Some? && s.entry.row.value.state.WireDelivered?)
  {
    RunKeepsSlotOk(run, nonce);
    var s := SlotIn(After(run), nonce);
    if s != EMPTY { var w :| LiveOk(s, w); }
  }

  /** What a hook receives is the neutral output or the one accepted answer, at most once. */
  lemma HookSeesOneOutput(run: Run, nonce: string)
    requires SingleUse(run)
    ensures OneOutput(SlotIn(After(run), nonce))
  {
    RunKeepsSlotOk(run, nonce);
    var s := SlotIn(After(run), nonce);
    if s != EMPTY { var w :| LiveOk(s, w); }
  }

  /** Single answer: at most one submission succeeds, before its window closed, and the audited
      response is the accepted one. */
  lemma SingleAnswer(run: Run, nonce: string)
    requires SingleUse(run)
    ensures var s := SlotIn(After(run), nonce);
            && |s.accepted| <= 1
            && (forall a :: a in s.accepted ==> a.at < a.expiresAt)
            && (forall a, r :: a in s.accepted && Audits(s, r) ==> r == a.response)
  {
    RunKeepsSlotOk(run, nonce);
    var s := SlotIn(After(run), nonce);
    if s != EMPTY { var w :| LiveOk(s, w); }
  }

  /** The audited response survives every later confirm, fail, expiry or submission. */
  lemma {:induction false} ResponseNeverChanges(run: Run, more: Run, nonce: string, r: Response)
    requires SingleUse(run + more) && Audits(SlotIn(After(run), nonce), r)
    ensures Audits(SlotIn(After(run + more), nonce), r)
    decreases |more|
  {
    if more == [] {
      assert run + more == run;
    } else {
      var all := run + more;
      var init := more[..|more| - 1];
      assert all[..|all| - 1] == run + init;
      SingleUsePrefix(all, |all| - 1);
      ResponseNeverChanges(run, init, nonce, r);
      if all[|all| - 1].0 == nonce {
        LastStepFresh(all);
        RunKeepsSlotOk(run + init, nonce);
        StepKeepsResponse(SlotIn(After(run + init), nonce), all[|all| - 1].1, r);
      }
    }
  }
}
