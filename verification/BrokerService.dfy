/** The broker and the server around it as objects: one method per lock-held region, and the steps of
    every task that passes through them. */
module BrokerService {
  import opened Options
  import opened Broker
  import opened BrokerRuns

  class DecisionBroker {
    var active: map<string, ActiveDecision>
    var waiters: map<string, nat>
    var rows: map<string, Row>

    ghost function EntryOf(nonce: string): Entry
      reads this
    {
      Entry(if nonce in active then Some(active[nonce]) else None,
            if nonce in waiters then Some(waiters[nonce]) else None,
            if nonce in rows then Some(rows[nonce]) else None)
    }

    /** Nothing kept under any other nonce changed. */
    twostate predicate OthersKept(nonce: string)
      reads this
    {
      forall m :: m != nonce ==> EntryOf(m) == old(EntryOf(m))
    }

    constructor ()
      ensures forall n :: EntryOf(n) == Entry(None, None, None)
    {
      active, waiters, rows := map[], map[], map[];
    }

    method UpdateRow(nonce: string, state: WireState, response: Option<Response>, respondedAt: Option<int>,
                     detail: Option<string>, storeOk: bool)
      modifies `rows
      ensures EntryOf(nonce) == old(EntryOf(nonce)).(row :=
                Stored(storeOk, old(EntryOf(nonce)).row,
                       UpdateDelivery(old(EntryOf(nonce)).row, state, response, respondedAt, detail)))
      ensures OthersKept(nonce)
    {
      if storeOk && nonce in rows {
        var r := rows[nonce];
        rows := rows[nonce := Row(state, Coalesce(response, r.response), Coalesce(respondedAt, r.respondedAt),
                                  Coalesce(detail, r.detail))];
      }
    }

    /** A wait goes on unless its nonce is another connection's or already settled; only a delivered
        answer of its own connection is ever repeated, everything else is answered neutrally. */
    method CheckExisting(nonce: string, connection: string) returns (early: Option<Reply>)
      ensures early == CheckWait(EntryOf(nonce), connection)
      ensures early.None? <==>
                nonce !in active || (active[nonce].connection == connection && !active[nonce].state.IsTerminal())
      ensures early.Some? && early.value.stdout != NEUTRAL ==>
                nonce in active && active[nonce].connection == connection && active[nonce].state.Delivered?
                && early.value == Reply(active[nonce].state.stdout, WireDelivered)
    {
      early := None;
      if nonce in active {
        var a := active[nonce];
        if a.connection != connection {
          early := Some(NeutralReply(WireFailed));
        } else if a.state.IsTerminal() {
          early := Some(if a.state.Delivered? then Reply(a.state.stdout, WireDelivered)
                        else NeutralReply(a.state.Wire()));
        }
      }
    }

    method AuditWait(nonce: string, storeOk: bool)
      modifies `rows
      ensures EntryOf(nonce) == old(EntryOf(nonce)).(row :=
                Stored(storeOk, old(EntryOf(nonce)).row, UpsertActive(old(EntryOf(nonce)).row)))
      ensures storeOk ==> nonce in rows
      ensures storeOk && nonce in old(rows) ==> rows[nonce] == old(rows)[nonce].(state := WirePending)
      ensures storeOk && nonce !in old(rows) ==> rows[nonce] == Row(WirePending, None, None, None)
      ensures OthersKept(nonce)
    {
      if storeOk {
        var row := if nonce in rows then rows[nonce].(state := WirePending) else Row(WirePending, None, None, None);
        rows := rows[nonce := row];
      }
    }

    method RegisterWaiter(nonce: string, own: nat) returns (notify: nat)
      modifies `waiters
      ensures notify == (if old(EntryOf(nonce)).waiter.Some? then old(EntryOf(nonce)).waiter.value else own)
      ensures EntryOf(nonce) == old(EntryOf(nonce)).(waiter := Some(notify))
      ensures OthersKept(nonce)
    {
      if nonce !in waiters { waiters := waiters[nonce := own]; }
      notify := waiters[nonce];
    }

    method SetActive(nonce: string, a: Option<ActiveDecision>)
      modifies `active
      ensures EntryOf(nonce) == old(EntryOf(nonce)).(active := a)
      ensures OthersKept(nonce)
    {
      active := if a.Some? then active[nonce := a.value] else active - {nonce};
    }

    method Unregister(nonce: string) returns (notify: Option<nat>)
      modifies `waiters
      ensures notify == old(EntryOf(nonce)).waiter
      ensures EntryOf(nonce) == old(EntryOf(nonce)).(waiter := None)
      ensures OthersKept(nonce)
    {
      notify := if nonce in waiters then Some(waiters[nonce]) else None;
      waiters := waiters - {nonce};
    }

    method MakeReply(nonce: string) returns (reply: Reply, retain: bool)
      ensures reply == ReplyFor(EntryOf(nonce).active) && retain == Retains(EntryOf(nonce).active)
    {
      reply := ReplyFor(if nonce in active then Some(active[nonce]) else None);
      retain := nonce in active && active[nonce].state.Chosen?;
    }

    method Settled(nonce: string, state: Delivery, response: Option<Response>, at: Option<int>, detail: Option<string>,
                   storeOk: bool)
      returns (woken: Option<nat>)
      requires nonce in active
      modifies this
      ensures woken == old(EntryOf(nonce)).waiter
      ensures EntryOf(nonce) == Settle(old(EntryOf(nonce)), old(active[nonce]), state, response, at, detail, storeOk)
      ensures OthersKept(nonce)
    {
      SetActive(nonce, Some(active[nonce].(state := state)));
      UpdateRow(nonce, state.Wire(), response, at, detail, storeOk);
      woken := Unregister(nonce);
    }

    /** A yes or no to a pending, actionable decision whose window is open. */
    predicate Answerable(nonce: string, response: Response, now: int)
      reads this
    {
      && (response == Action(Allow) || response == Action(Deny))
      && nonce in active && active[nonce].state.Pending? && active[nonce].actionable && now < active[nonce].expiresAt
    }

    /** submit_decision up to where it releases the lock; `woken` is the waiter to wake. An answer the adapter
        can express is accepted, chosen and audited; one it cannot is refused and audited as failed; anything
        else changes nothing. */
    method SubmitDecision(nonce: string, response: Response, now: int, build: Build, storeOk: bool)
      returns (outcome: SubmitOutcome, woken: Option<nat>)
      modifies this
      ensures (EntryOf(nonce), outcome) == Submit(old(EntryOf(nonce)), response, now, build, storeOk)
      ensures woken == if EntryOf(nonce) == old(EntryOf(nonce)) then None else old(EntryOf(nonce)).waiter
      ensures outcome.Accepted? <==>
                old(Answerable(nonce, response, now)) && build.Built? && build.stdout != NEUTRAL
      ensures outcome.Accepted? ==>
                && outcome == Accepted(build.stdout, old(active)[nonce].expiresAt) && nonce in active
                && active[nonce] == old(active)[nonce].(state := Chosen(response, now, build.stdout))
      ensures outcome.Accepted? && storeOk && nonce in old(rows) ==>
                && nonce in rows && rows[nonce] ==
                     old(rows)[nonce].(state := WirePending, response := Some(response), respondedAt := Some(now))
      ensures (outcome.Refused? && outcome.error.Adapter?) <==>
                old(Answerable(nonce, response, now)) && !(build.Built? && build.stdout != NEUTRAL)
      ensures outcome.Refused? && outcome.error.Adapter? ==>
                nonce in active && active[nonce] == old(active)[nonce].(state := Failed(outcome.error.message))
      ensures outcome.Refused? && outcome.error.Adapter? && storeOk && nonce in old(rows) ==>
                && nonce in rows && rows[nonce] ==
                     Row(WireFailed, if build.BuildFailed? then old(rows)[nonce].response else Some(response),
                         Some(now), Some(outcome.error.message))
      ensures !(storeOk && nonce in old(rows)) ==> EntryOf(nonce).row == old(EntryOf(nonce)).row
      ensures !old(Answerable(nonce, response, now)) ==> EntryOf(nonce) == old(EntryOf(nonce))
      ensures outcome == Refused(InvalidResponse) <==> response != Action(Allow) && response != Action(Deny)
      ensures outcome == Refused(NotFound) <==> ValidResponse(response) && nonce !in old(active)
      ensures outcome == Refused(AlreadyFinalized) <==>
                ValidResponse(response) && nonce in old(active) && !old(active)[nonce].state.Pending?
      ensures outcome.SawExpiry? <==>
                && ValidResponse(response) && nonce in old(active)
                && old(active)[nonce].state.Pending? && now >= old(active)[nonce].expiresAt
      ensures OthersKept(nonce)
    {
      woken := None;
      if !ValidResponse(response) { return Refused(InvalidResponse), None; }
      if nonce !in active { return Refused(NotFound), None; }
      var a := active[nonce];
      if !a.state.Pending? { return Refused(AlreadyFinalized), None; }
      if now >= a.expiresAt { return SawExpiry, None; }
      if !a.actionable { return Refused(NotActionable), None; }
      match build {
        case CapabilityDisabled =>
          woken := Settled(nonce, Failed(DISABLED), Some(response), Some(now), Some(DISABLED), storeOk);
          outcome := Refused(Adapter(DISABLED));
        case BuildFailed(message) =>
          woken := Settled(nonce, Failed(message), None, Some(now), Some(message), storeOk);
          outcome := Refused(Adapter(message));
        case Built(stdout) =>
          if stdout == NEUTRAL {
            woken := Settled(nonce, Failed(NEUTRAL_DETAIL), Some(response), Some(now), Some(NEUTRAL_DETAIL), storeOk);
            outcome := Refused(Adapter(NEUTRAL_DETAIL));
          } else {
            woken := Settled(nonce, Chosen(response, now, stdout), Some(response), Some(now), None, storeOk);
            outcome := Accepted(stdout, a.expiresAt);
          }
      }
    }

    method Finalize(nonce: string, storeOk: bool)
      modifies `rows
      ensures EntryOf(nonce) == FinalizeExpired(old(EntryOf(nonce)), storeOk)
      ensures storeOk && nonce in old(rows) ==>
                && nonce in rows
                && rows[nonce] == old(rows)[nonce].(state := WireExpired, detail := Some("decision window elapsed"))
      ensures OthersKept(nonce)
    {
      UpdateRow(nonce, WireExpired, None, None, Some(WINDOW_ELAPSED), storeOk);
    }

    /** First region of a confirmation: only a chosen decision is marked. */
    method MarkDelivered(nonce: string, storeOk: bool) returns (marked: bool)
      modifies this
      ensures (EntryOf(nonce), marked) == Confirm(old(EntryOf(nonce)), storeOk)
      ensures OthersKept(nonce)
    {
      marked := nonce in active && active[nonce].state.Chosen?;
      if marked {
        var a := active[nonce];
        SetActive(nonce, Some(a.(state := Delivered(a.state.stdout, a.state.respondedAt))));
        UpdateRow(nonce, WireDelivered, None, None, None, storeOk);
      }
    }

    /** First region of a failure report: only a chosen decision is marked. */
    method MarkFailed(nonce: string, detail: string, storeOk: bool) returns (marked: bool)
      modifies this
      ensures (EntryOf(nonce), marked) == Fail(old(EntryOf(nonce)), detail, storeOk)
      ensures OthersKept(nonce)
    {
      marked := nonce in active && active[nonce].state.Chosen?;
      if marked {
        SetActive(nonce, Some(active[nonce].(state := Failed(detail))));
        UpdateRow(nonce, WireFailed, None, None, Some(detail), storeOk);
      }
    }

    /** Both regions in a row: a chosen decision is recorded as delivered, keeps its audited response
        and leaves the broker; anything else is refused and changes nothing. */
    method ConfirmDelivery(nonce: string, storeOk: bool) returns (marked: bool)
      modifies this
      ensures marked <==> nonce in old(active) && old(active)[nonce].state.Chosen?
      ensures !marked ==> EntryOf(nonce) == old(EntryOf(nonce))
      ensures marked ==> nonce !in active && EntryOf(nonce).waiter == old(EntryOf(nonce)).waiter
      ensures marked && storeOk && nonce in old(rows) ==>
                nonce in rows && rows[nonce] == old(rows)[nonce].(state := WireDelivered)
      ensures marked && !(storeOk && nonce in old(rows)) ==> EntryOf(nonce).row == old(EntryOf(nonce)).row
      ensures OthersKept(nonce)
    {
      marked := MarkDelivered(nonce, storeOk);
      if marked { SetActive(nonce, None); }
    }

    /** Both regions in a row: a chosen decision is recorded as failed with its detail, keeps its audited
        response and leaves the broker; anything else is refused and changes nothing. */
    method FailDelivery(nonce: string, detail: string, storeOk: bool) returns (marked: bool)
      modifies this
      ensures marked <==> nonce in old(active) && old(active)[nonce].state.Chosen?
      ensures !marked ==> EntryOf(nonce) == old(EntryOf(nonce))
      ensures marked ==> nonce !in active && EntryOf(nonce).waiter == old(EntryOf(nonce)).waiter
      ensures marked && storeOk && nonce in old(rows) ==>
                nonce in rows && rows[nonce] == old(rows)[nonce].(state := WireFailed, detail := Some(detail))
      ensures marked && !(storeOk && nonce in old(rows)) ==> EntryOf(nonce).row == old(EntryOf(nonce)).row
      ensures OthersKept(nonce)
    {
      marked := MarkFailed(nonce, detail, storeOk);
      if marked { SetActive(nonce, None); }
    }
  }
  /** The tasks under one nonce: waits with their connections, late submitters, and what was told and sent. */
  datatype Tasks = Tasks(waits: map<nat, Wait>, submitters: map<nat, Submitter>, accepted: seq<Answered>,
                         written: seq<string>)

  /** A submission changes the entry exactly when it wakes, and what it records follows its outcome. */
  lemma SubmitMoves(s: Slot, step: Step)
    requires step.SubmitDecision? && step.t !in s.submitters
    ensures var (after, outcome) := Submit(s.entry, step.response, step.now, step.build, step.storeOk);
            var woken := if after == s.entry then None else s.entry.waiter;
            StepSubmit(s, step, step.t) == Slot(after,
              if outcome.Accepted? || (outcome.Refused? && outcome.error.Adapter?)
              then WakeAll(s.waits, woken) else s.waits,
              if outcome.SawExpiry? then s.submitters[step.t := Finalizing] else s.submitters,
              if outcome.Accepted?
              then s.accepted + [Answered(step.response, step.now, outcome.stdout, outcome.expiresAt)] else s.accepted,
              s.written)
  {
  }

  /** The broker with the tasks that use it. Each method runs one task from one lock-held region to the
      end of the next; a step that is not the task's next one does nothing. */
  class DecisionServer {
    const broker: DecisionBroker
    var tasks: map<string, Tasks>

    constructor ()
      ensures fresh(broker) && forall n :: SlotOf(n) == EMPTY
    {
      broker := new DecisionBroker();
      tasks := map[];
    }

    function TasksOf(nonce: string): Tasks
      reads this
    {
      if nonce in tasks then tasks[nonce] else Tasks(map[], map[], [], [])
    }

    ghost function SlotOf(nonce: string): Slot
      reads this, broker
    {
      var t := TasksOf(nonce);
      Slot(broker.EntryOf(nonce), t.waits, t.submitters, t.accepted, t.written)
    }

    twostate predicate OthersKept(nonce: string)
      reads this, broker
    {
      forall m :: m != nonce ==> SlotOf(m) == old(SlotOf(m))
    }

    method SetTasks(nonce: string, t: Tasks)
      modifies this
      ensures TasksOf(nonce) == t && forall m :: m != nonce ==> TasksOf(m) == old(TasksOf(m))
    {
      tasks := tasks[nonce := t];
    }

    method MoveTo(nonce: string, w: nat, at: Position)
      requires w in TasksOf(nonce).waits
      modifies this
      ensures SlotOf(nonce) == At(old(SlotOf(nonce)), w, at) && OthersKept(nonce)
    {
      var t := TasksOf(nonce);
      SetTasks(nonce, t.(waits := t.waits[w := t.waits[w].(at := at)]));
    }

    method StartWait(nonce: string, step: Step)
      requires step.Start?
      modifies this
      ensures SlotOf(nonce) == StepSlot(old(SlotOf(nonce)), step) && OthersKept(nonce)
    {
      var t := TasksOf(nonce);
      if step.w in t.waits { return; }
      var early := broker.CheckExisting(nonce, step.connection);
      var at := if early.Some? then Returned(early.value) else Checked;
      var wait := Wait(step.connection, step.created, step.actionable, at, false);
      SetTasks(nonce, t.(waits := t.waits[step.w := wait]));
    }

    /** Audit, registration and insertion of a wait that goes on. */
    method RegisterWait(nonce: string, step: Step)
      requires (step.Audit? || step.Register? || step.Insert?) && step.w in TasksOf(nonce).waits
      modifies this, broker
      ensures SlotOf(nonce) == StepWait(old(SlotOf(nonce)), step, step.w) && OthersKept(nonce)
    {
      var w := step.w;
      var wait := TasksOf(nonce).waits[w];
      if step.Audit? && wait.at.Checked? {
        broker.AuditWait(nonce, step.storeOk);
        MoveTo(nonce, w, Audited);
      } else if step.Register? && wait.at.Audited? {
        var notify := broker.RegisterWaiter(nonce, w);
        MoveTo(nonce, w, Registered(notify));
      } else if step.Insert? && wait.at.Registered? {
        var a := ActiveDecision(Pending, wait.connection, wait.actionable, wait.created + step.timeout);
        broker.SetActive(nonce, Some(a));
        MoveTo(nonce, w, Inserted(wait.at.notify));
      }
    }

    /** Listening, waking up and timing out touch the task only. */
    method AwaitAnswer(nonce: string, step: Step)
      requires (step.Listen? || step.Resume? || step.Timeout?) && step.w in TasksOf(nonce).waits
      modifies this
      ensures SlotOf(nonce) == StepWait(old(SlotOf(nonce)), step, step.w) && OthersKept(nonce)
    {
      var at := TasksOf(nonce).waits[step.w].at;
      if step.Listen? && at.Inserted? {
        MoveTo(nonce, step.w, Listening(at.notify, false));
      } else if step.Resume? && at.Listening? && at.woken {
        MoveTo(nonce, step.w, Resumed);
      } else if step.Timeout? && at.Listening? {
        MoveTo(nonce, step.w, TimedOut);
      }
    }

    /** The timed-out decision is taken out. */
    method TakeExpired(nonce: string, step: Step)
      requires step.ExpireTake? && step.w in TasksOf(nonce).waits
      modifies this, broker
      ensures SlotOf(nonce) == StepWait(old(SlotOf(nonce)), step, step.w) && OthersKept(nonce)
    {
      if !TasksOf(nonce).waits[step.w].at.TimedOut? { return; }
      var next := Resumed;
      if nonce in broker.active {
        var a := broker.active[nonce];
        next := if a.state.IsTerminal() then Reinserting(a) else Expiring;
      }
      broker.SetActive(nonce, None);
      MoveTo(nonce, step.w, next);
    }

    /** It is audited as expired, or put back if it was settled meanwhile. */
    method EndExpiry(nonce: string, step: Step)
      requires step.ExpireEnd? && step.w in TasksOf(nonce).waits
      modifies this, broker
      ensures SlotOf(nonce) == StepWait(old(SlotOf(nonce)), step, step.w) && OthersKept(nonce)
    {
      var at := TasksOf(nonce).waits[step.w].at;
      if at.Expiring? {
        broker.Finalize(nonce, step.storeOk);
        MoveTo(nonce, step.w, Resumed);
      } else if at.Reinserting? {
        broker.SetActive(nonce, Some(at.taken));
        MoveTo(nonce, step.w, Resumed);
      }
    }

    /** The reply is read, and whether the decision is kept. */
    method ReadReply(nonce: string, step: Step)
      requires (step.MakeReply? || step.CheckRetain?) && step.w in TasksOf(nonce).waits
      modifies this
      ensures SlotOf(nonce) == StepWait(old(SlotOf(nonce)), step, step.w) && OthersKept(nonce)
    {
      var at := TasksOf(nonce).waits[step.w].at;
      var reply, retain := broker.MakeReply(nonce);
      if step.MakeReply? && at.Resumed? {
        MoveTo(nonce, step.w, Replied(reply));
      } else if step.CheckRetain? && at.Replied? {
        MoveTo(nonce, step.w, RetainChecked(at.reply, retain));
      }
    }

    /** A decision that is not chosen is dropped. */
    method ClearWait(nonce: string, step: Step)
      requires step.Clear? && step.w in TasksOf(nonce).waits
      modifies this, broker
      ensures SlotOf(nonce) == StepWait(old(SlotOf(nonce)), step, step.w) && OthersKept(nonce)
    {
      var at := TasksOf(nonce).waits[step.w].at;
      if at.RetainChecked? {
        if !at.retain { broker.SetActive(nonce, None); }
        MoveTo(nonce, step.w, Cleared(at.reply));
      }
    }

    /** Last the waiter is dropped and the reply returned. */
    method FinishWait(nonce: string, step: Step)
      requires step.Unregister? && step.w in TasksOf(nonce).waits
      modifies this, broker
      ensures SlotOf(nonce) == StepWait(old(SlotOf(nonce)), step, step.w) && OthersKept(nonce)
    {
      var at := TasksOf(nonce).waits[step.w].at;
      if at.Cleared? {
        var _ := broker.Unregister(nonce);
        MoveTo(nonce, step.w, Returned(at.reply));
      }
    }

    /** The server's timer and its write of the reply. */
    method WriteReply(nonce: string, step: Step)
      requires (step.ServerTimeout? || step.ServerWrite?) && step.w in TasksOf(nonce).waits
      modifies this
      ensures SlotOf(nonce) == StepWait(old(SlotOf(nonce)), step, step.w) && OthersKept(nonce)
    {
      var t := TasksOf(nonce);
      var wait := t.waits[step.w];
      if step.ServerTimeout? {
        if wait.abandoned || wait.at.Written? || wait.at.Marked? || wait.at.Done? { return; }
        SetTasks(nonce, t.(waits := t.waits[step.w := wait.(abandoned := true)], written := t.written + [NEUTRAL]));
      } else if wait.at.Returned? && !wait.abandoned {
        if step.writeOk { SetTasks(nonce, t.(written := t.written + [wait.at.reply.stdout])); }
        MoveTo(nonce, step.w, Written(wait.at.reply, step.writeOk));
      }
    }

    /** After the write the delivery is confirmed or failed. */
    method ReportDelivery(nonce: string, step: Step)
      requires step.ServerReport? && step.w in TasksOf(nonce).waits
      modifies this, broker
      ensures SlotOf(nonce) == StepWait(old(SlotOf(nonce)), step, step.w) && OthersKept(nonce)
    {
      var at := TasksOf(nonce).waits[step.w].at;
      if !at.Written? { return; }
      var marked;
      if at.ok {
        marked := broker.MarkDelivered(nonce, step.storeOk);
      } else {
        marked := broker.MarkFailed(nonce, step.detail, step.storeOk);
      }
      MoveTo(nonce, step.w, if marked then Marked else Done);
    }

    /** The marked entry leaves the broker in a region of its own. */
    method RemoveMarked(nonce: string, step: Step)
      requires step.RemoveReported? && step.w in TasksOf(nonce).waits
      modifies this, broker
      ensures SlotOf(nonce) == StepWait(old(SlotOf(nonce)), step, step.w) && OthersKept(nonce)
    {
      if TasksOf(nonce).waits[step.w].at.Marked? {
        broker.SetActive(nonce, None);
        MoveTo(nonce, step.w, Done);
      }
    }

    /** A submission: refused, settled with its waiter woken, or left to finish an elapsed window. */
    method SubmitAnswer(nonce: string, step: Step)
      requires step.SubmitDecision?
      modifies this, broker
      ensures SlotOf(nonce) == StepSubmit(old(SlotOf(nonce)), step, step.t) && OthersKept(nonce)
    {
      var t := TasksOf(nonce);
      if step.t in t.submitters { return; }
      SubmitMoves(SlotOf(nonce), step);
      var outcome, woken := broker.SubmitDecision(nonce, step.response, step.now, step.build, step.storeOk);
      if outcome.SawExpiry? {
        t := t.(submitters := t.submitters[step.t := Finalizing]);
      } else if outcome.Accepted? {
        var answer := Answered(step.response, step.now, outcome.stdout, outcome.expiresAt);
        t := t.(waits := WakeAll(t.waits, woken), accepted := t.accepted + [answer]);
      } else if outcome.error.Adapter? {
        t := t.(waits := WakeAll(t.waits, woken));
      }
      SetTasks(nonce, t);
    }

    /** A submission that saw the window elapsed audits the expiry, then removes the decision. */
    method DropElapsed(nonce: string, step: Step)
      requires step.SubmitFinalize? || step.SubmitRemove?
      modifies this, broker
      ensures SlotOf(nonce) == StepSubmit(old(SlotOf(nonce)), step, step.t) && OthersKept(nonce)
    {
      var t := TasksOf(nonce);
      if step.t !in t.submitters { return; }
      if step.SubmitFinalize? && t.submitters[step.t].Finalizing? {
        broker.Finalize(nonce, step.storeOk);
        SetTasks(nonce, t.(submitters := t.submitters[step.t := Removing]));
      } else if step.SubmitRemove? && t.submitters[step.t].Removing? {
        broker.SetActive(nonce, None);
        SetTasks(nonce, t.(submitters := t.submitters[step.t := Waking]));
      }
    }

    /** Last it wakes the waiter. */
    method WakeElapsed(nonce: string, step: Step)
      requires step.SubmitWake?
      modifies this, broker
      ensures SlotOf(nonce) == StepSubmit(old(SlotOf(nonce)), step, step.t) && OthersKept(nonce)
    {
      var t := TasksOf(nonce);
      if step.t in t.submitters && t.submitters[step.t].Waking? {
        var woken := broker.Unregister(nonce);
        SetTasks(nonce, t.(waits := WakeAll(t.waits, woken), submitters := t.submitters - {step.t}));
      }
    }

    /** One step of one task moves its nonce exactly as the interleaving model says, and no other nonce. */
    method Perform(nonce: string, step: Step)
      modifies this, broker
      ensures SlotOf(nonce) == StepSlot(old(SlotOf(nonce)), step) && OthersKept(nonce)
    {
      if step.Start? {
        StartWait(nonce, step);
      } else if step.SubmitDecision? {
        SubmitAnswer(nonce, step);
      } else if step.SubmitFinalize? || step.SubmitRemove? {
        DropElapsed(nonce, step);
      } else if step.SubmitWake? {
        WakeElapsed(nonce, step);
      } else if step.w in TasksOf(nonce).waits {
        if step.Audit? || step.Register? || step.Insert? {
          RegisterWait(nonce, step);
        } else if step.Listen? || step.Resume? || step.Timeout? {
          AwaitAnswer(nonce, step);
        } else if step.ExpireTake? {
          TakeExpired(nonce, step);
        } else if step.ExpireEnd? {
          EndExpiry(nonce, step);
        } else if step.MakeReply? || step.CheckRetain? {
          ReadReply(nonce, step);
        } else if step.Clear? {
          ClearWait(nonce, step);
        } else if step.Unregister? {
          FinishWait(nonce, step);
        } else if step.ServerTimeout? || step.ServerWrite? {
          WriteReply(nonce, step);
        } else if step.ServerReport? {
          ReportDelivery(nonce, step);
        } else {
          RemoveMarked(nonce, step);
        }
      }
    }

    /** From an empty server any interleaving leads where the model says; so with nonces used once, every
        row that says Delivered is of the one accepted answer, and that is all its hook was sent. */
    method PerformAll(run: Run)
      requires forall n :: SlotOf(n) == EMPTY
      modifies this, broker
      ensures forall n :: SlotOf(n) == SlotIn(After(run), n)
      ensures SingleUse(run) ==> forall n :: n in broker.rows && broker.rows[n].state.WireDelivered? ==>
                |TasksOf(n).accepted| == 1 && TasksOf(n).written == [TasksOf(n).accepted[0].stdout]
    {
      for i := 0 to |run|
        invariant forall n :: SlotOf(n) == SlotIn(After(run[..i]), n)
      {
        assert run[..i + 1][..i] == run[..i];
        Perform(run[i].0, run[i].1);
      }
      assert run[..|run|] == run;
      if SingleUse(run) {
        forall n | n in broker.rows && broker.rows[n].state.WireDelivered?
          ensures |TasksOf(n).accepted| == 1 && TasksOf(n).written == [TasksOf(n).accepted[0].stdout]
        {
          HonestDelivery(run, n);
          assert SlotOf(n).entry.row == Some(broker.rows[n]);
        }
      }
    }
  }
}
