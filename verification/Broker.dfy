/** Decision broker: what each lock-held region of the broker does to one nonce. */
module Broker {
  import opened Options

  /** The output a hook treats as "no decision". */
  const NEUTRAL := "{}"
  const WINDOW_ELAPSED := "decision window elapsed"
  const DISABLED := "decision responses disabled for this adapter"
  const NEUTRAL_DETAIL := "fail-open neutral output cannot be reported as delivered"

  datatype ActionKind = Allow | Deny | OtherAction
  datatype Response = Action(kind: ActionKind) | Answer(text: string)

  datatype Delivery =
    | Pending
    | Chosen(response: Response, respondedAt: int, stdout: string)
    | Delivered(stdout: string, deliveredAt: int)
    | Expired
    | Failed(detail: string)
  {
    predicate IsTerminal() { Delivered? || Expired? || Failed? }

    function Wire(): WireState {
      match this
      case Pending => WirePending
      case Chosen(_, _, _) => WirePending
      case Delivered(_, _) => WireDelivered
      case Expired => WireExpired
      case Failed(_) => WireFailed
    }
  }

  datatype WireState = WirePending | WireDelivered | WireExpired | WireFailed

  datatype ActiveDecision = ActiveDecision(state: Delivery, connection: string, actionable: bool, expiresAt: int)

  /** One row of the decision audit table. */
  datatype Row = Row(state: WireState, response: Option<Response>, respondedAt: Option<int>, detail: Option<string>)

  datatype Reply = Reply(stdout: string, state: WireState)

  /** What the vendor adapter makes of a response. */
  datatype Build = Built(stdout: string) | CapabilityDisabled | BuildFailed(message: string)

  datatype SubmitError = InvalidResponse | NotFound | AlreadyFinalized | NotActionable | Adapter(message: string)
  datatype SubmitOutcome = Accepted(stdout: string, expiresAt: int) | Refused(error: SubmitError) | SawExpiry

  /** Everything the broker and its store keep under one nonce. */
  datatype Entry = Entry(active: Option<ActiveDecision>, waiter: Option<nat>, row: Option<Row>)

  function Coalesce<T>(first: Option<T>, second: Option<T>): Option<T> {
    if first.Some? then first else second
  }

  /** upsert_active: a conflicting row keeps its response, time and detail. */
  function UpsertActive(row: Option<Row>): Option<Row> {
    match row
    case None => Some(Row(WirePending, None, None, None))
    case Some(r) => Some(r.(state := WirePending))
  }

  /** update_delivery: a given value replaces the stored one, an absent one keeps it. */
  function UpdateDelivery(row: Option<Row>, state: WireState, response: Option<Response>, respondedAt: Option<int>,
                          detail: Option<string>): Option<Row> {
    match row
    case None => None
    case Some(r) =>
      Some(Row(state, Coalesce(response, r.response), Coalesce(respondedAt, r.respondedAt), Coalesce(detail, r.detail)))
  }

  /** Store errors are swallowed: a failed write leaves the row as it was. */
  function Stored(ok: bool, before: Option<Row>, after: Option<Row>): Option<Row> {
    if ok then after else before
  }

  function NeutralReply(state: WireState): Reply { Reply(NEUTRAL, state) }

  /** First region of a wait: an early reply, or none when the wait goes on. */
  function CheckWait(e: Entry, connection: string): Option<Reply> {
    match e.active
    case None => None
    case Some(a) =>
      if a.connection != connection then Some(NeutralReply(WireFailed))
      else if !a.state.IsTerminal() then None
      else if a.state.Delivered? then Some(Reply(a.state.stdout, WireDelivered))
      else Some(NeutralReply(a.state.Wire()))
  }

  function ReplyFor(active: Option<ActiveDecision>): Reply {
    match active
    case None => NeutralReply(WireExpired)
    case Some(a) =>
      match a.state
      case Delivered(stdout, _) => Reply(stdout, WireDelivered)
      case Failed(_) => NeutralReply(WireFailed)
      case Expired => NeutralReply(WireExpired)
      case Chosen(_, _, stdout) => Reply(stdout, WirePending)
      case Pending => NeutralReply(WireExpired)
  }

  predicate Retains(active: Option<ActiveDecision>) {
    active.Some? && active.value.state.Chosen?
  }

  predicate ValidResponse(response: Response) {
    response.Action? && !response.kind.OtherAction?
  }

  /** Moves an active decision to `state`, audits the move and wakes the waiter. */
  function Settle(e: Entry, a: ActiveDecision, state: Delivery, response: Option<Response>, at: Option<int>,
                  detail: Option<string>, storeOk: bool): Entry {
    Entry(Some(a.(state := state)), None,
          Stored(storeOk, e.row, UpdateDelivery(e.row, state.Wire(), response, at, detail)))
  }

  /** submit_decision up to the point where it gives up the lock. */
  function Submit(e: Entry, response: Response, now: int, build: Build, storeOk: bool): (Entry, SubmitOutcome) {
    if !ValidResponse(response) then (e, Refused(InvalidResponse)) else
    match e.active
    case None => (e, Refused(NotFound))
    case Some(a) =>
      if !a.state.Pending? then (e, Refused(AlreadyFinalized))
      else if now >= a.expiresAt then (e, SawExpiry)
      else if !a.actionable then (e, Refused(NotActionable))
      else match build
        case CapabilityDisabled =>
          (Settle(e, a, Failed(DISABLED), Some(response), Some(now), Some(DISABLED), storeOk),
           Refused(Adapter(DISABLED)))
        case BuildFailed(m) =>
          (Settle(e, a, Failed(m), None, Some(now), Some(m), storeOk), Refused(Adapter(m)))
        case Built(stdout) =>
          if stdout == NEUTRAL then
            (Settle(e, a, Failed(NEUTRAL_DETAIL), Some(response), Some(now), Some(NEUTRAL_DETAIL), storeOk),
             Refused(Adapter(NEUTRAL_DETAIL)))
          else
            (Settle(e, a, Chosen(response, now, stdout), Some(response), Some(now), None, storeOk),
             Accepted(stdout, a.expiresAt))
  }

  function FinalizeExpired(e: Entry, storeOk: bool): Entry {
    e.(row := Stored(storeOk, e.row, UpdateDelivery(e.row, WireExpired, None, None, Some(WINDOW_ELAPSED))))
  }

  /** confirm_delivery under its lock; the flag tells whether the entry is then removed. */
  function Confirm(e: Entry, storeOk: bool): (Entry, bool) {
    if e.active.Some? && e.active.value.state.Chosen? then
      var c := e.active.value.state;
      var state := Delivered(c.stdout, c.respondedAt);
      (Entry(Some(e.active.value.(state := state)), e.waiter,
             Stored(storeOk, e.row, UpdateDelivery(e.row, WireDelivered, None, None, None))), true)
    else (e, false)
  }

  function Fail(e: Entry, detail: string, storeOk: bool): (Entry, bool) {
    if e.active.Some? && e.active.value.state.Chosen? then
      (Entry(Some(e.active.value.(state := Failed(detail))), e.waiter,
             Stored(storeOk, e.row, UpdateDelivery(e.row, WireFailed, None, None, Some(detail)))), true)
    else (e, false)
  }
}
