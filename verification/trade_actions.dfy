/**
 * The client action presenter (src/components/trade/TradeActions.tsx):
 * from the current status and the viewer's role it derives one primary
 * button and an optional dispute button, and its click handler keeps the
 * `loading` and `error` cells of the component.  The presenter only
 * derives a view: the server decides.
 */
module TradeActions {
  import opened Wrappers
  import opened Database
  import opened TradeStateTable
  import UpdateStatus

  /** A rendered button: its text, whether it is disabled, and the status a click requests (None: no click handler). */
  datatype Button = Button(text: string, disabled: bool, sends: Option<TradeStatus>)

  /** The role names the client sends in `userRole`. */
  function RoleName(role: Role): (name: string)
    ensures name != ""
  {
    match role
    case Buyer => "buyer"
    case Seller => "seller"
  }

  /** The body `handleStatusUpdate` posts. */
  function RequestFor(tradeId: TradeId, newStatus: TradeStatus, role: Role): (req: UpdateStatus.StatusRequest)
    ensures req.tradeId == tradeId && ParseStatus(req.newStatus) == Some(newStatus)
    ensures tradeId != "" ==> UpdateStatus.HasRequiredFields(req)
  {
    StatusNameRoundTrip(newStatus, StatusName(newStatus));
    UpdateStatus.StatusRequest(tradeId, StatusName(newStatus), RoleName(role))
  }

  /**
   * canTakeAction: the seller acts on a pending trade (funds escrow), the
   * buyer once escrow is funded (marks payment sent), the seller once
   * payment is marked (confirms receipt); nobody otherwise.
   */
  function CanTakeAction(s: TradeStatus, role: Role): (r: bool)
    ensures s == Pending ==> (r <==> role == Seller)
    ensures s == InProgress ==> (r <==> role == Buyer)
    ensures s == PaymentSent ==> (r <==> role == Seller)
    ensures r ==> GetNextStatus(s).Some?
  {
    match s
    case Pending => role == Seller
    case InProgress => role == Buyer
    case PaymentSent => role == Seller
    case _ => false
  }

  /** getActionText: the call to action for the role whose turn it is, a waiting text for the other. */
  function ActionText(s: TradeStatus, role: Role): (text: string)
    ensures text != ""
  {
    match s
    case Pending => if role == Seller then "Deposit Crypto to Escrow" else "Waiting for Seller"
    case InProgress => if role == Buyer then "Mark Payment as Sent" else "Waiting for Buyer Payment"
    case PaymentSent => if role == Seller then "Confirm Payment Received" else "Waiting for Seller Confirmation"
    case _ => "No Action Available"
  }

  /**
   * getActionButton: a finished trade shows the disabled "Trade Complete"
   * (checked before the dispute case), a disputed one the disabled
   * "Awaiting Resolution", the waiting role a disabled text, and the acting
   * role a button whose click requests the happy-path next status.
   */
  function GetActionButton(s: TradeStatus, role: Role, loading: bool, disabledProp: bool): (b: Button)
    ensures GetTradeState(s).isComplete ==> b == Button("Trade Complete", true, None)
    ensures s == Disputed ==> b == Button("Awaiting Resolution", true, None)
    ensures b.sends.Some? <==> CanTakeAction(s, role)
    ensures b.sends.Some? ==> b.sends == GetNextStatus(s) && b.disabled == (loading || disabledProp)
    ensures b.sends.Some? ==> b.text == (if loading then "Processing..." else ActionText(s, role))
    ensures b.sends.None? ==> b.disabled
  {
    if GetTradeState(s).isComplete then Button("Trade Complete", true, None)
    else if s == Disputed then Button("Awaiting Resolution", true, None)
    else if !CanTakeAction(s, role) then Button(ActionText(s, role), true, None)
    else Button(if loading then "Processing..." else ActionText(s, role), loading || disabledProp, GetNextStatus(s))
  }

  /** The "Report a Problem" button: shown exactly when the state table allows a dispute; it requests `disputed`. */
  function DisputeButton(s: TradeStatus, loading: bool, disabledProp: bool): (b: Option<Button>)
    ensures b.Some? <==> CanUserDispute(s)
    ensures b.Some? ==> b.value.sends == Some(Disputed) && b.value.disabled == (loading || disabledProp)
  {
    if GetTradeState(s).canDispute then
      Some(Button(if loading then "Processing..." else "Report a Problem", loading || disabledProp, Some(Disputed)))
    else None
  }

  /** The statuses a click on an enabled button of the rendered panel can request. */
  function IssuableRequests(s: TradeStatus, role: Role, loading: bool, disabledProp: bool): (targets: set<TradeStatus>)
    ensures forall t :: t in targets ==> (s, t) in UpdateStatus.Edges
    ensures Cancelled !in targets
  {
    var primary := GetActionButton(s, role, loading, disabledProp);
    var dispute := DisputeButton(s, loading, disabledProp);
    NextStatusAccepted(s);
    (if primary.sends.Some? && !primary.disabled then {primary.sends.value} else {})
    + (if dispute.Some? && !dispute.value.disabled then {Disputed} else {})
  }

  lemma NextStatusAccepted(s: TradeStatus)
    ensures GetNextStatus(s).Some? ==> (s, GetNextStatus(s).value) in UpdateStatus.Edges
  {
    UpdateStatus.NextStatusIsAccepted(s);
  }

  /** On each active status exactly one role may act; on the others neither may. */
  lemma ExactlyOneRoleActs(s: TradeStatus)
    ensures GetNextStatus(s).Some? ==> CanTakeAction(s, Buyer) != CanTakeAction(s, Seller)
    ensures GetNextStatus(s).None? ==> !CanTakeAction(s, Buyer) && !CanTakeAction(s, Seller)
  {
  }

  /**
   * The presenter never offers a request the server would refuse: a
   * participant's click on any enabled button of the panel, posted for a
   * stored trade that is still in the displayed status, is accepted and
   * moves the trade to the requested status, provided storage answers
   * without error.
   */
  lemma PresenterRequestsAccepted(trades: map<TradeId, TradeRow>, id: TradeId, user: UserId, role: Role,
                                  loading: bool, disabledProp: bool, t: TradeStatus, env: UpdateStatus.Env)
    requires id != "" && id in trades && UpdateStatus.IsParticipant(trades[id], user)
    requires t in IssuableRequests(trades[id].status, role, loading, disabledProp)
    requires UpdateStatus.StorageSucceeds(env)
    ensures var o := UpdateStatus.Execute(trades, Some(user), Some(RequestFor(id, t, role)), env);
      o.response.Updated? && o.response.status == t && o.trades[id].status == t
  {
    var req := RequestFor(id, t, role);
    StatusNameRoundTrip(t, req.newStatus);
    assert UpdateStatus.AcceptsTransition(trades[id].status, req.newStatus);
  }

  /** The server accepts strictly more than the panel offers: cancelling, and disputing a pending trade. */
  lemma ServerAcceptsMoreThanOffered(role: Role, loading: bool, disabledProp: bool)
    ensures (Pending, Cancelled) in UpdateStatus.Edges && (Pending, Disputed) in UpdateStatus.Edges
    ensures Disputed !in IssuableRequests(Pending, role, loading, disabledProp)
    ensures Cancelled !in IssuableRequests(Pending, role, loading, disabledProp)
  {
  }

  /** What the server's reply means for the client. */
  datatype Reply = Delivered(response: UpdateStatus.Response) | NetworkError(message: string)

  /**
   * The component's state cells.  `loadingLog` records every value written
   * to `loading`; `sent` the bodies posted and `notified` the arguments
   * passed to `onStatusUpdate`, in order.
   */
  class ActionsPanel {
    const tradeId: TradeId
    const userRole: Role
    var loading: bool
    var error: string
    ghost var loadingLog: seq<bool>
    var sent: seq<UpdateStatus.StatusRequest>
    var notified: seq<TradeStatus>

    constructor (tradeId: TradeId, userRole: Role)
      ensures this.tradeId == tradeId && this.userRole == userRole
      ensures !loading && error == "" && loadingLog == [] && sent == [] && notified == []
    {
      this.tradeId := tradeId;
      this.userRole := userRole;
      loading := false;
      error := "";
      loadingLog := [];
      sent := [];
      notified := [];
    }

    /**
     * handleStatusUpdate: `loading` is raised on entry and lowered on every
     * exit; a 2xx reply passes its status to `onStatusUpdate`, anything
     * else becomes the error text.
     */
    method HandleStatusUpdate(newStatus: TradeStatus, reply: Reply)
      modifies this
      ensures !loading && loadingLog == old(loadingLog) + [true, false]
      ensures sent == old(sent) + [RequestFor(tradeId, newStatus, userRole)]
      ensures reply.Delivered? && reply.response.Updated? ==>
        error == "" && notified == old(notified) + [reply.response.status]
      ensures reply.Delivered? && reply.response.Rejected? ==>
        error == (if reply.response.error == "" then "Failed to update trade status" else reply.response.error)
        && notified == old(notified)
      ensures reply.NetworkError? ==> error == reply.message && notified == old(notified)
    {
      loading := true;
      loadingLog := loadingLog + [true];
      error := "";
      sent := sent + [RequestFor(tradeId, newStatus, userRole)];
      match reply {
        case NetworkError(message) =>
          error := message;
        case Delivered(response) =>
          if response.Rejected? {
            error := if response.error == "" then "Failed to update trade status" else response.error;
          } else {
            notified := notified + [response.status];
          }
      }
      loading := false;
      loadingLog := loadingLog + [false];
    }

    /** handleNextStep: requests the happy-path next status, and does nothing where there is none. */
    method HandleNextStep(currentStatus: TradeStatus, reply: Reply)
      modifies this
      ensures GetNextStatus(currentStatus).Some? ==>
        && sent == old(sent) + [RequestFor(tradeId, GetNextStatus(currentStatus).value, userRole)]
        && !loading && loadingLog == old(loadingLog) + [true, false]
      ensures GetNextStatus(currentStatus).Some? && reply.Delivered? && reply.response.Updated? ==>
        error == "" && notified == old(notified) + [reply.response.status]
      ensures GetNextStatus(currentStatus).Some? && reply.Delivered? && reply.response.Rejected? ==>
        error == (if reply.response.error == "" then "Failed to update trade status" else reply.response.error)
        && notified == old(notified)
      ensures GetNextStatus(currentStatus).Some? && reply.NetworkError? ==>
        error == reply.message && notified == old(notified)
      ensures GetNextStatus(currentStatus).None? ==>
        sent == old(sent) && loading == old(loading) && error == old(error)
        && loadingLog == old(loadingLog) && notified == old(notified)
    {
      var nextStatus := GetNextStatus(currentStatus);
      if nextStatus.Some? {
        HandleStatusUpdate(nextStatus.value, reply);
      }
    }

    /** handleDispute: always requests `disputed`. */
    method HandleDispute(reply: Reply)
      modifies this
      ensures sent == old(sent) + [RequestFor(tradeId, Disputed, userRole)]
      ensures !loading && loadingLog == old(loadingLog) + [true, false]
      ensures reply.Delivered? && reply.response.Updated? ==>
        error == "" && notified == old(notified) + [reply.response.status]
      ensures reply.Delivered? && reply.response.Rejected? ==>
        error == (if reply.response.error == "" then "Failed to update trade status" else reply.response.error)
        && notified == old(notified)
      ensures reply.NetworkError? ==> error == reply.message && notified == old(notified)
    {
      HandleStatusUpdate(Disputed, reply);
    }
  }
}
