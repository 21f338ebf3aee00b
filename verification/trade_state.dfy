/**
 * The static trade-state table (src/lib/trade-state.ts): per status, its
 * display text, the informational actions of each role, whether a dispute
 * may be filed, whether the trade is over, and the single happy-path next
 * status.  The authoritative transition graph lives in UpdateStatus.
 */
module TradeStateTable {
  import opened Wrappers
  import opened Database

  datatype TradeState = TradeState(
    status: TradeStatus,
    title: string,
    description: string,
    buyerActions: seq<string>,
    sellerActions: seq<string>,
    canDispute: bool,
    isComplete: bool,
    nextStatus: Option<TradeStatus>)

  /** TRADE_STATES: a record keyed by every trade status. */
  const TradeStates: map<TradeStatus, TradeState> := map[
    Pending := TradeState(Pending, "Trade Initiated",
      "Waiting for seller to deposit crypto into escrow",
      ["Wait for seller deposit"], ["Deposit crypto to escrow"],
      false, false, Some(InProgress)),
    InProgress := TradeState(InProgress, "Escrow Funded",
      "Seller has deposited crypto. Buyer should now send fiat payment.",
      ["Send fiat payment", "Mark payment as sent"], ["Wait for buyer payment"],
      true, false, Some(PaymentSent)),
    PaymentSent := TradeState(PaymentSent, "Payment Sent",
      "Buyer has marked payment as sent. Seller should verify and confirm receipt.",
      ["Wait for seller confirmation"], ["Verify payment received", "Confirm payment"],
      true, false, Some(Completed)),
    Completed := TradeState(Completed, "Trade Complete",
      "Trade has been successfully completed. Crypto has been released to buyer.",
      ["Leave feedback"], ["Leave feedback"],
      false, true, None),
    Disputed := TradeState(Disputed, "Trade Disputed",
      "A dispute has been opened. Please wait for admin resolution.",
      ["Wait for resolution"], ["Wait for resolution"],
      false, false, None),
    Cancelled := TradeState(Cancelled, "Trade Cancelled",
      "This trade has been cancelled.",
      [], [],
      false, true, None)
  ]

  /** The table is total: every status has an entry. */
  lemma TableIsTotal(s: TradeStatus)
    ensures s in TradeStates
  {
  }

  /** getTradeState: the entry of a status, which describes that same status. */
  function GetTradeState(s: TradeStatus): (st: TradeState)
    ensures st.status == s
    ensures st.canDispute <==> s == InProgress || s == PaymentSent
    ensures st.isComplete <==> s == Completed || s == Cancelled
    ensures st.nextStatus.Some? <==> !st.isComplete && s != Disputed
    ensures st.isComplete ==> !st.canDispute
  {
    TableIsTotal(s);
    TradeStates[s]
  }

  /** getAvailableActions: the informational actions listed for the role. */
  function GetAvailableActions(s: TradeStatus, role: Role): (actions: seq<string>)
    ensures role == Buyer ==> actions == GetTradeState(s).buyerActions
    ensures role == Seller ==> actions == GetTradeState(s).sellerActions
    ensures s == Cancelled ==> actions == []
    ensures s != Cancelled ==> |actions| > 0
  {
    var state := GetTradeState(s);
    if role == Buyer then state.buyerActions else state.sellerActions
  }

  /** canUserDispute: a dispute may be filed exactly while escrow is funded or payment is marked sent. */
  function CanUserDispute(s: TradeStatus): (r: bool)
    ensures r <==> s == InProgress || s == PaymentSent
    ensures r == GetTradeState(s).canDispute
  {
    GetTradeState(s).canDispute
  }

  /**
   * getNextStatus: the happy-path successor, `null` (None) where the table
   * gives none.  The successors form the chain
   * pending -> in_progress -> payment_sent -> completed.
   */
  function GetNextStatus(s: TradeStatus): (r: Option<TradeStatus>)
    ensures s == Pending ==> r == Some(InProgress)
    ensures s == InProgress ==> r == Some(PaymentSent)
    ensures s == PaymentSent ==> r == Some(Completed)
    ensures s == Completed || s == Disputed || s == Cancelled ==> r == None
    ensures r.Some? ==> r.value != s && !GetTradeState(s).isComplete
  {
    GetTradeState(s).nextStatus
  }

  /** Following the happy path from `pending` reaches `completed` in three steps, then stops. */
  lemma HappyPathReachesCompleted()
    ensures GetNextStatus(Pending) == Some(InProgress)
    ensures GetNextStatus(GetNextStatus(Pending).value) == Some(PaymentSent)
    ensures GetNextStatus(GetNextStatus(GetNextStatus(Pending).value).value) == Some(Completed)
    ensures GetNextStatus(Completed) == None
  {
  }
}
