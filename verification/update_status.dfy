/**
 * The trade status executor (src/app/api/trades/update-status/route.ts):
 * the `validTransitions` graph, the guarded request handler `POST` as a
 * method over a store of trade rows, the pure function `Execute` that
 * specifies it, and what follows from them: the store invariants it keeps,
 * and the gaps between the server and the state table (there is no turn
 * check, and `pending -> disputed` is accepted).
 *
 * Authentication, JSON parsing, the database and the clock are parameters:
 * `user` is the session's user id (None when `getUser` fails), `body` the
 * parsed request (None when parsing throws), and `env` what the storage
 * and the clock answer during the request (see Env).  The read of the
 * row and its later write are not compared-and-swapped in the source; a
 * sequential model cannot show that race.
 */
module UpdateStatus {
  import opened Wrappers
  import opened Database
  import TradeStateTable

  /** The request body; an empty string stands for a field that is absent or empty (both falsy). */
  datatype StatusRequest = StatusRequest(tradeId: TradeId, newStatus: string, userRole: string)

  /** The HTTP answer: 200 with the updated row, or an error code with its message. */
  datatype Response =
    | Updated(status: TradeStatus, trade: TradeRow)
    | Rejected(code: int, error: string)

  /** The handler's answer together with the store it leaves behind. */
  datatype Outcome = Outcome(response: Response, trades: map<TradeId, TradeRow>)

  /** The record written by a successful update (`updateData`). */
  datatype UpdateData = UpdateData(status: TradeStatus, updatedAt: Timestamp, completedAt: Option<Timestamp>)

  /**
   * What the environment answers during one request: whether the row read
   * and the update report an error, and the two clock readings, the first
   * for `updated_at` and the second for `completed_at`.
   */
  datatype Env = Env(readFails: bool, writeFails: bool, updatedClock: Timestamp, completedClock: Timestamp)

  /** An environment in which storage answers without error. */
  predicate StorageSucceeds(env: Env)
  {
    !env.readFails && !env.writeFails
  }

  /** The transition graph, written out as a set of edges. */
  const Edges: set<(TradeStatus, TradeStatus)> := {
    (Pending, InProgress), (Pending, Cancelled), (Pending, Disputed),
    (InProgress, PaymentSent), (InProgress, Cancelled), (InProgress, Disputed),
    (PaymentSent, Completed), (PaymentSent, Disputed)
  }

  /** validTransitions: the statuses each status may move to, in the source's order. */
  function ValidTransitions(s: TradeStatus): (next: seq<TradeStatus>)
    ensures forall t :: t in next <==> (s, t) in Edges
    ensures s !in next
    ensures next == [] <==> s == Completed || s == Disputed || s == Cancelled
    ensures forall i, j :: 0 <= i < j < |next| ==> next[i] != next[j]
  {
    match s
    case Pending => [InProgress, Cancelled, Disputed]
    case InProgress => [PaymentSent, Cancelled, Disputed]
    case PaymentSent => [Completed, Disputed]
    case Completed => []
    case Disputed => []
    case Cancelled => []
  }

  /** `allowedNextStatuses.includes(newStatus)`: the requested string names an allowed target. */
  function AcceptsTransition(current: TradeStatus, requested: string): (ok: bool)
    ensures ok ==> ParseStatus(requested).Some? && (current, ParseStatus(requested).value) in Edges
    ensures forall t :: requested == StatusName(t) ==> (ok <==> (current, t) in Edges)
  {
    var target := ParseStatus(requested);
    target.Some? && target.value in ValidTransitions(current)
  }

  /** The update record: status and update time always, the completion time only for `completed`. */
  function BuildUpdate(target: TradeStatus, updatedClock: Timestamp, completedClock: Timestamp): (u: UpdateData)
    ensures u.status == target && u.updatedAt == updatedClock
    ensures u.completedAt.Some? <==> target == Completed
    ensures u.completedAt.Some? ==> u.completedAt.value == completedClock
  {
    var u := UpdateData(target, updatedClock, None);
    if target == Completed then u.(completedAt := Some(completedClock)) else u
  }

  /** The fields that are fixed when a trade is created. */
  predicate KeepsFixedFields(before: TradeRow, after: TradeRow)
  {
    && after.id == before.id
    && after.offerId == before.offerId
    && after.buyerId == before.buyerId
    && after.sellerId == before.sellerId
    && after.cryptoAmount == before.cryptoAmount
    && after.fiatAmount == before.fiatAmount
    && after.feeAmountUsd == before.feeAmountUsd
    && after.escrowContractAddress == before.escrowContractAddress
    && after.createdAt == before.createdAt
  }

  /** The storage update: the fields of `u` overwrite the row, every other column keeps its value. */
  function ApplyUpdate(row: TradeRow, u: UpdateData): (r: TradeRow)
    ensures KeepsFixedFields(row, r)
    ensures r.status == u.status && r.updatedAt == Some(u.updatedAt)
    ensures u.completedAt.Some? ==> r.completedAt == u.completedAt
    ensures u.completedAt.None? ==> r.completedAt == row.completedAt
  {
    row.(status := u.status, updatedAt := Some(u.updatedAt),
         completedAt := if u.completedAt.Some? then u.completedAt else row.completedAt)
  }

  predicate IsParticipant(row: TradeRow, user: UserId)
  {
    row.buyerId == user || row.sellerId == user
  }

  predicate HasRequiredFields(req: StatusRequest)
  {
    req.tradeId != "" && req.newStatus != "" && req.userRole != ""
  }

  /**
   * What `POST` answers and what it leaves in the store.  The guards run in
   * the source's order and the first failing one decides the answer.
   * `userRole` takes part only in the required-fields check.  A read that
   * reports an error is answered like a missing row.
   */
  function Execute(trades: map<TradeId, TradeRow>, user: Option<UserId>, body: Option<StatusRequest>, env: Env)
    : (o: Outcome)
    ensures user.None? ==> o.response == Rejected(401, "Unauthorized")
    ensures o.response.Rejected? ==> o.trades == trades
    ensures o.response.Rejected? ==> o.response.code in {400, 401, 403, 404, 500}
    ensures o.response.Updated? <==>
      && user.Some? && body.Some? && HasRequiredFields(body.value)
      && body.value.tradeId in trades && !env.readFails
      && IsParticipant(trades[body.value.tradeId], user.value)
      && AcceptsTransition(trades[body.value.tradeId].status, body.value.newStatus)
      && !env.writeFails
    ensures o.response.Updated? ==>
      var id := body.value.tradeId;
      var before := trades[id];
      var after := o.response.trade;
      && o.trades == trades[id := after]
      && o.response.status == after.status
      && StatusName(after.status) == body.value.newStatus
      && (before.status, after.status) in Edges
      && KeepsFixedFields(before, after)
      && after.updatedAt == Some(env.updatedClock)
      && after.completedAt == (if after.status == Completed then Some(env.completedClock) else before.completedAt)
  {
    if user.None? then Outcome(Rejected(401, "Unauthorized"), trades)
    else if body.None? then Outcome(Rejected(500, "Internal server error"), trades)
    else
      var req := body.value;
      if !HasRequiredFields(req) then Outcome(Rejected(400, "Missing required fields"), trades)
      else if env.readFails || req.tradeId !in trades then Outcome(Rejected(404, "Trade not found"), trades)
      else
        var trade := trades[req.tradeId];
        if !IsParticipant(trade, user.value) then Outcome(Rejected(403, "Unauthorized"), trades)
        else if !AcceptsTransition(trade.status, req.newStatus) then
          Outcome(Rejected(400, "Invalid status transition from " + StatusName(trade.status)
                                + " to " + req.newStatus), trades)
        else if env.writeFails then Outcome(Rejected(500, "Failed to update trade"), trades)
        else
          var u := BuildUpdate(ParseStatus(req.newStatus).value, env.updatedClock, env.completedClock);
          var updated := ApplyUpdate(trade, u);
          Outcome(Updated(updated.status, updated), trades[req.tradeId := updated])
  }

  /** The store behind the route handler: `POST` changes it in place. */
  class TradeStore {
    var trades: map<TradeId, TradeRow>

    constructor (initial: map<TradeId, TradeRow>)
      ensures trades == initial
    {
      trades := initial;
    }

    /** POST /api/trades/update-status, one guarded early return after another. */
    method Post(user: Option<UserId>, body: Option<StatusRequest>, env: Env) returns (resp: Response)
      modifies this
      ensures Outcome(resp, trades) == Execute(old(trades), user, body, env)
    {
      if user.None? {
        return Rejected(401, "Unauthorized");
      }
      if body.None? {
        return Rejected(500, "Internal server error");
      }
      var req := body.value;
      if req.tradeId == "" || req.newStatus == "" || req.userRole == "" {
        return Rejected(400, "Missing required fields");
      }
      if env.readFails || req.tradeId !in trades {
        return Rejected(404, "Trade not found");
      }
      var trade := trades[req.tradeId];
      var isAuthorized := trade.buyerId == user.value || trade.sellerId == user.value;
      if !isAuthorized {
        return Rejected(403, "Unauthorized");
      }
      var allowedNextStatuses := ValidTransitions(trade.status);
      var target := ParseStatus(req.newStatus);
      if target.None? || target.value !in allowedNextStatuses {
        return Rejected(400, "Invalid status transition from " + StatusName(trade.status)
                             + " to " + req.newStatus);
      }
      var updateData := UpdateData(target.value, env.updatedClock, None);
      if target.value == Completed {
        updateData := updateData.(completedAt := Some(env.completedClock));
      }
      if env.writeFails {
        return Rejected(500, "Failed to update trade");
      }
      var updatedTrade := ApplyUpdate(trade, updateData);
      trades := trades[req.tradeId := updatedTrade];
      resp := Updated(updatedTrade.status, updatedTrade);
    }
  }

  // ---------------------------------------------------------------------
  // The order of the guards

  /** Missing fields are reported before the trade is looked up; nothing is written. */
  lemma MissingFieldsRejected(trades: map<TradeId, TradeRow>, user: UserId, req: StatusRequest, env: Env)
    requires !HasRequiredFields(req)
    ensures Execute(trades, Some(user), Some(req), env) == Outcome(Rejected(400, "Missing required fields"), trades)
  {
  }

  /** An unknown trade id is 404 whoever asks and whatever is asked. */
  lemma UnknownTradeRejected(trades: map<TradeId, TradeRow>, user: UserId, req: StatusRequest, env: Env)
    requires HasRequiredFields(req) && req.tradeId !in trades
    ensures Execute(trades, Some(user), Some(req), env).response == Rejected(404, "Trade not found")
  {
  }

  /** A read that reports an error is 404 even for a stored trade, and nothing is written. */
  lemma ReadFailureRejected(trades: map<TradeId, TradeRow>, user: UserId, req: StatusRequest, env: Env)
    requires HasRequiredFields(req) && env.readFails
    ensures Execute(trades, Some(user), Some(req), env) == Outcome(Rejected(404, "Trade not found"), trades)
  {
  }

  /** A requester who is neither buyer nor seller gets 403, even for a transition the graph allows. */
  lemma OutsiderRejected(trades: map<TradeId, TradeRow>, user: UserId, req: StatusRequest, env: Env)
    requires HasRequiredFields(req) && req.tradeId in trades && !env.readFails
    requires !IsParticipant(trades[req.tradeId], user)
    ensures Execute(trades, Some(user), Some(req), env).response == Rejected(403, "Unauthorized")
  {
  }

  /** A participant asking for a status outside the graph gets 400, before any write is tried. */
  lemma InvalidTransitionRejected(trades: map<TradeId, TradeRow>, user: UserId, req: StatusRequest, env: Env)
    requires HasRequiredFields(req) && req.tradeId in trades && !env.readFails
    requires IsParticipant(trades[req.tradeId], user)
    requires !AcceptsTransition(trades[req.tradeId].status, req.newStatus)
    ensures Execute(trades, Some(user), Some(req), env).response.Rejected?
    ensures Execute(trades, Some(user), Some(req), env).response.code == 400
  {
  }

  /** A storage error after validation is 500 with no updated trade, and the store is as before. */
  lemma WriteFailureRejected(trades: map<TradeId, TradeRow>, user: UserId, req: StatusRequest, env: Env)
    requires HasRequiredFields(req) && req.tradeId in trades && !env.readFails
    requires IsParticipant(trades[req.tradeId], user)
    requires AcceptsTransition(trades[req.tradeId].status, req.newStatus)
    requires env.writeFails
    ensures Execute(trades, Some(user), Some(req), env) == Outcome(Rejected(500, "Failed to update trade"), trades)
  {
  }

  /** Asking for the status the trade already has is always rejected: the graph has no self-loops. */
  lemma SameStatusRejected(trades: map<TradeId, TradeRow>, user: UserId, req: StatusRequest, env: Env)
    requires req.tradeId in trades && req.newStatus == StatusName(trades[req.tradeId].status)
    ensures Execute(trades, Some(user), Some(req), env).response.Rejected?
  {
  }

  /** Nothing leaves `completed`, `disputed` or `cancelled`. */
  lemma TerminalStatusesRejectAll(trades: map<TradeId, TradeRow>, user: UserId, req: StatusRequest, env: Env)
    requires req.tradeId in trades
    requires trades[req.tradeId].status in {Completed, Disputed, Cancelled}
    ensures Execute(trades, Some(user), Some(req), env).response.Rejected?
    ensures Execute(trades, Some(user), Some(req), env).trades == trades
  {
  }

  /** The two clock readings are independent: a completed trade's `completed_at` need not equal its `updated_at`. */
  lemma CompletionTimeIsItsOwnReading(row: TradeRow, user: UserId, env: Env)
    requires row.status == PaymentSent && row.id != "" && IsParticipant(row, user) && StorageSucceeds(env)
    ensures var o := Execute(map[row.id := row], Some(user), Some(StatusRequest(row.id, "completed", "seller")), env);
      && o.response.Updated?
      && o.response.trade.updatedAt == Some(env.updatedClock)
      && o.response.trade.completedAt == Some(env.completedClock)
  {
    StatusNameRoundTrip(Completed, "completed");
  }

  // ---------------------------------------------------------------------
  // No turn check on the server

  /** The caller-supplied role is never consulted beyond being present. */
  lemma RoleIsOnlyLogged(trades: map<TradeId, TradeRow>, user: Option<UserId>, id: TradeId, status: string,
                         role1: string, role2: string, env: Env)
    requires role1 != "" && role2 != ""
    ensures Execute(trades, user, Some(StatusRequest(id, status, role1)), env)
         == Execute(trades, user, Some(StatusRequest(id, status, role2)), env)
  {
  }

  /** Buyer and seller get the same answer to the same request: whose turn it is does not matter. */
  lemma EitherParticipantSameOutcome(trades: map<TradeId, TradeRow>, req: StatusRequest, env: Env)
    requires req.tradeId in trades
    ensures var row := trades[req.tradeId];
      Execute(trades, Some(row.buyerId), Some(req), env) == Execute(trades, Some(row.sellerId), Some(req), env)
  {
  }

  /** The buyer may move a pending trade to `in_progress`, the step the presenter reserves for the seller. */
  lemma BuyerMayFundEscrow(row: TradeRow, env: Env)
    requires row.status == Pending && row.id != "" && row.buyerId != row.sellerId && StorageSucceeds(env)
    ensures var o := Execute(map[row.id := row], Some(row.buyerId),
                             Some(StatusRequest(row.id, "in_progress", "buyer")), env);
            o.response.Updated? && o.response.status == InProgress
  {
    StatusNameRoundTrip(InProgress, "in_progress");
  }

  /** The server accepts a dispute on a pending trade although the state table says a pending trade cannot be disputed. */
  lemma PendingDisputeAccepted(row: TradeRow, user: UserId, env: Env)
    requires row.status == Pending && row.id != "" && IsParticipant(row, user) && StorageSucceeds(env)
    ensures !TradeStateTable.CanUserDispute(Pending)
    ensures Execute(map[row.id := row], Some(user), Some(StatusRequest(row.id, "disputed", "buyer")), env).response
            == Updated(Disputed, ApplyUpdate(row, BuildUpdate(Disputed, env.updatedClock, env.completedClock)))
  {
    StatusNameRoundTrip(Disputed, "disputed");
  }

  // ---------------------------------------------------------------------
  // Agreement with the state table

  /** Every happy-path successor in the state table is an edge the server accepts. */
  lemma NextStatusIsAccepted(s: TradeStatus)
    ensures TradeStateTable.GetNextStatus(s).Some? ==>
      var t := TradeStateTable.GetNextStatus(s).value;
      t in ValidTransitions(s) && AcceptsTransition(s, StatusName(t))
  {
    if TradeStateTable.GetNextStatus(s).Some? {
      StatusNameRoundTrip(TradeStateTable.GetNextStatus(s).value, StatusName(TradeStateTable.GetNextStatus(s).value));
    }
  }

  /** Wherever the table allows a dispute the server accepts one; the server also accepts it for `pending`. */
  lemma DisputeEdges(s: TradeStatus)
    ensures TradeStateTable.CanUserDispute(s) ==> (s, Disputed) in Edges
    ensures (s, Disputed) in Edges <==> TradeStateTable.CanUserDispute(s) || s == Pending
  {
  }

  // ---------------------------------------------------------------------
  // Invariants of the store

  /** A row as the trade lifecycle keeps it: two distinct parties, and a completion time exactly when completed. */
  predicate WellFormedRow(row: TradeRow)
  {
    row.buyerId != row.sellerId && (row.completedAt.Some? <==> row.status == Completed)
  }

  predicate WellFormedStore(trades: map<TradeId, TradeRow>)
  {
    forall id :: id in trades ==> WellFormedRow(trades[id])
  }

  /** One request keeps every row well formed and changes at most the requested row. */
  lemma ExecutePreservesWellFormed(trades: map<TradeId, TradeRow>, user: Option<UserId>,
                                   body: Option<StatusRequest>, env: Env)
    requires WellFormedStore(trades)
    ensures var o := Execute(trades, user, body, env);
      && WellFormedStore(o.trades)
      && o.trades.Keys == trades.Keys
      && forall id :: id in trades && (body.None? || id != body.value.tradeId) ==> o.trades[id] == trades[id]
  {
  }

  /** One call of the handler, with the environment's answers. */
  datatype Call = Call(user: Option<UserId>, body: Option<StatusRequest>, env: Env)

  /** The store after a sequence of calls handled one after another. */
  function Replay(trades: map<TradeId, TradeRow>, calls: seq<Call>): map<TradeId, TradeRow>
    decreases |calls|
  {
    if calls == [] then trades
    else
      var c := calls[0];
      Replay(Execute(trades, c.user, c.body, c.env).trades, calls[1..])
  }

  /** Any sequence of calls keeps the store well formed, keeps every id, and keeps the fixed fields of every row. */
  lemma {:induction false} ReplayPreservesWellFormed(trades: map<TradeId, TradeRow>, calls: seq<Call>)
    requires WellFormedStore(trades)
    ensures WellFormedStore(Replay(trades, calls))
    ensures Replay(trades, calls).Keys == trades.Keys
    ensures forall id :: id in trades ==> KeepsFixedFields(trades[id], Replay(trades, calls)[id])
    decreases |calls|
  {
    if calls != [] {
      var c := calls[0];
      var o := Execute(trades, c.user, c.body, c.env);
      ExecutePreservesWellFormed(trades, c.user, c.body, c.env);
      ReplayPreservesWellFormed(o.trades, calls[1..]);
    }
  }

  /** Once a trade is completed, no sequence of calls changes it. */
  lemma {:induction false} CompletedIsFinal(trades: map<TradeId, TradeRow>, calls: seq<Call>, id: TradeId)
    requires id in trades && trades[id].status == Completed
    ensures id in Replay(trades, calls) && Replay(trades, calls)[id] == trades[id]
    decreases |calls|
  {
    if calls != [] {
      var c := calls[0];
      var o := Execute(trades, c.user, c.body, c.env);
      CompletedIsFinal(o.trades, calls[1..], id);
    }
  }
}
