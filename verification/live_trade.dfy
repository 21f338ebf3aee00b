/**
 * The live trade view (src/components/trade/LiveTradeInterface.tsx): the
 * client's copy of the trade, overwritten field by field by realtime
 * change notifications (`{...prev, ...payload.new}`) and by the optimistic
 * status write after a successful click, and the `isConnected` flag driven
 * by the subscription's status callbacks.  The channel itself (subscribe,
 * delivery, removal on unmount) is not part of this model: its callbacks
 * are the methods of LiveTradeView.
 */
module LiveTrade {
  import opened Wrappers
  import opened Database
  import TradeActions
  import UpdateStatus

  /** A JSON field value of the trade object. */
  datatype FieldValue = Text(s: string) | Number(r: real) | Time(t: Timestamp) | Null

  /** The client's trade object: field name to value; an absent key reads as `undefined`. */
  type TradeRecord = map<string, FieldValue>

  /** JavaScript truthiness of a field value (timestamps are non-empty ISO strings). */
  predicate Truthy(v: FieldValue)
  {
    match v
    case Text(s) => s != ""
    case Number(r) => r != 0.0
    case Time(_) => true
    case Null => false
  }

  /** A realtime notification: every field of the payload overwrites, every other field is kept. */
  function Merge(prev: TradeRecord, patch: TradeRecord): (r: TradeRecord)
    ensures r.Keys == prev.Keys + patch.Keys
    ensures forall k :: k in patch ==> r[k] == patch[k]
    ensures forall k :: k in prev && k !in patch ==> r[k] == prev[k]
  {
    prev + patch
  }

  /** The optimistic update: only `status` changes. */
  function WithStatus(prev: TradeRecord, s: TradeStatus): (r: TradeRecord)
    ensures r.Keys == prev.Keys + {"status"}
    ensures r["status"] == Text(StatusName(s))
    ensures forall k :: k in prev && k != "status" ==> r[k] == prev[k]
  {
    prev["status" := Text(StatusName(s))]
  }

  /** A confirmed notification that carries a status overrides the optimistic one, and every other field it carries. */
  lemma ConfirmedOverridesOptimistic(prev: TradeRecord, s: TradeStatus, patch: TradeRecord)
    requires "status" in patch
    ensures var r := Merge(WithStatus(prev, s), patch);
      r["status"] == patch["status"] && forall k :: k in patch ==> r[k] == patch[k]
  {
  }

  function TimeField(t: Option<Timestamp>): FieldValue
  {
    if t.Some? then Time(t.value) else Null
  }

  /** A stored trade row as the change feed delivers it in `payload.new`. */
  function RowRecord(row: TradeRow): (r: TradeRecord)
    ensures "status" in r && r["status"] == Text(StatusName(row.status))
    ensures "completed_at" in r && (Truthy(r["completed_at"]) <==> row.completedAt.Some?)
    ensures "buyer_id" in r && r["buyer_id"] == Text(row.buyerId)
    ensures "seller_id" in r && r["seller_id"] == Text(row.sellerId)
  {
    map[
      "id" := Text(row.id),
      "offer_id" := Text(row.offerId),
      "buyer_id" := Text(row.buyerId),
      "seller_id" := Text(row.sellerId),
      "status" := Text(StatusName(row.status)),
      "crypto_amount" := Number(row.cryptoAmount),
      "fiat_amount" := Number(row.fiatAmount),
      "fee_amount_usd" := Number(row.feeAmountUsd),
      "escrow_contract_address" := Text(row.escrowContractAddress),
      "created_at" := Time(row.createdAt),
      "completed_at" := TimeField(row.completedAt),
      "updated_at" := TimeField(row.updatedAt)
    ]
  }

  /** The subscription states the channel reports. */
  datatype ChannelStatus = Subscribed | TimedOut | Closed | ChannelError

  /** The status callback: `SUBSCRIBED` connects, `CHANNEL_ERROR` disconnects, anything else leaves the flag. */
  function NextConnected(connected: bool, st: ChannelStatus): (r: bool)
    ensures st == Subscribed ==> r
    ensures st == ChannelError ==> !r
    ensures st != Subscribed && st != ChannelError ==> r == connected
  {
    match st
    case Subscribed => true
    case ChannelError => false
    case _ => connected
  }

  /** The flag after a sequence of status callbacks, starting from `false`. */
  function ConnectedAfter(events: seq<ChannelStatus>): bool
    decreases |events|
  {
    if events == [] then false
    else NextConnected(ConnectedAfter(events[..|events| - 1]), events[|events| - 1])
  }

  /** Some `SUBSCRIBED` has been reported and no `CHANNEL_ERROR` since. */
  ghost predicate SubscribedSinceLastError(events: seq<ChannelStatus>)
  {
    exists i :: 0 <= i < |events| && events[i] == Subscribed &&
      forall j :: i < j < |events| ==> events[j] != ChannelError
  }

  /** The view shows "Live" exactly when a subscription was established and no error has been reported since. */
  lemma {:induction false} ConnectedIffSubscribedSinceError(events: seq<ChannelStatus>)
    ensures ConnectedAfter(events) <==> SubscribedSinceLastError(events)
    decreases |events|
  {
    if events != [] {
      var n := |events| - 1;
      var prefix := events[..n];
      ConnectedIffSubscribedSinceError(prefix);
      if events[n] == ChannelError {
        forall i | 0 <= i < |events| && events[i] == Subscribed
          ensures exists j :: i < j < |events| && events[j] == ChannelError
        {
          assert i < n && events[n] == ChannelError;
        }
      } else if events[n] != Subscribed {
        if SubscribedSinceLastError(prefix) {
          var i :| 0 <= i < |prefix| && prefix[i] == Subscribed &&
            forall j :: i < j < |prefix| ==> prefix[j] != ChannelError;
          assert events[i] == Subscribed && forall j :: i < j < |events| ==> events[j] != ChannelError;
        }
        if SubscribedSinceLastError(events) {
          var i :| 0 <= i < |events| && events[i] == Subscribed &&
            forall j :: i < j < |events| ==> events[j] != ChannelError;
          assert i < n;
          assert prefix[i] == Subscribed && forall j :: i < j < |prefix| ==> prefix[j] != ChannelError;
        }
      }
    }
  }

  /** Whatever came before, a `CHANNEL_ERROR` leaves the view disconnected. */
  lemma ErrorDisconnects(events: seq<ChannelStatus>)
    ensures !ConnectedAfter(events + [ChannelError])
  {
    assert (events + [ChannelError])[..|events|] == events;
  }

  /**
   * After the server accepts a request, the notification that carries the
   * updated row makes the client's copy agree with the store on the status
   * and on the completed timeline entry, whatever optimistic or stale
   * status the copy held before.
   */
  lemma ServerUpdateReconciles(local: TradeRecord, trades: map<TradeId, TradeRow>, user: Option<UserId>,
                               body: Option<UpdateStatus.StatusRequest>, env: UpdateStatus.Env)
    requires UpdateStatus.WellFormedStore(trades)
    requires UpdateStatus.Execute(trades, user, body, env).response.Updated?
    ensures var row := UpdateStatus.Execute(trades, user, body, env).response.trade;
      var r := Merge(local, RowRecord(row));
      && r["status"] == Text(body.value.newStatus)
      && (ShowCompletedEntry(r) <==> row.status == Completed)
  {
    UpdateStatus.ExecutePreservesWellFormed(trades, user, body, env);
    var o := UpdateStatus.Execute(trades, user, body, env);
    assert o.trades[body.value.tradeId] == o.response.trade;
  }

  /** The key of the trading partner's profile: the seller for a buyer, the buyer otherwise. */
  function OtherUserKey(role: Role): (key: string)
    ensures key != TradeActions.RoleName(role)
    ensures role == Buyer ==> key == TradeActions.RoleName(Seller)
    ensures role == Seller ==> key == TradeActions.RoleName(Buyer)
  {
    if role == Buyer then "seller" else "buyer"
  }

  /** Payment instructions: only to the buyer, only once escrow is funded, only when the offer has details. */
  function ShowPaymentInstructions(trade: TradeRecord, role: Role, hasDetails: bool): (shown: bool)
    ensures shown ==> role == Buyer && hasDetails
    ensures shown ==> "status" in trade && trade["status"] == Text(StatusName(InProgress))
  {
    "status" in trade && trade["status"] == Text("in_progress") && role == Buyer && hasDetails
  }

  /** The "Trade completed" timeline entry: shown exactly when `completed_at` is present and truthy. */
  function ShowCompletedEntry(trade: TradeRecord): (shown: bool)
    ensures shown ==> "completed_at" in trade && trade["completed_at"] != Null
  {
    "completed_at" in trade && Truthy(trade["completed_at"])
  }

  /** For a delivered row the display guards read the row's own status, role and completion time. */
  lemma GuardsOnRow(row: TradeRow, role: Role, hasDetails: bool)
    ensures ShowPaymentInstructions(RowRecord(row), role, hasDetails) <==>
      row.status == InProgress && role == Buyer && hasDetails
    ensures ShowCompletedEntry(RowRecord(row)) <==> row.completedAt.Some?
    ensures UpdateStatus.WellFormedRow(row) ==> (ShowCompletedEntry(RowRecord(row)) <==> row.status == Completed)
  {
    StatusNameInjective(row.status, InProgress);
  }

  /** The component's state cells.  `channelLog` is every subscription status reported so far. */
  class LiveTradeView {
    const userRole: Role
    var trade: TradeRecord
    var isConnected: bool
    ghost var channelLog: seq<ChannelStatus>

    ghost predicate Valid()
      reads this
    {
      isConnected == ConnectedAfter(channelLog)
    }

    /** The initial render: the server-fetched trade, not yet connected. */
    constructor (initial: TradeRecord, userRole: Role)
      ensures Valid() && trade == initial && this.userRole == userRole
      ensures !isConnected && channelLog == []
    {
      this.userRole := userRole;
      trade := initial;
      isConnected := false;
      channelLog := [];
    }

    /** The `postgres_changes` UPDATE callback. */
    method OnRealtimeUpdate(payloadNew: TradeRecord)
      requires Valid()
      modifies this`trade
      ensures Valid() && trade == Merge(old(trade), payloadNew)
    {
      trade := trade + payloadNew;
    }

    /** The subscription status callback; the held trade is left alone. */
    method OnSubscriptionStatus(st: ChannelStatus)
      requires Valid()
      modifies this`isConnected, this`channelLog
      ensures Valid() && channelLog == old(channelLog) + [st]
      ensures isConnected == NextConnected(old(isConnected), st)
      ensures trade == old(trade)
    {
      if st == Subscribed {
        isConnected := true;
      } else if st == ChannelError {
        isConnected := false;
      }
      assert (channelLog + [st])[..|channelLog|] == channelLog;
      channelLog := channelLog + [st];
    }

    /** handleStatusUpdate, passed to TradeActions as `onStatusUpdate`: the optimistic status write. */
    method HandleStatusUpdate(newStatus: TradeStatus)
      requires Valid()
      modifies this`trade
      ensures Valid() && trade == WithStatus(old(trade), newStatus)
    {
      trade := trade["status" := Text(StatusName(newStatus))];
    }
  }
}
