/**
 * The enums and the trade row of the marketplace database
 * (src/types/database.ts), and the exact strings under which trade
 * statuses travel through storage and the wire.
 */
module Database {
  import opened Wrappers

  /** OfferStatus: the four states of a published offer. */
  datatype OfferStatus = Active | Paused | OfferCompleted | Closed

  /** TradeStatus: the six states of a trade. */
  datatype TradeStatus = Pending | InProgress | PaymentSent | Completed | Disputed | Cancelled

  /** TrustTier: the four tiers of a user's precomputed trust score. */
  datatype TrustTier = Unverified | Bronze | Silver | Gold

  /** The two parties of a trade, as `'buyer' | 'seller'` in the components. */
  datatype Role = Buyer | Seller

  type UserId = string
  type TradeId = string

  /** Timestamps are opaque instants; the ISO rendering is not modelled. */
  type Timestamp = nat

  /**
   * A row of the `trades` table.  The `Trade` interface has no
   * `updated_at`, but the status executor writes one, so the row carries it
   * explicitly.  Nothing in the type forces `buyerId != sellerId`.
   */
  datatype TradeRow = TradeRow(
    id: TradeId,
    offerId: string,
    buyerId: UserId,
    sellerId: UserId,
    status: TradeStatus,
    cryptoAmount: real,
    fiatAmount: real,
    feeAmountUsd: real,
    escrowContractAddress: string,
    createdAt: Timestamp,
    completedAt: Option<Timestamp>,
    updatedAt: Option<Timestamp>)

  /** Every trade status, each once. */
  const AllTradeStatuses: seq<TradeStatus> :=
    [Pending, InProgress, PaymentSent, Completed, Disputed, Cancelled]

  /** Every offer status, each once. */
  const AllOfferStatuses: seq<OfferStatus> := [Active, Paused, OfferCompleted, Closed]

  /** Every trust tier, each once. */
  const AllTrustTiers: seq<TrustTier> := [Unverified, Bronze, Silver, Gold]

  /** The status vocabulary: the exact string stored and sent for each status. */
  function StatusName(s: TradeStatus): (name: string)
    ensures |name| > 0
  {
    match s
    case Pending => "pending"
    case InProgress => "in_progress"
    case PaymentSent => "payment_sent"
    case Completed => "completed"
    case Disputed => "disputed"
    case Cancelled => "cancelled"
  }

  /** Reads a status string back; any other string is not a status. */
  function ParseStatus(name: string): (r: Option<TradeStatus>)
    ensures r.Some? ==> StatusName(r.value) == name
  {
    if name == "pending" then Some(Pending)
    else if name == "in_progress" then Some(InProgress)
    else if name == "payment_sent" then Some(PaymentSent)
    else if name == "completed" then Some(Completed)
    else if name == "disputed" then Some(Disputed)
    else if name == "cancelled" then Some(Cancelled)
    else None
  }

  /** The vocabulary round-trips: a name parses back to exactly its status, and only names parse. */
  lemma StatusNameRoundTrip(s: TradeStatus, name: string)
    ensures ParseStatus(StatusName(s)) == Some(s)
    ensures ParseStatus(name) == Some(s) <==> name == StatusName(s)
  {
  }

  /** Distinct statuses have distinct names. */
  lemma StatusNameInjective(s: TradeStatus, t: TradeStatus)
    ensures StatusName(s) == StatusName(t) <==> s == t
  {
    StatusNameRoundTrip(s, StatusName(t));
  }

  /** TradeStatus has exactly six values, OfferStatus and TrustTier four each. */
  lemma EnumsAreComplete(s: TradeStatus, o: OfferStatus, t: TrustTier)
    ensures |AllTradeStatuses| == 6 && s in AllTradeStatuses
    ensures forall i, j :: 0 <= i < j < |AllTradeStatuses| ==> AllTradeStatuses[i] != AllTradeStatuses[j]
    ensures |AllOfferStatuses| == 4 && o in AllOfferStatuses
    ensures forall i, j :: 0 <= i < j < |AllOfferStatuses| ==> AllOfferStatuses[i] != AllOfferStatuses[j]
    ensures |AllTrustTiers| == 4 && t in AllTrustTiers
    ensures forall i, j :: 0 <= i < j < |AllTrustTiers| ==> AllTrustTiers[i] != AllTrustTiers[j]
  {
  }

  /** The row type admits a trade whose buyer is its seller; only trade creation rules that out. */
  lemma RowTypeAllowsSelfTrade()
    ensures exists row: TradeRow :: row.buyerId == row.sellerId
  {
    var row := TradeRow("t", "o", "u", "u", Pending, 1.0, 1.0, 0.0, "", 0, None, None);
    assert row.buyerId == row.sellerId;
  }
}
