/**
 * Opening a trade against an offer (src/components/market/StartTradeButton.tsx):
 * an ordered chain of checks, the first failing one deciding, before a
 * `pending` row is inserted.  This is the only place where the buyer is
 * kept distinct from the seller.  Amounts are real numbers; a text that
 * does not parse as a number is None (NaN).  The escrow address (random in
 * the source) and the outcome of the insert are parameters.
 */
module StartTrade {
  import opened Wrappers
  import opened Database

  datatype Offer = Offer(
    id: string,
    userId: UserId,
    cryptoAsset: string,
    fiatCurrency: string,
    pricePerCrypto: real,
    minTradeLimit: real,
    maxTradeLimit: real,
    availableAmount: real)

  /** The record inserted into `trades`. */
  datatype NewTrade = NewTrade(
    offerId: string,
    buyerId: UserId,
    sellerId: UserId,
    status: TradeStatus,
    cryptoAmount: real,
    fiatAmount: real,
    feeAmountUsd: real,
    escrowContractAddress: string)

  /** The error cell's contents; NoError is the empty string. */
  datatype FormError = NoError | OwnOffer | InvalidAmount | OutOfLimits | InsufficientCrypto | InsertFailed

  /** The error texts.  For OutOfLimits the limits and currency are appended in the source; number formatting is not modelled. */
  function Message(e: FormError): (text: string)
    ensures text == "" <==> e == NoError
  {
    match e
    case NoError => ""
    case OwnOffer => "You cannot trade with your own offer"
    case InvalidAmount => "Please enter a valid amount"
    case OutOfLimits => "Amount must be between the offer's limits"
    case InsufficientCrypto => "Insufficient crypto available for this trade amount"
    case InsertFailed => "Failed to create trade. Please try again."
  }

  datatype Decision = RedirectToLogin | Reject(reason: FormError) | Insert(trade: NewTrade)

  /**
   * `cryptoAmount > available_amount` for `cryptoAmount = amount / price`.
   * With a zero price the quotient of a positive amount is +Infinity, which
   * exceeds every available amount.
   */
  predicate ExceedsAvailable(amount: real, offer: Offer)
    requires amount > 0.0
  {
    if offer.pricePerCrypto == 0.0 then true
    else amount / offer.pricePerCrypto > offer.availableAmount
  }

  /** The check chain of handleStartTrade and the row it would insert. */
  function Decide(user: Option<UserId>, offer: Offer, amount: Option<real>, escrow: string): (d: Decision)
    ensures d == RedirectToLogin <==> user.None?
    ensures d.Insert? <==>
      && user.Some? && user.value != offer.userId
      && amount.Some? && amount.value > 0.0
      && offer.minTradeLimit <= amount.value <= offer.maxTradeLimit
      && !ExceedsAvailable(amount.value, offer)
    ensures d.Insert? ==>
      var t := d.trade;
      && t.buyerId == user.value && t.sellerId == offer.userId && t.buyerId != t.sellerId
      && t.offerId == offer.id && t.status == Pending
      && t.fiatAmount == amount.value && t.feeAmountUsd == 0.0
      && t.cryptoAmount * offer.pricePerCrypto == t.fiatAmount
      && t.cryptoAmount <= offer.availableAmount
      && t.escrowContractAddress == escrow
    ensures d.Reject? ==> d.reason in {OwnOffer, InvalidAmount, OutOfLimits, InsufficientCrypto}
  {
    if user.None? then RedirectToLogin
    else if user.value == offer.userId then Reject(OwnOffer)
    else if amount.None? || amount.value <= 0.0 then Reject(InvalidAmount)
    else if amount.value < offer.minTradeLimit || amount.value > offer.maxTradeLimit then Reject(OutOfLimits)
    else if ExceedsAvailable(amount.value, offer) then Reject(InsufficientCrypto)
    else
      var cryptoAmount := amount.value / offer.pricePerCrypto;
      Insert(NewTrade(offer.id, user.value, offer.userId, Pending, cryptoAmount, amount.value, 0.0, escrow))
  }

  /** The checks run in order and the first failing one is reported. */
  lemma FirstFailingCheckWins(user: UserId, offer: Offer, amount: Option<real>, escrow: string)
    ensures user == offer.userId ==> Decide(Some(user), offer, amount, escrow) == Reject(OwnOffer)
    ensures user != offer.userId && (amount.None? || amount.value <= 0.0) ==>
      Decide(Some(user), offer, amount, escrow) == Reject(InvalidAmount)
    ensures (&& user != offer.userId && amount.Some? && amount.value > 0.0
             && (amount.value < offer.minTradeLimit || amount.value > offer.maxTradeLimit)) ==>
      Decide(Some(user), offer, amount, escrow) == Reject(OutOfLimits)
    ensures (&& user != offer.userId && amount.Some? && amount.value > 0.0
             && offer.minTradeLimit <= amount.value <= offer.maxTradeLimit
             && ExceedsAvailable(amount.value, offer)) ==>
      Decide(Some(user), offer, amount, escrow) == Reject(InsufficientCrypto)
  {
  }

  /** An amount equal to either limit is inside the range. */
  lemma LimitsAreInclusive(user: UserId, offer: Offer, escrow: string)
    requires user != offer.userId && offer.minTradeLimit > 0.0 && offer.pricePerCrypto > 0.0
    requires offer.minTradeLimit <= offer.maxTradeLimit
    requires offer.maxTradeLimit / offer.pricePerCrypto <= offer.availableAmount
    ensures Decide(Some(user), offer, Some(offer.minTradeLimit), escrow).Insert?
    ensures Decide(Some(user), offer, Some(offer.maxTradeLimit), escrow).Insert?
  {
    assert offer.minTradeLimit / offer.pricePerCrypto <= offer.maxTradeLimit / offer.pricePerCrypto;
  }

  /** The state cells of the button's modal; `trades` is every row the database accepted. */
  class StartTradeForm {
    const offer: Offer
    var loading: bool
    var error: FormError
    var redirect: Option<string>
    var trades: seq<NewTrade>
    ghost var loadingLog: seq<bool>

    constructor (offer: Offer)
      ensures this.offer == offer && !loading && error == NoError && redirect == None
      ensures trades == [] && loadingLog == []
    {
      this.offer := offer;
      loading := false;
      error := NoError;
      redirect := None;
      trades := [];
      loadingLog := [];
    }

    /**
     * handleStartTrade.  `insertResult` is the id of the created row, or
     * None when the insert reports an error.  `loading` is lowered on every
     * exit.
     */
    method HandleStartTrade(user: Option<UserId>, amount: Option<real>, escrow: string, insertResult: Option<TradeId>)
      modifies this`loading, this`error, this`redirect, this`trades, this`loadingLog
      ensures !loading && loadingLog == old(loadingLog) + [true, false]
      ensures var d := Decide(user, offer, amount, escrow);
        match d
        case RedirectToLogin =>
          redirect == Some("/login") && error == NoError && trades == old(trades)
        case Reject(reason) =>
          error == reason && redirect == old(redirect) && trades == old(trades)
        case Insert(t) =>
          if insertResult.Some? then
            trades == old(trades) + [t] && error == NoError && redirect == Some("/trade/" + insertResult.value)
          else
            trades == old(trades) && error == InsertFailed && redirect == old(redirect)
    {
      loading := true;
      loadingLog := loadingLog + [true];
      error := NoError;
      var d := Decide(user, offer, amount, escrow);
      match d {
        case RedirectToLogin =>
          redirect := Some("/login");
        case Reject(reason) =>
          error := reason;
        case Insert(t) =>
          if insertResult.None? {
            error := InsertFailed;
          } else {
            trades := trades + [t];
            redirect := Some("/trade/" + insertResult.value);
          }
      }
      loading := false;
      loadingLog := loadingLog + [false];
    }
  }

  /** Every row the form manages to insert has a buyer different from its seller and a pending status. */
  lemma InsertedTradesAreSound(user: Option<UserId>, offer: Offer, amount: Option<real>, escrow: string)
    ensures Decide(user, offer, amount, escrow).Insert? ==>
      var t := Decide(user, offer, amount, escrow).trade;
      t.buyerId != t.sellerId && t.status == Pending && t.fiatAmount > 0.0
  {
  }
}
