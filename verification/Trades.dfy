/** Listings, trades and the trade state table (backend/marketplace.go). */
module Trades {

  datatype TradeState =
    | Reserved | AwaitingDeposit | DepositFinalizing | Funded
    | AwaitingRelease | ReleaseConfirming | AwaitingClaim | ClaimConfirming
    | SettlementPending | Settled
    | FailedAfterRelease | RefundPending | Refunded
    | ManualReview | Expired | Canceled

  const DEPOSIT_DEADLINE_SECONDS := 30 * 60
  const MAX_UNPAID_RESERVATIONS := 3

  /** The transition table, row by row. */
  predicate Allowed(s: TradeState, next: TradeState) {
    match s
    case Reserved => next.AwaitingDeposit? || next.RefundPending? || next.ManualReview? || next.Expired? || next.Canceled?
    case AwaitingDeposit => next.DepositFinalizing? || next.RefundPending? || next.ManualReview? || next.Expired? || next.Canceled?
    case DepositFinalizing => next.Funded? || next.ManualReview?
    case Funded => next.AwaitingRelease? || next.RefundPending? || next.ManualReview?
    case AwaitingRelease => next.ReleaseConfirming? || next.RefundPending? || next.ManualReview?
    case ReleaseConfirming => next.AwaitingClaim? || next.FailedAfterRelease? || next.ManualReview?
    case AwaitingClaim => next.ClaimConfirming? || next.FailedAfterRelease? || next.ManualReview?
    case ClaimConfirming => next.SettlementPending? || next.FailedAfterRelease? || next.ManualReview?
    case SettlementPending => next.Settled? || next.ManualReview?
    case FailedAfterRelease => next.RefundPending? || next.ManualReview?
    case RefundPending => next.Refunded? || next.ManualReview?
    case _ => false
  }

  /** The same table by target: where each state can be reached from. */
  lemma AllowedByTarget(s: TradeState, next: TradeState)
    ensures Allowed(s, next) <==>
      match next
      case Reserved => false
      case AwaitingDeposit => s.Reserved?
      case DepositFinalizing => s.AwaitingDeposit?
      case Funded => s.DepositFinalizing?
      case AwaitingRelease => s.Funded?
      case ReleaseConfirming => s.AwaitingRelease?
      case AwaitingClaim => s.ReleaseConfirming?
      case ClaimConfirming => s.AwaitingClaim?
      case SettlementPending => s.ClaimConfirming?
      case Settled => s.SettlementPending?
      case FailedAfterRelease => s.ReleaseConfirming? || s.AwaitingClaim? || s.ClaimConfirming?
      case RefundPending => s.Reserved? || s.AwaitingDeposit? || s.Funded? || s.AwaitingRelease? || s.FailedAfterRelease?
      case Refunded => s.RefundPending?
      case ManualReview => !(s.Settled? || s.Refunded? || s.ManualReview? || s.Expired? || s.Canceled?)
      case Expired => s.Reserved? || s.AwaitingDeposit?
      case Canceled => s.Reserved? || s.AwaitingDeposit?
  {
  }

  predicate CanTransitionTo(s: TradeState, next: TradeState) {
    s == next || Allowed(s, next)
  }

  /** Nothing in the program writes `Sold` or `CanceledListing`; the column allows them. */
  datatype ListingStatus = Active | ReservedListing | Sold | CanceledListing

  datatype Listing = Listing(
    handle: string, seller: string, price: nat, fee: nat,
    status: ListingStatus, ownershipEpochTxHash: string, createdAt: int)

  /** What a trade is about; nothing changes these columns after the insert. The id is the table's key. */
  datatype Terms = Terms(
    reference: string, handle: string, buyer: string, seller: string,
    price: nat, fee: nat, depositDeadline: int, createdAt: int)

  datatype Deposit = Deposit(txHash: string, blockHeight: nat)

  /** A marked signing attempt and the hash recorded for it; zero and "" until then. */
  datatype Attempt = Attempt(at: int, txHash: string)

  datatype Trade = Trade(
    terms: Terms, state: TradeState, version: nat, updatedAt: int, escrowAddress: string,
    deposit: Deposit, releaseTxHash: string, claimTxHash: string, payout: Attempt, refund: Attempt)
  {
    predicate IsUnpaidReservation() {
      (state.Reserved? || state.AwaitingDeposit?) && deposit.txHash == ""
    }

    /** Not closed: the states the relisting query of CreateListing looks for. */
    predicate IsOpen() {
      !(state.Expired? || state.Canceled? || state.Settled? || state.Refunded?)
    }

    /** A deposit has been recorded and has not left escrow (`heldStates`). */
    predicate IsHeld() {
      || state.DepositFinalizing? || state.Funded? || state.AwaitingRelease? || state.ReleaseConfirming?
      || state.AwaitingClaim? || state.ClaimConfirming? || state.SettlementPending?
      || state.FailedAfterRelease? || state.RefundPending?
    }

    /** An attempt was marked and no transaction hash was ever recorded for it. */
    predicate IsStuck() {
      || (payout.at != 0 && payout.txHash == "")
      || (refund.at != 0 && refund.txHash == "")
    }
  }

  /** A trade as the store's queries return it, with its key. */
  datatype Row = Row(id: string, trade: Trade)

  /** The mutations the callers of Transition pass along with a state change. */
  datatype Mutation =
    | NoMutation
    | SetEscrowAddress(address: string)
    | SetDeposit(deposit: Deposit)
    | SetRelease(txHash: string)
    | SetClaim(txHash: string)
    | SetPayout(txHash: string)
    | SetRefund(txHash: string)

  function Mutate(t: Trade, m: Mutation): (r: Trade)
    ensures r.terms == t.terms
  {
    match m
    case NoMutation => t
    case SetEscrowAddress(a) => t.(escrowAddress := a)
    case SetDeposit(d) => t.(deposit := d)
    case SetRelease(h) => t.(releaseTxHash := h)
    case SetClaim(h) => t.(claimTxHash := h)
    case SetPayout(h) => t.(payout := t.payout.(txHash := h))
    case SetRefund(h) => t.(refund := t.refund.(txHash := h))
  }
}
