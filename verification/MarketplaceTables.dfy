/** The marketplace tables and what each transaction does to them (backend/marketplace_store.go). */
module MarketplaceTables {
  import opened Wrappers
  import opened Trades
  import opened AddressText

  datatype StoreError =
    | NonceUsed | ActiveListingExists | ListingReserved | OpenTradeExists
    | NoActiveListing | TradeIdInUse | ReferenceInUse | TooManyUnpaid
    | NoTrade | NotUnpaid | NotAllowed | NoListing
    | WrongState(found: TradeState) | AlreadyAttempted

  /** The three tables: listings by handle, trades by id, consumed nonces. */
  datatype Tables = Tables(
    listings: map<string, Listing>, trades: map<string, Trade>, nonces: set<string>)
  {
    predicate HasOpenTrade(handle: string) {
      exists id :: id in trades && trades[id].terms.handle == handle && trades[id].IsOpen()
    }

    predicate UsesReference(reference: string) {
      exists id :: id in trades && trades[id].terms.reference == reference
    }

    /** Ids of the unpaid reservations of one buyer, addresses compared in compact form. */
    function UnpaidOf(buyer: string): set<string> {
      set id | id in trades && trades[id].IsUnpaidReservation() && Compact(trades[id].terms.buyer) == Compact(buyer)
    }

    function Overdue(now: int): set<string> {
      set id | id in trades && trades[id].IsUnpaidReservation() && 0 < trades[id].terms.depositDeadline <= now
    }

    function InState(s: TradeState): set<string> {
      set id | id in trades && trades[id].state == s
    }

  }

  type Result = Outcome<Tables, StoreError>

  const EMPTY := Tables(map[], map[], {})

  // ---- What each transaction does to the tables ----

  function ConsumeNonce(s: Tables, nonce: string): Result {
    if nonce in s.nonces then Fail(NonceUsed) else Ok(s.(nonces := s.nonces + {nonce}))
  }

  function CreateListing(s: Tables, handle: string, seller: string, price: nat, fee: nat,
                         epoch: string, clock: int): Result
  {
    if handle in s.listings && s.listings[handle].status == Active then Fail(ActiveListingExists)
    else if handle in s.listings && s.listings[handle].status == ReservedListing then Fail(ListingReserved)
    else if s.HasOpenTrade(handle) then Fail(OpenTradeExists)
    else Ok(s.(listings := s.listings[handle := Listing(handle, Compact(seller), price, fee, Active, epoch, clock)]))
  }

  function NewTrade(l: Listing, reference: string, buyer: string, clock: int): Trade {
    Trade(Terms(reference, l.handle, Compact(buyer), Compact(l.seller), l.price, l.fee,
                clock + DEPOSIT_DEADLINE_SECONDS, clock),
          Reserved, 1, clock, "", Deposit("", 0), "", "", Attempt(0, ""), Attempt(0, ""))
  }

  function ReserveListing(s: Tables, handle: string, id: string, reference: string, buyer: string, clock: int): Result {
    if handle !in s.listings || s.listings[handle].status != Active then Fail(NoActiveListing)
    else if id in s.trades then Fail(TradeIdInUse)
    else if s.UsesReference(reference) then Fail(ReferenceInUse)
    else if |s.UnpaidOf(buyer)| >= MAX_UNPAID_RESERVATIONS then Fail(TooManyUnpaid)
    else
      var l := s.listings[handle].(handle := handle);
      Ok(s.(listings := s.listings[handle := s.listings[handle].(status := ReservedListing)],
            trades := s.trades[id := NewTrade(l, reference, buyer, clock)]))
  }

  /** One state change of one trade: the new row with its version and update time. */
  function Moved(t: Trade, to: TradeState, m: Mutation, clock: int): (r: Trade)
    ensures r.terms == t.terms && r.state == to
  {
    Mutate(t, m).(state := to, version := t.version + 1, updatedAt := clock)
  }

  function ReleaseUnpaid(s: Tables, id: string, to: TradeState, clock: int): Result {
    if id !in s.trades then Fail(NoTrade)
    else
      var t := s.trades[id];
      if !t.IsUnpaidReservation() then Fail(NotUnpaid)
      else if !CanTransitionTo(t.state, to) then Fail(NotAllowed)
      else if t.terms.handle !in s.listings then Fail(NoListing)
      else Ok(s.(listings := s.listings[t.terms.handle := s.listings[t.terms.handle].(status := Active)],
                 trades := s.trades[id := Moved(t, to, NoMutation, clock)]))
  }

  function Transition(s: Tables, id: string, from: TradeState, to: TradeState, m: Mutation, clock: int): Result {
    if id !in s.trades then Fail(NoTrade)
    else
      var t := s.trades[id];
      if t.state != from then Fail(WrongState(t.state))
      else if !CanTransitionTo(from, to) then Fail(NotAllowed)
      else Ok(s.(trades := s.trades[id := Moved(t, to, m, clock)]))
  }

  function MarkPayoutAttempt(s: Tables, id: string, attemptedAt: int, clock: int): Result {
    if id !in s.trades then Fail(NoTrade)
    else
      var t := s.trades[id];
      if t.state != SettlementPending then Fail(WrongState(t.state))
      else if t.payout.at != 0 then Fail(AlreadyAttempted)
      else Ok(s.(trades := s.trades[id := t.(payout := t.payout.(at := attemptedAt), version := t.version + 1, updatedAt := clock)]))
  }

  function MarkRefundAttempt(s: Tables, id: string, attemptedAt: int, clock: int): Result {
    if id !in s.trades then Fail(NoTrade)
    else
      var t := s.trades[id];
      if t.state != RefundPending then Fail(WrongState(t.state))
      else if t.refund.at != 0 then Fail(AlreadyAttempted)
      else Ok(s.(trades := s.trades[id := t.(refund := t.refund.(at := attemptedAt), version := t.version + 1, updatedAt := clock)]))
  }

  predicate Frees(s: Tables, gone: set<string>, handle: string) {
    exists id :: id in gone && id in s.trades && s.trades[id].terms.handle == handle
  }

  function ExpiredTrades(s: Tables, gone: set<string>, clock: int): map<string, Trade> {
    map id | id in s.trades :: if id in gone then Moved(s.trades[id], Expired, NoMutation, clock) else s.trades[id]
  }

  function FreedListings(s: Tables, gone: set<string>): map<string, Listing> {
    map h | h in s.listings :: if Frees(s, gone, h) then s.listings[h].(status := Active) else s.listings[h]
  }

  /** The reservations in `gone` closed as expired, and their listings reopened. */
  function ExpiredTables(s: Tables, gone: set<string>, clock: int): Tables {
    s.(trades := ExpiredTrades(s, gone, clock), listings := FreedListings(s, gone))
  }

  function Expirable(s: Tables, now: int): set<string> {
    set id | id in s.Overdue(now) && s.trades[id].terms.handle in s.listings
  }

  /** The tables after a whole expiry sweep. */
  function AfterExpiry(s: Tables, now: int, clock: int): Tables {
    ExpiredTables(s, Expirable(s, now), clock)
  }

  /** What a sweep makes of one row: an unpaid reservation past its deadline, with a listing row, expires and gives the
      listing back; every other row stays. */
  ghost predicate ExpiresWhenDue(before: Tables, after: Tables, id: string, now: int, clock: int)
    requires id in before.trades
  {
    var t := before.trades[id];
    && id in after.trades
    && if (t.state.Reserved? || t.state.AwaitingDeposit?) && t.deposit.txHash == ""
          && 0 < t.terms.depositDeadline && t.terms.depositDeadline <= now && t.terms.handle in before.listings
       then
         && after.trades[id] == t.(state := Expired, version := t.version + 1, updatedAt := clock)
         && t.terms.handle in after.listings
         && after.listings[t.terms.handle] == before.listings[t.terms.handle].(status := Active)
       else after.trades[id] == t
  }

  lemma DueExpire(s: Tables, now: int, clock: int)
    ensures forall id :: id in s.trades ==> ExpiresWhenDue(s, AfterExpiry(s, now, clock), id, now, clock)
    ensures Expirable(s, now) == set id | id in s.trades && AfterExpiry(s, now, clock).trades[id] != s.trades[id]
  {
    forall id | id in s.trades
      ensures ExpiresWhenDue(s, AfterExpiry(s, now, clock), id, now, clock)
    {
      if id in Expirable(s, now) {
        assert Frees(s, Expirable(s, now), s.trades[id].terms.handle);
      }
    }
  }

  lemma FreeOne(s: Tables, gone: set<string>, id: string)
    requires id in s.trades && s.trades[id].terms.handle in s.listings
    ensures var h := s.trades[id].terms.handle;
            FreedListings(s, gone)[h := FreedListings(s, gone)[h].(status := Active)] == FreedListings(s, gone + {id})
  {
    var freed := s.trades[id].terms.handle;
    assert Frees(s, gone + {id}, freed);
    forall h | h in s.listings && h != freed
      ensures Frees(s, gone, h) <==> Frees(s, gone + {id}, h)
    {
      if Frees(s, gone + {id}, h) {
        var k :| k in gone + {id} && k in s.trades && s.trades[k].terms.handle == h;
        assert k in gone;
      }
      if Frees(s, gone, h) {
        var k :| k in gone && k in s.trades && s.trades[k].terms.handle == h;
        assert k in gone + {id};
      }
    }
  }

  /** Closing one more overdue reservation: it succeeds exactly when the listing row exists. */
  lemma ExpireOne(s: Tables, gone: set<string>, id: string, now: int, clock: int)
    requires id in s.Overdue(now) && id !in gone
    ensures var r := ReleaseUnpaid(ExpiredTables(s, gone, clock), id, Expired, clock);
            if id in Expirable(s, now) then r == Ok(ExpiredTables(s, gone + {id}, clock)) else r.Fail?
  {
    var before := ExpiredTables(s, gone, clock);
    assert before.trades[id] == s.trades[id];
    if id in Expirable(s, now) {
      FreeOne(s, gone, id);
      assert before.trades[id := Moved(s.trades[id], Expired, NoMutation, clock)] == ExpiredTrades(s, gone + {id}, clock);
    }
  }

  lemma ExpireNone(s: Tables, now: int, clock: int)
    ensures Expirable(s, now) - s.Overdue(now) == {}
    ensures ExpiredTables(s, {}, clock) == s
  {
    assert ExpiredTrades(s, {}, clock) == s.trades;
    assert FreedListings(s, {}) == s.listings;
  }

  /** One turn of the expiry loop, in terms of the overdue ids still to be tried. */
  lemma ExpireNext(s: Tables, stale: set<string>, id: string, now: int, clock: int)
    requires id in s.Overdue(now) && id in stale
    ensures var gone, next := Expirable(s, now) - stale, Expirable(s, now) - (stale - {id});
            var r := ReleaseUnpaid(ExpiredTables(s, gone, clock), id, Expired, clock);
            if r.Ok? then r.value == ExpiredTables(s, next, clock) && |next| == |gone| + 1 else next == gone
  {
    var gone, next := Expirable(s, now) - stale, Expirable(s, now) - (stale - {id});
    ExpireOne(s, gone, id, now, clock);
    if id in Expirable(s, now) {
      assert next == gone + {id};
    } else {
      assert next == gone;
    }
  }

  /** How a transaction relates the tables before and after: commit what it computed, or change nothing. */
  ghost predicate Commits(want: Result, before: Tables, after: Tables, got: Outcome<(), StoreError>) {
    match want
    case Ok(s) => got == Ok(()) && after == s
    case Fail(e) => got == Fail(e) && after == before
  }
}
