/** What every marketplace transaction keeps true of the tables. */
module MarketplaceInvariant {
  import opened Wrappers
  import opened Trades
  import opened AddressText
  import opened Sets
  import opened MarketplaceTables

  predicate IsListed(tb: Tables, handle: string, status: ListingStatus) {
    handle in tb.listings && tb.listings[handle].status == status
  }

  /** Expired or canceled: the trade gave its listing back. Every other trade, settled and refunded ones
      included, still occupies it. */
  predicate IsWithdrawn(t: Trade) {
    t.state.Expired? || t.state.Canceled?
  }

  /** Every trade that was not withdrawn holds its handle's listing in the reserved status. */
  ghost predicate ListingsHeld(tb: Tables) {
    forall id :: id in tb.trades && !IsWithdrawn(tb.trades[id]) ==>
      IsListed(tb, tb.trades[id].terms.handle, ReservedListing)
  }

  /** No handle has two trades that were not withdrawn. */
  ghost predicate OneDealPerHandle(tb: Tables) {
    forall i, j :: i in tb.trades && j in tb.trades && i != j && !IsWithdrawn(tb.trades[i]) && !IsWithdrawn(tb.trades[j])
      ==> tb.trades[i].terms.handle != tb.trades[j].terms.handle
  }

  ghost predicate EveryHandleListed(tb: Tables) {
    forall id :: id in tb.trades ==> tb.trades[id].terms.handle in tb.listings
  }

  ghost predicate StatusesWritten(tb: Tables) {
    forall h :: h in tb.listings ==> tb.listings[h].status == Active || tb.listings[h].status == ReservedListing
  }

  ghost predicate ReferencesUnique(tb: Tables) {
    forall i, j :: i in tb.trades && j in tb.trades && i != j ==>
      tb.trades[i].terms.reference != tb.trades[j].terms.reference
  }

  ghost predicate UnpaidCapped(tb: Tables) {
    forall buyer :: |tb.UnpaidOf(buyer)| <= MAX_UNPAID_RESERVATIONS
  }

  ghost predicate TablesOk(tb: Tables) {
    && ListingsHeld(tb)
    && OneDealPerHandle(tb)
    && EveryHandleListed(tb)
    && StatusesWritten(tb)
    && ReferencesUnique(tb)
    && UnpaidCapped(tb)
  }

  lemma EmptyIsOk()
    ensures TablesOk(EMPTY)
  {
    forall buyer
      ensures |EMPTY.UnpaidOf(buyer)| <= MAX_UNPAID_RESERVATIONS
    {
      assert EMPTY.UnpaidOf(buyer) == {};
    }
  }

  /** In tables that are in order a listing can be created exactly for a handle never listed before. */
  lemma ListableOnce(tb: Tables, handle: string, seller: string, price: nat, fee: nat, epoch: string, clock: int)
    requires TablesOk(tb)
    ensures CreateListing(tb, handle, seller, price, fee, epoch, clock).Ok? <==> handle !in tb.listings
  {
  }

  lemma CreateKeepsOrder(tb: Tables, handle: string, seller: string, price: nat, fee: nat, epoch: string, clock: int)
    requires TablesOk(tb) && CreateListing(tb, handle, seller, price, fee, epoch, clock).Ok?
    ensures TablesOk(CreateListing(tb, handle, seller, price, fee, epoch, clock).value)
  {
    var after := CreateListing(tb, handle, seller, price, fee, epoch, clock).value;
    ListableOnce(tb, handle, seller, price, fee, epoch, clock);
    forall buyer
      ensures |after.UnpaidOf(buyer)| <= MAX_UNPAID_RESERVATIONS
    {
      assert after.UnpaidOf(buyer) == tb.UnpaidOf(buyer);
    }
  }

  lemma NonceKeepsOrder(tb: Tables, nonce: string)
    requires TablesOk(tb) && ConsumeNonce(tb, nonce).Ok?
    ensures TablesOk(ConsumeNonce(tb, nonce).value)
  {
    var after := ConsumeNonce(tb, nonce).value;
    assert forall buyer :: after.UnpaidOf(buyer) == tb.UnpaidOf(buyer);
  }

  /** All trades of an active listing were withdrawn. */
  lemma ActiveIsFree(tb: Tables, handle: string, id: string)
    requires TablesOk(tb) && IsListed(tb, handle, Active) && id in tb.trades && tb.trades[id].terms.handle == handle
    ensures IsWithdrawn(tb.trades[id])
  {
  }

  lemma ReserveCaps(tb: Tables, handle: string, id: string, reference: string, buyer: string, clock: int)
    requires UnpaidCapped(tb) && ReserveListing(tb, handle, id, reference, buyer, clock).Ok?
    ensures UnpaidCapped(ReserveListing(tb, handle, id, reference, buyer, clock).value)
  {
    var after := ReserveListing(tb, handle, id, reference, buyer, clock).value;
    CompactNormalize(buyer);
    forall b
      ensures |after.UnpaidOf(b)| <= MAX_UNPAID_RESERVATIONS
    {
      if Compact(b) == Compact(buyer) {
        assert tb.UnpaidOf(b) == tb.UnpaidOf(buyer);
        assert after.UnpaidOf(b) == tb.UnpaidOf(b) + {id};
      } else {
        assert after.UnpaidOf(b) == tb.UnpaidOf(b);
      }
    }
  }

  lemma ReserveKeepsOrder(tb: Tables, handle: string, id: string, reference: string, buyer: string, clock: int)
    requires TablesOk(tb) && ReserveListing(tb, handle, id, reference, buyer, clock).Ok?
    ensures TablesOk(ReserveListing(tb, handle, id, reference, buyer, clock).value)
  {
    var after := ReserveListing(tb, handle, id, reference, buyer, clock).value;
    ReserveCaps(tb, handle, id, reference, buyer, clock);
    forall k | k in tb.trades && tb.trades[k].terms.handle == handle
      ensures IsWithdrawn(tb.trades[k])
    {
      ActiveIsFree(tb, handle, k);
    }
    assert forall k :: k in tb.trades ==> tb.trades[k].terms.reference != reference;
  }

  lemma FewerUnpaid(tb: Tables, after: Tables, id: string)
    requires UnpaidCapped(tb) && id in tb.trades && id in after.trades
    requires after.trades == tb.trades[id := after.trades[id]]
    requires after.trades[id].terms == tb.trades[id].terms
    requires after.trades[id].IsUnpaidReservation() ==> tb.trades[id].IsUnpaidReservation()
    ensures UnpaidCapped(after)
  {
    forall b
      ensures |after.UnpaidOf(b)| <= MAX_UNPAID_RESERVATIONS
    {
      assert after.UnpaidOf(b) <= tb.UnpaidOf(b);
      SubsetSize(after.UnpaidOf(b), tb.UnpaidOf(b));
    }
  }

  lemma ReleaseKeepsOrder(tb: Tables, id: string, to: TradeState, clock: int)
    requires TablesOk(tb) && (to == Expired || to == Canceled) && ReleaseUnpaid(tb, id, to, clock).Ok?
    ensures TablesOk(ReleaseUnpaid(tb, id, to, clock).value)
  {
    var after := ReleaseUnpaid(tb, id, to, clock).value;
    FewerUnpaid(tb, after, id);
  }

  /** In tables that are in order every overdue reservation has its listing row: the expiry loop closes exactly the
      unpaid reservations whose deadline has come. */
  lemma OverdueAreExpirable(tb: Tables, now: int, clock: int)
    requires EveryHandleListed(tb)
    ensures Expirable(tb, now) == tb.Overdue(now)
    ensures forall id :: id in tb.trades ==>
      var t, t' := tb.trades[id], AfterExpiry(tb, now, clock).trades[id];
      if (t.state.Reserved? || t.state.AwaitingDeposit?) && t.deposit.txHash == "" && 0 < t.terms.depositDeadline <= now
      then t'.state == Expired else t' == t
  {
    DueExpire(tb, now, clock);
    forall id | id in tb.trades
      ensures ExpiresWhenDue(tb, AfterExpiry(tb, now, clock), id, now, clock)
    {
    }
  }

  /** A row may change state as long as it is not withdrawn and does not become unpaid again. */
  lemma RowKeepsOrder(tb: Tables, id: string, t: Trade)
    requires TablesOk(tb) && id in tb.trades
    requires t.terms == tb.trades[id].terms
    requires !IsWithdrawn(t) && !IsWithdrawn(tb.trades[id])
    requires t.IsUnpaidReservation() ==> tb.trades[id].IsUnpaidReservation()
    ensures TablesOk(tb.(trades := tb.trades[id := t]))
  {
    FewerUnpaid(tb, tb.(trades := tb.trades[id := t]), id);
  }

  // ---- One call and another ----

  /** A reservation made at some time and unpaid since expires, its listing active again, exactly in a sweep half an
      hour later or more; before that its row stays as it is. */
  lemma ReservationExpiresIff(tb: Tables, handle: string, id: string, reference: string, buyer: string, made: int,
                              later: Tables, now: int, clock: int)
    requires made > 0 && ReserveListing(tb, handle, id, reference, buyer, made).Ok?
    requires TablesOk(later) && id in later.trades
    requires later.trades[id].terms == ReserveListing(tb, handle, id, reference, buyer, made).value.trades[id].terms
    requires later.trades[id].deposit.txHash == "" && (later.trades[id].state.Reserved? || later.trades[id].state.AwaitingDeposit?)
    ensures var after := AfterExpiry(later, now, clock);
      && id in after.trades
      && (now >= made + 1800 ==> after.trades[id].state == Expired && IsListed(after, handle, Active))
      && (now < made + 1800 ==> after.trades[id] == later.trades[id])
  {
    DueExpire(later, now, clock);
    assert ExpiresWhenDue(later, AfterExpiry(later, now, clock), id, now, clock);
  }

  /** A sweep never touches a trade that has a deposit or has gone on. */
  lemma PaidNeverExpires(tb: Tables, id: string, now: int, clock: int)
    requires id in tb.trades
    requires tb.trades[id].deposit.txHash != "" || !(tb.trades[id].state.Reserved? || tb.trades[id].state.AwaitingDeposit?)
    ensures var after := AfterExpiry(tb, now, clock); id in after.trades && after.trades[id] == tb.trades[id]
  {
    DueExpire(tb, now, clock);
    assert ExpiresWhenDue(tb, AfterExpiry(tb, now, clock), id, now, clock);
  }

  /** The trades a buyer, however spelled, has reserved and not paid for. */
  ghost function ReservedBy(tb: Tables, buyer: string): set<string> {
    set k | k in tb.trades && (tb.trades[k].state.Reserved? || tb.trades[k].state.AwaitingDeposit?)
            && tb.trades[k].deposit.txHash == "" && Compact(tb.trades[k].terms.buyer) == Compact(buyer)
  }

  /** Reserving succeeds exactly for an active listing, a fresh id and reference, and a buyer with fewer than three
      unpaid reservations. */
  lemma ReservableIff(tb: Tables, handle: string, id: string, reference: string, buyer: string, clock: int)
    ensures ReserveListing(tb, handle, id, reference, buyer, clock).Ok? <==>
      && handle in tb.listings && tb.listings[handle].status == Active && id !in tb.trades
      && (forall k :: k in tb.trades ==> tb.trades[k].terms.reference != reference)
      && |ReservedBy(tb, buyer)| < 3
  {
    assert tb.UnpaidOf(buyer) == ReservedBy(tb, buyer);
    assert tb.UsesReference(reference) <==> exists k :: k in tb.trades && tb.trades[k].terms.reference == reference;
  }

  /** Withdrawing a reservation undoes it: the listing is what it was before, and only the closed trade is left. */
  lemma WithdrawalUndoes(tb: Tables, handle: string, id: string, reference: string, buyer: string, made: int, clock: int)
    requires ReserveListing(tb, handle, id, reference, buyer, made).Ok?
    ensures var reserved := ReserveListing(tb, handle, id, reference, buyer, made).value;
            var r := ReleaseUnpaid(reserved, id, Canceled, clock);
      && r.Ok? && r.value.listings == tb.listings && r.value.nonces == tb.nonces
      && r.value.trades == tb.trades[id := r.value.trades[id]] && r.value.trades[id].state == Canceled
  {
    var reserved := ReserveListing(tb, handle, id, reference, buyer, made).value;
    var r := ReleaseUnpaid(reserved, id, Canceled, clock);
    assert r.value.listings == tb.listings;
    assert r.value.trades == tb.trades[id := r.value.trades[id]];
  }

  /** Listing succeeds exactly where no row is active or reserved and no trade of the handle is unfinished; it writes that
      row as asked, the seller in compact form, and touches nothing else. */
  lemma ListableIff(tb: Tables, handle: string, seller: string, price: nat, fee: nat, epoch: string, clock: int)
    ensures var r := CreateListing(tb, handle, seller, price, fee, epoch, clock);
      && (r.Ok? <==>
            && (handle in tb.listings ==> tb.listings[handle].status != Active && tb.listings[handle].status != ReservedListing)
            && forall id :: id in tb.trades && tb.trades[id].terms.handle == handle ==>
                 var state := tb.trades[id].state; state.Expired? || state.Canceled? || state.Settled? || state.Refunded?)
      && (r.Ok? ==>
            && r.value.listings == tb.listings[handle := Listing(handle, Compact(seller), price, fee, Active, epoch, clock)]
            && r.value.trades == tb.trades && r.value.nonces == tb.nonces)
  {
    if id :| id in tb.trades && tb.trades[id].terms.handle == handle && tb.trades[id].IsOpen() {
      assert tb.HasOpenTrade(handle);
    }
  }

  /** A fresh trade has recorded nothing yet, and reserves its listing and no other. */
  lemma ReservationStarts(tb: Tables, handle: string, id: string, reference: string, buyer: string, clock: int)
    requires ReserveListing(tb, handle, id, reference, buyer, clock).Ok?
    ensures var after := ReserveListing(tb, handle, id, reference, buyer, clock).value;
      && id in after.trades && after.trades == tb.trades[id := after.trades[id]]
      && after.trades[id] == Trade(after.trades[id].terms, Reserved, 1, clock, "", Deposit("", 0), "", "", Attempt(0, ""), Attempt(0, ""))
      && after.listings == tb.listings[handle := tb.listings[handle].(status := ReservedListing)] && after.nonces == tb.nonces
  {
  }
}
