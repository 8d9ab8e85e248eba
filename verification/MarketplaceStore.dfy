/** The marketplace store over mutable tables, each transaction proved against its table function
    (backend/marketplace_store.go). */
module MarketplaceStore {
  import opened Wrappers
  import opened Trades
  import opened AddressText
  import opened T = MarketplaceTables

  ghost function IdsOf(rows: seq<Row>): set<string> {
    set i | 0 <= i < |rows| :: rows[i].id
  }

  lemma IdsOfMore(rows: seq<Row>, row: Row)
    ensures IdsOf(rows + [row]) == IdsOf(rows) + {row.id}
  {
    assert (rows + [row])[|rows|] == row;
    assert forall i :: 0 <= i < |rows| ==> (rows + [row])[i] == rows[i];
  }

  /** All rows in one state, each once. */
  ghost predicate AreRowsOf(rows: seq<Row>, tb: T.Tables, s: TradeState) {
    && (forall i :: 0 <= i < |rows| ==> rows[i].id in tb.trades && rows[i].trade == tb.trades[rows[i].id] && rows[i].trade.state == s)
    && (forall i, j :: 0 <= i < j < |rows| ==> rows[i].id != rows[j].id)
    && (forall id :: id in tb.trades && tb.trades[id].state == s ==> id in IdsOf(rows))
  }

  class Store {
    var listings: map<string, Listing>
    var trades: map<string, Trade>
    var nonces: set<string>

    function State(): Tables reads this {
      Tables(listings, trades, nonces)
    }

    constructor ()
      ensures State() == EMPTY
    {
      listings, trades, nonces := map[], map[], {};
    }

    method ConsumeNonce(nonce: string) returns (r: Outcome<(), StoreError>)
      modifies this
      ensures Commits(T.ConsumeNonce(old(State()), nonce), old(State()), State(), r)
    {
      if nonce in nonces {
        return Fail(NonceUsed);
      }
      nonces := nonces + {nonce};
      r := Ok(());
    }

    method CreateListing(handle: string, seller: string, price: nat, fee: nat, epoch: string, clock: int)
      returns (r: Outcome<(), StoreError>)
      modifies this
      ensures Commits(T.CreateListing(old(State()), handle, seller, price, fee, epoch, clock),
                      old(State()), State(), r)
    {
      if handle in listings {
        if listings[handle].status == Active {
          return Fail(ActiveListingExists);
        }
        if listings[handle].status == ReservedListing {
          return Fail(ListingReserved);
        }
      }
      if State().HasOpenTrade(handle) {
        return Fail(OpenTradeExists);
      }
      listings := listings[handle := Listing(handle, Compact(seller), price, fee, Active, epoch, clock)];
      r := Ok(());
    }

    method ReserveListing(handle: string, id: string, reference: string, buyer: string, clock: int)
      returns (r: Outcome<(), StoreError>)
      modifies this
      ensures Commits(T.ReserveListing(old(State()), handle, id, reference, buyer, clock),
                      old(State()), State(), r)
    {
      if handle !in listings {
        return Fail(NoActiveListing);
      }
      var listing := listings[handle];
      if listing.status != Active {
        return Fail(NoActiveListing);
      }
      if id in trades {
        return Fail(TradeIdInUse);
      }
      if State().UsesReference(reference) {
        return Fail(ReferenceInUse);
      }
      if |State().UnpaidOf(buyer)| >= MAX_UNPAID_RESERVATIONS {
        return Fail(TooManyUnpaid);
      }
      var trade := NewTrade(listing.(handle := handle), reference, buyer, clock);
      listings := listings[handle := listing.(status := ReservedListing)];
      trades := trades[id := trade];
      r := Ok(());
    }

    method ReleaseUnpaid(id: string, to: TradeState, clock: int) returns (r: Outcome<(), StoreError>)
      modifies this
      ensures Commits(T.ReleaseUnpaid(old(State()), id, to, clock), old(State()), State(), r)
    {
      if id !in trades {
        return Fail(NoTrade);
      }
      var trade := trades[id];
      if !trade.IsUnpaidReservation() {
        return Fail(NotUnpaid);
      }
      if !CanTransitionTo(trade.state, to) {
        return Fail(NotAllowed);
      }
      if trade.terms.handle !in listings {
        return Fail(NoListing);
      }
      trades := trades[id := Moved(trade, to, NoMutation, clock)];
      listings := listings[trade.terms.handle := listings[trade.terms.handle].(status := Active)];
      r := Ok(());
    }

    method CancelUnpaidReservation(id: string, clock: int) returns (r: Outcome<(), StoreError>)
      modifies this
      ensures Commits(T.ReleaseUnpaid(old(State()), id, Canceled, clock), old(State()), State(), r)
    {
      r := ReleaseUnpaid(id, Canceled, clock);
    }

    /** Closes exactly the overdue unpaid reservations whose listing row exists, and counts them. */
    method ExpireStaleReservations(now: int, clock: int) returns (expired: nat)
      modifies this
      ensures State() == AfterExpiry(old(State()), now, clock)
      ensures forall id :: id in old(trades) ==> ExpiresWhenDue(old(State()), State(), id, now, clock)
      ensures expired == |set id | id in old(trades) && trades[id] != old(trades)[id]|
    {
      var stale := State().Overdue(now);
      expired := 0;
      ghost var before := State();
      ExpireNone(before, now, clock);
      while stale != {}
        invariant stale <= before.Overdue(now)
        invariant State() == ExpiredTables(before, Expirable(before, now) - stale, clock)
        invariant expired == |Expirable(before, now) - stale|
        decreases stale
      {
        var id :| id in stale;
        ExpireNext(before, stale, id, now, clock);
        var r := ReleaseUnpaid(id, Expired, clock);
        if r.Ok? {
          expired := expired + 1;
        }
        stale := stale - {id};
      }
      assert Expirable(before, now) - stale == Expirable(before, now);
      DueExpire(before, now, clock);
    }

    method Transition(id: string, from: TradeState, to: TradeState, m: Mutation, clock: int)
      returns (r: Outcome<(), StoreError>)
      modifies this
      ensures Commits(T.Transition(old(State()), id, from, to, m, clock), old(State()), State(), r)
    {
      if id !in trades {
        return Fail(NoTrade);
      }
      var trade := trades[id];
      if trade.state != from {
        return Fail(WrongState(trade.state));
      }
      if !CanTransitionTo(from, to) {
        return Fail(NotAllowed);
      }
      trades := trades[id := Moved(trade, to, m, clock)];
      r := Ok(());
    }

    method Resolve(id: string) returns (r: Option<Trade>)
      ensures r == if id in trades then Some(trades[id]) else None
    {
      r := if id in trades then Some(trades[id]) else None;
    }

    method FindTradeByReference(reference: string) returns (r: Option<Row>)
      ensures r.Some? ==>
        r.value.id in trades && trades[r.value.id] == r.value.trade && r.value.trade.terms.reference == reference
      ensures r.None? ==> !State().UsesReference(reference)
    {
      if id :| id in trades && trades[id].terms.reference == reference {
        r := Some(Row(id, trades[id]));
      } else {
        r := None;
      }
    }

    /** The rows in one state, in whatever order the database returns them. */
    method TradesInState(s: TradeState) returns (rows: seq<Row>)
      ensures AreRowsOf(rows, State(), s)
    {
      var ids := State().InState(s);
      rows := [];
      while ids != {}
        invariant ids <= State().InState(s)
        invariant IdsOf(rows) == State().InState(s) - ids
        invariant forall i :: 0 <= i < |rows| ==> rows[i].id in IdsOf(rows) && trades[rows[i].id] == rows[i].trade
        invariant forall i, j :: 0 <= i < j < |rows| ==> rows[i].id != rows[j].id
        decreases ids
      {
        var id :| id in ids;
        IdsOfMore(rows, Row(id, trades[id]));
        rows := rows + [Row(id, trades[id])];
        ids := ids - {id};
      }
    }

    method MarkPayoutAttempt(id: string, attemptedAt: int, clock: int) returns (r: Outcome<Trade, StoreError>)
      modifies this
      ensures match T.MarkPayoutAttempt(old(State()), id, attemptedAt, clock)
              case Ok(s) => State() == s && id in s.trades && r == Ok(s.trades[id])
              case Fail(e) => State() == old(State()) && r == Fail(e)
    {
      if id !in trades {
        return Fail(NoTrade);
      }
      var trade := trades[id];
      if trade.state != SettlementPending {
        return Fail(WrongState(trade.state));
      }
      if trade.payout.at != 0 {
        return Fail(AlreadyAttempted);
      }
      trade := trade.(payout := trade.payout.(at := attemptedAt), version := trade.version + 1, updatedAt := clock);
      trades := trades[id := trade];
      r := Ok(trade);
    }

    method MarkRefundAttempt(id: string, attemptedAt: int, clock: int) returns (r: Outcome<Trade, StoreError>)
      modifies this
      ensures match T.MarkRefundAttempt(old(State()), id, attemptedAt, clock)
              case Ok(s) => State() == s && id in s.trades && r == Ok(s.trades[id])
              case Fail(e) => State() == old(State()) && r == Fail(e)
    {
      if id !in trades {
        return Fail(NoTrade);
      }
      var trade := trades[id];
      if trade.state != RefundPending {
        return Fail(WrongState(trade.state));
      }
      if trade.refund.at != 0 {
        return Fail(AlreadyAttempted);
      }
      trade := trade.(refund := trade.refund.(at := attemptedAt), version := trade.version + 1, updatedAt := clock);
      trades := trades[id := trade];
      r := Ok(trade);
    }
  }
}
