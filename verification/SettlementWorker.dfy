/** The settlement worker as the code runs it, proved to take exactly the worker's steps of the protocol
    (backend/marketplace_settlement.go). */
module SettlementWorkers {
  import opened Wrappers
  import opened Trades
  import opened ChainTypes
  import opened EscrowSystem
  import opened MarketplaceStore
  import Addresses
  import L = Ledger
  import T = MarketplaceTables

  /** The signer: what it was asked to send, whatever came of it. */
  class Signer {
    var sends: seq<Send>

    constructor ()
      ensures sends == []
    {
      sends := [];
    }

    /** Asks the node to sign and send; `answer` is the hash it replies with, or nothing. */
    method SendBasicTransaction(x: Send, answer: Option<string>) returns (txHash: Option<string>)
      modifies this
      ensures sends == old(sends) + [x] && txHash == answer
    {
      sends := sends + [x];
      txHash := answer;
    }
  }

  datatype WorkerError =
    | UnknownTrade | NotPending(found: TradeState) | InFlight | FeeAbovePrice
    | Store(error: T.StoreError) | NotSigned

  type WorkerResult = Outcome<(), WorkerError>

  /** The trades a payout is attempted for. */
  predicate IsPayable(t: Trade) {
    t.state.SettlementPending? && t.payout.at == 0 && t.terms.fee <= t.terms.price
  }

  predicate IsRefundable(t: Trade) {
    t.state.RefundPending? && t.refund.at == 0
  }

  /** The row of a trade after a payout attempt that was marked at `at` and answered by the signer. */
  function PaidRow(t: Trade, at: int, answer: Option<string>): Trade {
    match answer
    case None => t.(payout := t.payout.(at := at), version := t.version + 1, updatedAt := at)
    case Some(h) => t.(state := Settled, payout := Attempt(at, h), version := t.version + 2, updatedAt := at)
  }

  function RepaidRow(t: Trade, at: int, answer: Option<string>): Trade {
    match answer
    case None => t.(refund := t.refund.(at := at), version := t.version + 1, updatedAt := at)
    case Some(h) => t.(state := Refunded, refund := Attempt(at, h), version := t.version + 2, updatedAt := at)
  }

  function WithTrade(tb: T.Tables, id: string, t: Trade): T.Tables {
    tb.(trades := tb.trades[id := t])
  }

  /** What a whole call of Settle does to the world. */
  function Paid(w: World, id: string, now: UnixTime, answer: Option<string>): World {
    if id !in w.tables.trades || !IsPayable(w.tables.trades[id]) then w
    else
      var t := w.tables.trades[id];
      w.(tables := WithTrade(w.tables, id, PaidRow(t, now, answer)),
         sends := w.sends + [PayoutSend(id, t.terms)],
         ledger := w.ledger + match answer case None => [] case Some(h) => [PayoutLine(id, t.terms, now, h), FeeLine(id, t.terms, now)])
  }

  function Repaid(w: World, id: string, now: UnixTime, answer: Option<string>): World {
    if id !in w.tables.trades || !IsRefundable(w.tables.trades[id]) then w
    else
      var t := w.tables.trades[id];
      w.(tables := WithTrade(w.tables, id, RepaidRow(t, now, answer)),
         sends := w.sends + [RefundSendOf(id, t.terms)],
         ledger := w.ledger + match answer case None => [] case Some(h) => [RefundLine(id, t.terms, now, h)])
  }

  /** What a call of Settle comes to. It succeeds if the trade was settled, or was pending and unmarked, its fee fits the
      price and the signer answers. Then the seller is sent the price less the fee, and that amount and the fee are
      booked, each as what it is. */
  ghost predicate IsSettleCall(before: World, after: World, id: string, now: UnixTime, answer: Option<string>, ok: bool) {
    && (id !in before.tables.trades ==> !ok && after == before)
    && (id in before.tables.trades ==>
          var t := before.tables.trades[id];
          && id in after.tables.trades && (ok <==> after.tables.trades[id].state == Settled)
          && (ok <==> t.state == Settled || (t.state == SettlementPending && t.payout.at == 0 && t.terms.fee <= t.terms.price && answer.Some?))
          && (ok && t.state != Settled ==>
                && after.tables.trades[id].payout == Attempt(now, answer.value)
                && after.sends == before.sends + [Send(id, Payout, Addresses.ForRPC(t.terms.seller), t.terms.price - t.terms.fee)]
                && after.ledger == before.ledger + [L.Entry(id, L.PayoutEntry, t.terms.fee - t.terms.price, answer.value, now),
                                                    L.Entry(id, L.FeeEntry, 0 - t.terms.fee, "", now)]))
  }

  lemma PaidIsSettleCall(w: World, id: string, now: UnixTime, answer: Option<string>)
    ensures var after := Paid(w, id, now, answer);
            IsSettleCall(w, after, id, now, answer, id in after.tables.trades && after.tables.trades[id].state == Settled)
  {
  }

  /** And one of Refund: the trade was refunded, or was pending and unmarked and the signer answers. Then the buyer is
      sent the price, booked as a refund. */
  ghost predicate IsRefundCall(before: World, after: World, id: string, now: UnixTime, answer: Option<string>, ok: bool) {
    && (id !in before.tables.trades ==> !ok && after == before)
    && (id in before.tables.trades ==>
          var t := before.tables.trades[id];
          && id in after.tables.trades && (ok <==> after.tables.trades[id].state == Refunded)
          && (ok <==> t.state == Refunded || (t.state == RefundPending && t.refund.at == 0 && answer.Some?))
          && (ok && t.state != Refunded ==>
                && after.tables.trades[id].refund == Attempt(now, answer.value)
                && after.sends == before.sends + [Send(id, SendKind.Refund, Addresses.ForRPC(t.terms.buyer), t.terms.price)]
                && after.ledger == before.ledger + [L.Entry(id, L.RefundEntry, 0 - t.terms.price, answer.value, now)]))
  }

  lemma RepaidIsRefundCall(w: World, id: string, now: UnixTime, answer: Option<string>)
    ensures var after := Repaid(w, id, now, answer);
            IsRefundCall(w, after, id, now, answer, id in after.tables.trades && after.tables.trades[id].state == Refunded)
  {
  }

  /** The two statements of a signed payout on the trades table. */
  lemma PaysRow(tb: T.Tables, id: string, now: UnixTime, h: string)
    requires id in tb.trades && IsPayable(tb.trades[id])
    ensures var t := tb.trades[id]; var marked := WithTrade(tb, id, PaidRow(t, now, None));
            T.MarkPayoutAttempt(tb, id, now, now) == Ok(marked)
            && T.Transition(marked, id, SettlementPending, Settled, SetPayout(h), now) == Ok(WithTrade(tb, id, PaidRow(t, now, Some(h))))
  {
    var t := tb.trades[id];
    assert tb.trades[id := PaidRow(t, now, None)][id := PaidRow(t, now, Some(h))] == tb.trades[id := PaidRow(t, now, Some(h))];
  }

  /** The two statements of a signed refund. */
  lemma RepaysRow(tb: T.Tables, id: string, now: UnixTime, h: string)
    requires id in tb.trades && IsRefundable(tb.trades[id])
    ensures var t := tb.trades[id]; var marked := WithTrade(tb, id, RepaidRow(t, now, None));
            T.MarkRefundAttempt(tb, id, now, now) == Ok(marked)
            && T.Transition(marked, id, RefundPending, Refunded, SetRefund(h), now) == Ok(WithTrade(tb, id, RepaidRow(t, now, Some(h))))
  {
    var t := tb.trades[id];
    assert tb.trades[id := RepaidRow(t, now, None)][id := RepaidRow(t, now, Some(h))] == tb.trades[id := RepaidRow(t, now, Some(h))];
  }

  class SettlementWorker {
    const store: Store
    const ledger: L.EscrowLedger
    const signer: Signer
    const escrow: string

    constructor (store: Store, ledger: L.EscrowLedger, signer: Signer, escrow: string)
      ensures this.store == store && this.ledger == ledger && this.signer == signer && this.escrow == escrow
    {
      this.store, this.ledger, this.signer, this.escrow := store, ledger, signer, escrow;
    }

    ghost function State(): World
      reads store, ledger, signer
    {
      World(escrow, store.State(), ledger.entries, signer.sends)
    }

    /** Succeeds exactly when the trade is settled afterwards. */
    method Settle(id: string, now: UnixTime, answer: Option<string>) returns (r: WorkerResult)
      modifies store, ledger, signer
      ensures State() == Paid(old(State()), id, now, answer)
      ensures r.Ok? <==> id in store.trades && store.trades[id].state == Settled
      ensures IsSettleCall(old(State()), State(), id, now, answer, r.Ok?)
    {
      PaidIsSettleCall(State(), id, now, answer);
      var found := store.Resolve(id);
      if found.None? {
        return Fail(UnknownTrade);
      }
      var trade := found.value;
      if trade.state == Settled {
        return Ok(());
      }
      if trade.state != SettlementPending {
        return Fail(NotPending(trade.state));
      }
      if trade.payout.at != 0 && trade.payout.txHash == "" {
        return Fail(InFlight);
      }
      if trade.terms.fee > trade.terms.price {
        return Fail(FeeAbovePrice);
      }
      if trade.payout.at == 0 {
        PaysRow(store.State(), id, now, if answer.Some? then answer.value else "");
      }
      var marked := store.MarkPayoutAttempt(id, now, now);
      if marked.Fail? {
        return Fail(WorkerError.Store(marked.error));
      }
      assert store.State() == WithTrade(old(store.State()), id, PaidRow(old(store.trades)[id], now, None));
      trade := marked.value;
      var payout := trade.terms.price - trade.terms.fee;
      var txHash := signer.SendBasicTransaction(Send(id, Payout, Addresses.ForRPC(trade.terms.seller), payout), answer);
      if txHash.None? {
        return Fail(NotSigned);
      }
      ledger.Append(L.Entry(id, L.PayoutEntry, 0 - payout, txHash.value, now), now);
      ledger.Append(L.Entry(id, L.FeeEntry, 0 - trade.terms.fee, "", now), now);
      var done := store.Transition(id, SettlementPending, Settled, SetPayout(txHash.value), now);
      assert done.Ok?;
      r := Ok(());
    }

    /** Succeeds exactly when the trade is refunded afterwards. */
    method Refund(id: string, now: UnixTime, answer: Option<string>) returns (r: WorkerResult)
      modifies store, ledger, signer
      ensures State() == Repaid(old(State()), id, now, answer)
      ensures r.Ok? <==> id in store.trades && store.trades[id].state == Refunded
      ensures IsRefundCall(old(State()), State(), id, now, answer, r.Ok?)
    {
      RepaidIsRefundCall(State(), id, now, answer);
      var found := store.Resolve(id);
      if found.None? {
        return Fail(UnknownTrade);
      }
      var trade := found.value;
      if trade.state == Refunded {
        return Ok(());
      }
      if trade.state != RefundPending {
        return Fail(NotPending(trade.state));
      }
      if trade.refund.at != 0 && trade.refund.txHash == "" {
        return Fail(InFlight);
      }
      if trade.refund.at == 0 {
        RepaysRow(store.State(), id, now, if answer.Some? then answer.value else "");
      }
      var marked := store.MarkRefundAttempt(id, now, now);
      if marked.Fail? {
        return Fail(WorkerError.Store(marked.error));
      }
      assert store.State() == WithTrade(old(store.State()), id, RepaidRow(old(store.trades)[id], now, None));
      trade := marked.value;
      var txHash := signer.SendBasicTransaction(Send(id, SendKind.Refund, Addresses.ForRPC(trade.terms.buyer), trade.terms.price), answer);
      if txHash.None? {
        return Fail(NotSigned);
      }
      ledger.Append(L.Entry(id, L.RefundEntry, 0 - trade.terms.price, txHash.value, now), now);
      var done := store.Transition(id, RefundPending, Refunded, SetRefund(txHash.value), now);
      assert done.Ok?;
      r := Ok(());
    }
  }
}
