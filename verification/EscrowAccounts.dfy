/** The sums: what came in, what the signer was asked to send, what the ledger says, and what should be in escrow. */
module EscrowAccounts {
  import opened Wrappers
  import opened Trades
  import opened ChainTypes
  import opened EscrowSystem
  import opened EscrowInvariant
  import opened EscrowSteps
  import opened EscrowRuns
  import opened EscrowSafety
  import L = Ledger
  import T = MarketplaceTables

  // ---- The signer's history by trade ----

  function Amount(x: Send, kind: SendKind): int {
    if x.kind == kind then x.amount else 0
  }

  /** All the signer was asked to send of one kind. */
  function Sent(sends: seq<Send>, kind: SendKind): int {
    if |sends| == 0 then 0 else Sent(sends[..|sends| - 1], kind) + Amount(sends[|sends| - 1], kind)
  }

  ghost function SentPerTrade(sends: seq<Send>, kind: SendKind, ids: set<string>): map<string, int> {
    map id | id in ids :: Sent(SendsOf(sends, id), kind)
  }

  lemma SentOfAppended(sends: seq<Send>, x: Send, kind: SendKind, id: string)
    ensures Sent(SendsOf(sends + [x], id), kind) == Sent(SendsOf(sends, id), kind) + (if x.tradeId == id then Amount(x, kind) else 0)
  {
    SentOnce(sends, x, id);
    var own := SendsOf(sends, id);
    assert (own + [x])[..|own|] == own;
    assert own + [] == own;
  }

  lemma SentPerTradeAppended(sends: seq<Send>, x: Send, kind: SendKind, ids: set<string>)
    requires x.tradeId in ids
    ensures L.Total(SentPerTrade(sends + [x], kind, ids)) == L.Total(SentPerTrade(sends, kind, ids)) + Amount(x, kind)
  {
    var before, after := SentPerTrade(sends, kind, ids), SentPerTrade(sends + [x], kind, ids);
    forall id | id in ids
      ensures after[id] == before[id] + (if x.tradeId == id then Amount(x, kind) else 0)
    {
      SentOfAppended(sends, x, kind, id);
    }
    L.TotalRemove(before, x.tradeId);
    L.TotalRemove(after, x.tradeId);
    assert after - {x.tradeId} == before - {x.tradeId};
  }

  lemma {:induction false} SentByTrade(sends: seq<Send>, kind: SendKind, ids: set<string>)
    requires forall i :: 0 <= i < |sends| ==> sends[i].tradeId in ids
    ensures Sent(sends, kind) == L.Total(SentPerTrade(sends, kind, ids))
  {
    if |sends| == 0 {
      L.TotalZero(SentPerTrade(sends, kind, ids));
    } else {
      var rest, last := sends[..|sends| - 1], sends[|sends| - 1];
      assert sends == rest + [last];
      assert last.tradeId in ids;
      SentByTrade(rest, kind, ids);
      SentPerTradeAppended(rest, last, kind, ids);
    }
  }

  // ---- Columns ----

  /** What came in for each trade. */
  ghost function Deposits(tb: T.Tables): map<string, int> {
    map id | id in tb.trades :: if IsDeposited(tb.trades[id].state) then tb.trades[id].terms.price else 0
  }

  /** The admin page's expected escrow balance, by trade. */
  ghost function Held(tb: T.Tables): map<string, int> {
    map id | id in tb.trades :: if tb.trades[id].IsHeld() then tb.trades[id].terms.price else 0
  }

  predicate IsPaidOut(sends: seq<Send>) { |sends| > 0 && sends[0].kind.Payout? }

  /** Fees of the trades whose payout the signer was asked for. */
  ghost function RetainedFees(w: World): map<string, int> {
    map id | id in w.tables.trades :: if IsPaidOut(SendsOf(w.sends, id)) then w.tables.trades[id].terms.fee else 0
  }

  /** Prices of the trades with a deposit the signer was not asked to disburse. */
  ghost function Undisbursed(w: World): map<string, int> {
    map id | id in w.tables.trades ::
      if IsDeposited(w.tables.trades[id].state) && SendsOf(w.sends, id) == [] then w.tables.trades[id].terms.price else 0
  }

  /** What is already in the ledger for trades that still count as held. */
  ghost function BookedEarly(w: World): map<string, int> {
    map id | id in w.tables.trades ::
      if w.tables.trades[id].IsHeld() then L.Balance(L.EntriesOf(w.ledger, id)) else 0
  }

  // ---- One trade ----

  lemma TradeConserves(id: string, t: Trade, sends: seq<Send>, lines: seq<L.Entry>)
    requires MarksOk(t) && BooksOk(id, t, sends, lines) && !t.state.ManualReview?
    ensures (if IsDeposited(t.state) then t.terms.price else 0)
         == Sent(sends, Payout) + Sent(sends, Refund)
            + (if IsPaidOut(sends) then t.terms.fee else 0)
            + (if IsDeposited(t.state) && sends == [] then t.terms.price else 0)
  {
    AtMostOneSend(id, t, sends, lines);
    if |sends| == 1 {
      assert sends[..0] == [];
    }
  }

  lemma TwoLines(lines: seq<L.Entry>)
    ensures |lines| == 0 ==> L.Balance(lines) == 0
    ensures |lines| == 1 ==> L.Balance(lines) == lines[0].amount
    ensures |lines| == 2 ==> L.Balance(lines) == lines[0].amount + lines[1].amount
  {
    if |lines| == 1 {
      assert lines[..0] == [];
    } else if |lines| == 2 {
      assert lines[..1] == [lines[0]] && lines[..1][..0] == [];
    }
  }

  lemma TradeBooks(id: string, t: Trade, sends: seq<Send>, lines: seq<L.Entry>)
    requires MarksOk(t) && BooksOk(id, t, sends, lines) && !t.state.ManualReview?
    ensures 0 - t.terms.price <= L.Balance(lines) <= 0
    ensures t.state.Settled? || t.state.Refunded? ==> L.Balance(lines) == 0 - t.terms.price
    ensures !t.state.Settled? && !t.state.Refunded? && !t.IsStuck() ==> L.Balance(lines) == 0
    ensures !IsDeposited(t.state) ==> L.Balance(lines) == 0
  {
    TwoLines(lines);
  }

  // ---- All trades of a state in order ----

  lemma RowAccounts(s: System, id: string)
    requires Inv(s) && id in s.world.tables.trades
    ensures var t := s.world.tables.trades[id]; var sends, lines := SendsOf(s.world.sends, id), L.EntriesOf(s.world.ledger, id);
            MarksOk(t) && BooksOk(id, t, sends, lines) && !t.state.ManualReview?
  {
    RowHolds(s, id);
  }

  lemma RowConserves(w: World, id: string)
    requires id in w.tables.trades && MarksOk(w.tables.trades[id]) && !w.tables.trades[id].state.ManualReview?
    requires BooksOk(id, w.tables.trades[id], SendsOf(w.sends, id), L.EntriesOf(w.ledger, id))
    ensures Deposits(w.tables)[id]
         == Sent(SendsOf(w.sends, id), Payout) + Sent(SendsOf(w.sends, id), Refund) + RetainedFees(w)[id] + Undisbursed(w)[id]
  {
    TradeConserves(id, w.tables.trades[id], SendsOf(w.sends, id), L.EntriesOf(w.ledger, id));
  }

  lemma Conserves(s: System)
    requires Inv(s)
    ensures L.Total(Deposits(s.world.tables))
         == Sent(s.world.sends, Payout) + Sent(s.world.sends, Refund) + L.Total(RetainedFees(s.world)) + L.Total(Undisbursed(s.world))
  {
    var w, ids := s.world, s.world.tables.trades.Keys;
    var paid, repaid := SentPerTrade(w.sends, Payout, ids), SentPerTrade(w.sends, Refund, ids);
    var disbursed := L.Plus(paid, repaid);
    var kept := map id | id in ids :: Deposits(w.tables)[id] - disbursed[id];
    forall id | id in ids
      ensures Deposits(w.tables)[id] == disbursed[id] + kept[id] && kept[id] + 0 == RetainedFees(w)[id] + Undisbursed(w)[id]
    {
      RowAccounts(s, id);
      RowConserves(w, id);
    }
    SentByTrade(w.sends, Payout, ids);
    SentByTrade(w.sends, Refund, ids);
    L.TotalPlus(paid, repaid);
    L.TotalZero(L.Zeros(ids));
    L.TotalAgree(Deposits(w.tables), L.Zeros(ids), disbursed, kept);
    L.TotalAgree(kept, L.Zeros(ids), RetainedFees(w), Undisbursed(w));
  }

  /** Any system's state with the books of one trade in order. */
  lemma RowAgrees(w: World, id: string)
    requires id in w.tables.trades && MarksOk(w.tables.trades[id]) && !w.tables.trades[id].state.ManualReview?
    requires BooksOk(id, w.tables.trades[id], SendsOf(w.sends, id), L.EntriesOf(w.ledger, id))
    ensures Deposits(w.tables)[id] + L.Balance(L.EntriesOf(w.ledger, id)) == Held(w.tables)[id] + BookedEarly(w)[id]
    ensures !w.tables.trades[id].IsStuck() ==> BookedEarly(w)[id] == 0
  {
    TradeBooks(id, w.tables.trades[id], SendsOf(w.sends, id), L.EntriesOf(w.ledger, id));
  }

  lemma Agree(s: System)
    requires Inv(s)
    ensures L.Total(Deposits(s.world.tables)) + L.Balance(s.world.ledger)
         == L.Total(Held(s.world.tables)) + L.Total(BookedEarly(s.world))
  {
    var w := s.world;
    var booked := L.PerTrade(w.ledger, w.tables.trades.Keys);
    forall id | id in w.tables.trades
      ensures Deposits(w.tables)[id] + booked[id] == Held(w.tables)[id] + BookedEarly(w)[id]
    {
      RowAccounts(s, id);
      RowAgrees(w, id);
    }
    L.BalanceByTrade(w.ledger, w.tables.trades.Keys);
    L.TotalAgree(Deposits(w.tables), booked, Held(w.tables), BookedEarly(w));
  }

  lemma NothingEarly(s: System)
    requires Inv(s) && forall id :: id in s.world.tables.trades ==> !s.world.tables.trades[id].IsStuck()
    ensures L.Total(BookedEarly(s.world)) == 0
  {
    forall id | id in s.world.tables.trades
      ensures BookedEarly(s.world)[id] == 0
    {
      RowAccounts(s, id);
      RowAgrees(s.world, id);
    }
    L.TotalZero(BookedEarly(s.world));
  }

  // ---- Every run ----

  /** Conservation: matched deposits equal what the signer was asked to pay out and to refund, the fees kept back
      from payouts, and the prices of the trades it was not yet asked to disburse. */
  lemma DepositsAreConserved(setup: Setup, events: seq<Event>)
    ensures var w := Run(Initial(setup), events).world;
            L.Total(Deposits(w.tables)) == Sent(w.sends, Payout) + Sent(w.sends, Refund) + L.Total(RetainedFees(w)) + L.Total(Undisbursed(w))
  {
    RunOk(setup, events);
    Conserves(Run(Initial(setup), events));
  }

  /** The three books differ by exactly what the ledger already holds of the trades still counted as held, and
      with no stuck trade they agree: deposits + ledger balance = expected escrow balance. */
  lemma ThreeBooksAgree(setup: Setup, events: seq<Event>)
    ensures var w := Run(Initial(setup), events).world;
            && L.Total(Deposits(w.tables)) + L.Balance(w.ledger) == L.Total(Held(w.tables)) + L.Total(BookedEarly(w))
            && ((forall id :: id in w.tables.trades ==> !w.tables.trades[id].IsStuck()) ==>
                  L.Total(Deposits(w.tables)) + L.Balance(w.ledger) == L.Total(Held(w.tables)))
  {
    RunOk(setup, events);
    var s := Run(Initial(setup), events);
    Agree(s);
    if forall id :: id in s.world.tables.trades ==> !s.world.tables.trades[id].IsStuck() {
      NothingEarly(s);
    }
  }

  /** A trade's ledger lines sum to between minus its price and zero, and to minus its price once it is closed. */
  lemma LedgerOfTrade(setup: Setup, events: seq<Event>, id: string)
    requires id in Run(Initial(setup), events).world.tables.trades
    ensures var w := Run(Initial(setup), events).world; var t := w.tables.trades[id]; var sum := L.Balance(L.EntriesOf(w.ledger, id));
            && 0 - t.terms.price <= sum <= 0
            && (t.state.Settled? || t.state.Refunded? ==> sum == 0 - t.terms.price)
            && (!IsDeposited(t.state) ==> sum == 0)
  {
    RunOk(setup, events);
    var s := Run(Initial(setup), events);
    RowAccounts(s, id);
    TradeBooks(id, s.world.tables.trades[id], SendsOf(s.world.sends, id), L.EntriesOf(s.world.ledger, id));
  }

  /** What the ledger and the signer hold for a settled and for a refunded trade. */
  ghost predicate ClosedBooks(id: string, t: Trade, sends: seq<Send>, lines: seq<L.Entry>) {
    && (t.state.Settled? ==>
          && |sends| == 1 && sends[0].kind == Payout && sends[0].amount == t.terms.price - t.terms.fee
          && lines == [L.Entry(id, L.PayoutEntry, 0 - sends[0].amount, t.payout.txHash, t.payout.at),
                       L.Entry(id, L.FeeEntry, 0 - t.terms.fee, "", t.payout.at)])
    && (t.state.Refunded? ==>
          && |sends| == 1 && sends[0].kind == Refund && sends[0].amount == t.terms.price
          && lines == [L.Entry(id, L.RefundEntry, 0 - sends[0].amount, t.refund.txHash, t.refund.at)])
  }

  lemma BooksAreClosed(id: string, t: Trade, sends: seq<Send>, lines: seq<L.Entry>)
    requires MarksOk(t) && BooksOk(id, t, sends, lines)
    ensures ClosedBooks(id, t, sends, lines)
  {
  }

  /** A settled trade has two lines, of kind payout with minus what the signer was asked to send and the hash it
      answered, and of kind fee with minus the fee; a refunded one has one, of kind refund with minus the price. */
  lemma LinesOfClosedTrade(setup: Setup, events: seq<Event>, id: string)
    requires id in Run(Initial(setup), events).world.tables.trades
    ensures var w := Run(Initial(setup), events).world;
            ClosedBooks(id, w.tables.trades[id], SendsOf(w.sends, id), L.EntriesOf(w.ledger, id))
  {
    RunOk(setup, events);
    var s := Run(Initial(setup), events);
    RowHolds(s, id);
    BooksAreClosed(id, s.world.tables.trades[id], SendsOf(s.world.sends, id), L.EntriesOf(s.world.ledger, id));
  }
}
