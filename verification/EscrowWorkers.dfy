/** The steps of the settlement worker, which mark, send, book and finish, keep the escrow invariant. */
module EscrowWorkers {
  import opened Wrappers
  import opened Trades
  import opened AddressText
  import opened ChainTypes
  import opened EscrowSystem
  import opened EscrowInvariant
  import opened EscrowPreservation
  import opened EscrowSteps
  import opened MarketplaceInvariant
  import L = Ledger
  import T = MarketplaceTables

  function MarkedPayout(t: Trade, at: int): Trade {
    t.(payout := t.payout.(at := at), version := t.version + 1, updatedAt := at)
  }

  function MarkedRefund(t: Trade, at: int): Trade {
    t.(refund := t.refund.(at := at), version := t.version + 1, updatedAt := at)
  }

  lemma MarkedPayoutFacts(w: World, chain: Chain, resolved: set<Resolution>, id: string, t: Trade, at: UnixTime)
    requires RowFacts(w, chain, resolved, t) && BooksOk(id, t, SendsOf(w.sends, id), L.EntriesOf(w.ledger, id))
    requires t.state.SettlementPending? && t.payout.at == 0 && t.terms.fee <= t.terms.price
    ensures t.refund.at == 0 && SendsOf(w.sends, id) == [] && L.EntriesOf(w.ledger, id) == []
    ensures Replaces(w, chain, resolved, id, t, MarkedPayout(t, at))
  {
  }

  lemma MarkedRefundFacts(w: World, chain: Chain, resolved: set<Resolution>, id: string, t: Trade, at: UnixTime)
    requires RowFacts(w, chain, resolved, t) && BooksOk(id, t, SendsOf(w.sends, id), L.EntriesOf(w.ledger, id))
    requires t.state.RefundPending? && t.refund.at == 0
    ensures t.payout.at == 0 && SendsOf(w.sends, id) == [] && L.EntriesOf(w.ledger, id) == []
    ensures Replaces(w, chain, resolved, id, t, MarkedRefund(t, at))
  {
  }

  lemma MarkPayoutRow(s: System, id: string, at: UnixTime)
    requires Inv(s) && id in s.world.tables.trades
    requires var t := s.world.tables.trades[id]; t.state.SettlementPending? && t.payout.at == 0 && t.terms.fee <= t.terms.price
    ensures var t := s.world.tables.trades[id]; var s' := s.(world := WithRow(s.world, id, MarkedPayout(t, at)));
            Inv(s') && NobodyWorksOn(s'.tasks, id) && Paying(s'.world, id, t.terms, at, 0, 0, "")
  {
    RowHolds(s, id);
    MarkedPayoutFacts(s.world, s.chain, s.resolved, id, s.world.tables.trades[id], at);
    UnmarkedIsIdle(s, id);
    ChangeRow(s, id, MarkedPayout(s.world.tables.trades[id], at));
  }

  lemma MarkRefundRow(s: System, id: string, at: UnixTime)
    requires Inv(s) && id in s.world.tables.trades
    requires var t := s.world.tables.trades[id]; t.state.RefundPending? && t.refund.at == 0
    ensures var t := s.world.tables.trades[id]; var s' := s.(world := WithRow(s.world, id, MarkedRefund(t, at)));
            Inv(s') && NobodyWorksOn(s'.tasks, id) && Refunding(s'.world, id, t.terms, at, 0, 0, "")
  {
    RowHolds(s, id);
    MarkedRefundFacts(s.world, s.chain, s.resolved, id, s.world.tables.trades[id], at);
    UnmarkedIsIdle(s, id);
    ChangeRow(s, id, MarkedRefund(s.world.tables.trades[id], at));
  }

  /** A worker that has done a step goes on to the next. */
  lemma ResumePaying(s: System, pid: nat, task: Task, id: string, terms: Terms, at: UnixTime, sent: nat, booked: nat, h: string)
    requires Inv(s) && pid !in s.tasks && NobodyWorksOn(s.tasks, id) && Paying(s.world, id, terms, at, sent, booked, h)
    requires || (task == SettleSend(id, terms, at) && sent == 0 && booked == 0 && h == "")
             || (task == SettleBookPayout(id, terms, at, h) && sent == 1 && booked == 0)
             || (task == SettleBookFee(id, terms, at, h) && sent == 1 && booked == 1)
             || (task == SettleFinish(id, terms, at, h) && sent == 1 && booked == 2)
    ensures Inv(s.(tasks := s.tasks[pid := task]))
  {
    AddTask(s, pid, task);
  }

  lemma ResumeRefunding(s: System, pid: nat, task: Task, id: string, terms: Terms, at: UnixTime, sent: nat, booked: nat, h: string)
    requires Inv(s) && pid !in s.tasks && NobodyWorksOn(s.tasks, id) && Refunding(s.world, id, terms, at, sent, booked, h)
    requires || (task == RefundSend(id, terms, at) && sent == 0 && booked == 0 && h == "")
             || (task == RefundBook(id, terms, at, h) && sent == 1 && booked == 0)
             || (task == RefundFinish(id, terms, at, h) && sent == 1 && booked == 1)
    ensures Inv(s.(tasks := s.tasks[pid := task]))
  {
    AddTask(s, pid, task);
  }

  lemma MarkPayoutShape(s: System, pid: nat, id: string, clock: UnixTime)
    requires T.MarkPayoutAttempt(s.world.tables, id, clock, clock).Ok?
    ensures var t := s.world.tables.trades[id]; var s' := s.(world := WithRow(s.world, id, MarkedPayout(t, clock)));
            After(s, pid, SettleMarkStep(s.world, id, clock)) == s'.(tasks := s'.tasks[pid := SettleSend(id, t.terms, clock)])
  {
  }

  lemma MarkRefundShape(s: System, pid: nat, id: string, clock: UnixTime)
    requires T.MarkRefundAttempt(s.world.tables, id, clock, clock).Ok?
    ensures var t := s.world.tables.trades[id]; var s' := s.(world := WithRow(s.world, id, MarkedRefund(t, clock)));
            After(s, pid, RefundMarkStep(s.world, id, clock)) == s'.(tasks := s'.tasks[pid := RefundSend(id, t.terms, clock)])
  {
  }

  lemma SettleMarkOk(s: System, pid: nat, id: string, clock: UnixTime)
    requires Inv(s) && pid !in s.tasks
    requires id in s.world.tables.trades && s.world.tables.trades[id].terms.fee <= s.world.tables.trades[id].terms.price
    ensures Inv(After(s, pid, SettleMarkStep(s.world, id, clock)))
  {
    if T.MarkPayoutAttempt(s.world.tables, id, clock, clock).Ok? {
      var t := s.world.tables.trades[id];
      var s' := s.(world := WithRow(s.world, id, MarkedPayout(t, clock)));
      MarkPayoutRow(s, id, clock);
      ResumePaying(s', pid, SettleSend(id, t.terms, clock), id, t.terms, clock, 0, 0, "");
      MarkPayoutShape(s, pid, id, clock);
    } else {
      Stopped(s, pid);
    }
  }

  lemma RefundMarkOk(s: System, pid: nat, id: string, clock: UnixTime)
    requires Inv(s) && pid !in s.tasks
    ensures Inv(After(s, pid, RefundMarkStep(s.world, id, clock)))
  {
    if T.MarkRefundAttempt(s.world.tables, id, clock, clock).Ok? {
      var t := s.world.tables.trades[id];
      var s' := s.(world := WithRow(s.world, id, MarkedRefund(t, clock)));
      MarkRefundRow(s, id, clock);
      ResumeRefunding(s', pid, RefundSend(id, t.terms, clock), id, t.terms, clock, 0, 0, "");
      MarkRefundShape(s, pid, id, clock);
    } else {
      Stopped(s, pid);
    }
  }

  lemma OnlySends(w: World, id: string, x: Send)
    requires BooksKnown(w) && id in w.tables.trades && x.tradeId == id
    ensures var w' := w.(sends := w.sends + [x]);
            OneBook(w, w', id) && BooksKnown(w') && SendsOf(w'.sends, id) == SendsOf(w.sends, id) + [x]
  {
    forall k
      ensures SendsOf(w.sends + [x], k) == SendsOf(w.sends, k) + (if k == id then [x] else [])
    {
      SentOnce(w.sends, x, k);
    }
  }

  lemma OnlyBooks(w: World, id: string, e: L.Entry)
    requires BooksKnown(w) && id in w.tables.trades && e.tradeId == id
    ensures var w' := w.(ledger := w.ledger + [e]);
            OneBook(w, w', id) && BooksKnown(w') && L.EntriesOf(w'.ledger, id) == L.EntriesOf(w.ledger, id) + [e]
  {
    forall k
      ensures L.EntriesOf(w.ledger + [e], k) == L.EntriesOf(w.ledger, k) + (if k == id then [e] else [])
    {
      L.Appended(w.ledger, e, k);
    }
  }

  /** The signer is asked once more: only this trade's history grows. */
  lemma SendOk(s: System, id: string, x: Send)
    requires Inv(s) && id in s.world.tables.trades && x.tradeId == id && NobodyWorksOn(s.tasks, id)
    requires BooksOk(id, s.world.tables.trades[id], SendsOf(s.world.sends, id) + [x], L.EntriesOf(s.world.ledger, id))
    ensures Inv(s.(world := s.world.(sends := s.world.sends + [x])))
    ensures SendsOf(s.world.sends + [x], id) == SendsOf(s.world.sends, id) + [x]
  {
    OnlySends(s.world, id, x);
    UpdateBooks(s, s.world.(sends := s.world.sends + [x]), id);
  }

  /** A line is appended: only this trade's lines grow. */
  lemma BookOk(s: System, id: string, e: L.Entry)
    requires Inv(s) && id in s.world.tables.trades && e.tradeId == id && NobodyWorksOn(s.tasks, id)
    requires BooksOk(id, s.world.tables.trades[id], SendsOf(s.world.sends, id), L.EntriesOf(s.world.ledger, id) + [e])
    ensures Inv(s.(world := s.world.(ledger := s.world.ledger + [e])))
    ensures L.EntriesOf(s.world.ledger + [e], id) == L.EntriesOf(s.world.ledger, id) + [e]
  {
    OnlyBooks(s.world, id, e);
    UpdateBooks(s, s.world.(ledger := s.world.ledger + [e]), id);
  }

  /** A worker on its trade, and nobody else. */
  ghost predicate AtWork(s: System, pid: nat, id: string) {
    Inv(s) && pid !in s.tasks && NobodyWorksOn(s.tasks, id)
  }

  lemma PayoutSent(s: System, id: string, terms: Terms, at: UnixTime, h: string)
    requires Inv(s) && NobodyWorksOn(s.tasks, id) && Paying(s.world, id, terms, at, 0, 0, "")
    ensures var s' := s.(world := s.world.(sends := s.world.sends + [PayoutSend(id, terms)]));
            Inv(s') && NobodyWorksOn(s'.tasks, id) && Paying(s'.world, id, terms, at, 1, 0, h)
  {
    RowHolds(s, id);
    SendOk(s, id, PayoutSend(id, terms));
  }

  lemma RefundSent(s: System, id: string, terms: Terms, at: UnixTime, h: string)
    requires Inv(s) && NobodyWorksOn(s.tasks, id) && Refunding(s.world, id, terms, at, 0, 0, "")
    ensures var s' := s.(world := s.world.(sends := s.world.sends + [RefundSendOf(id, terms)]));
            Inv(s') && NobodyWorksOn(s'.tasks, id) && Refunding(s'.world, id, terms, at, 1, 0, h)
  {
    RowHolds(s, id);
    SendOk(s, id, RefundSendOf(id, terms));
  }

  lemma SettleSendOk(s: System, pid: nat, id: string, terms: Terms, at: UnixTime, signed: Option<string>)
    requires AtWork(s, pid, id) && Paying(s.world, id, terms, at, 0, 0, "")
    ensures Inv(After(s, pid, SettleSendStep(s.world, id, terms, at, signed)))
  {
    var s' := s.(world := s.world.(sends := s.world.sends + [PayoutSend(id, terms)]));
    var h := if signed.Some? then signed.value else "";
    PayoutSent(s, id, terms, at, h);
    if signed.None? {
      Stopped(s', pid);
    } else {
      ResumePaying(s', pid, SettleBookPayout(id, terms, at, h), id, terms, at, 1, 0, h);
    }
  }

  lemma RefundSendOk(s: System, pid: nat, id: string, terms: Terms, at: UnixTime, signed: Option<string>)
    requires AtWork(s, pid, id) && Refunding(s.world, id, terms, at, 0, 0, "")
    ensures Inv(After(s, pid, RefundSendStep(s.world, id, terms, at, signed)))
  {
    var s' := s.(world := s.world.(sends := s.world.sends + [RefundSendOf(id, terms)]));
    var h := if signed.Some? then signed.value else "";
    RefundSent(s, id, terms, at, h);
    if signed.None? {
      Stopped(s', pid);
    } else {
      ResumeRefunding(s', pid, RefundBook(id, terms, at, h), id, terms, at, 1, 0, h);
    }
  }

  /** What a running payout may append to the ledger next. */
  function NextLine(id: string, terms: Terms, at: UnixTime, booked: nat, h: string): L.Entry {
    if booked == 0 then PayoutLine(id, terms, at, h) else FeeLine(id, terms, at)
  }

  lemma NextPayoutLine(w: World, id: string, terms: Terms, at: UnixTime, booked: nat, h: string)
    requires Paying(w, id, terms, at, 1, booked, h) && booked <= 1
    requires BooksOk(id, w.tables.trades[id], SendsOf(w.sends, id), L.EntriesOf(w.ledger, id))
    ensures var lines := L.EntriesOf(w.ledger, id) + [NextLine(id, terms, at, booked, h)];
            BooksOk(id, w.tables.trades[id], SendsOf(w.sends, id), lines) && FirstHash(lines) == h
  {
  }

  lemma PayoutBooked(s: System, id: string, terms: Terms, at: UnixTime, booked: nat, h: string)
    requires Inv(s) && NobodyWorksOn(s.tasks, id) && Paying(s.world, id, terms, at, 1, booked, h) && booked <= 1
    ensures var s' := s.(world := s.world.(ledger := s.world.ledger + [NextLine(id, terms, at, booked, h)]));
            Inv(s') && NobodyWorksOn(s'.tasks, id) && Paying(s'.world, id, terms, at, 1, booked + 1, h)
  {
    RowHolds(s, id);
    NextPayoutLine(s.world, id, terms, at, booked, h);
    BookOk(s, id, NextLine(id, terms, at, booked, h));
  }

  lemma BookShape(s: System, pid: nat, e: L.Entry, next: Task)
    ensures var s' := s.(world := s.world.(ledger := s.world.ledger + [e]));
            After(s, pid, Book(s.world, e, next)) == s'.(tasks := s'.tasks[pid := next])
  {
  }

  lemma SettleBookOk(s: System, pid: nat, id: string, terms: Terms, at: UnixTime, booked: nat, h: string)
    requires AtWork(s, pid, id) && Paying(s.world, id, terms, at, 1, booked, h) && booked <= 1
    ensures var next := if booked == 0 then SettleBookFee(id, terms, at, h) else SettleFinish(id, terms, at, h);
            Inv(After(s, pid, Book(s.world, NextLine(id, terms, at, booked, h), next)))
  {
    var s' := s.(world := s.world.(ledger := s.world.ledger + [NextLine(id, terms, at, booked, h)]));
    PayoutBooked(s, id, terms, at, booked, h);
    ResumePaying(s', pid, if booked == 0 then SettleBookFee(id, terms, at, h) else SettleFinish(id, terms, at, h),
                 id, terms, at, 1, booked + 1, h);
    BookShape(s, pid, NextLine(id, terms, at, booked, h), if booked == 0 then SettleBookFee(id, terms, at, h) else SettleFinish(id, terms, at, h));
  }

  lemma NextRefundLine(w: World, id: string, terms: Terms, at: UnixTime, h: string)
    requires Refunding(w, id, terms, at, 1, 0, h)
    requires BooksOk(id, w.tables.trades[id], SendsOf(w.sends, id), L.EntriesOf(w.ledger, id))
    ensures var lines := L.EntriesOf(w.ledger, id) + [RefundLine(id, terms, at, h)];
            BooksOk(id, w.tables.trades[id], SendsOf(w.sends, id), lines) && FirstHash(lines) == h
  {
  }

  lemma RefundBooked(s: System, id: string, terms: Terms, at: UnixTime, h: string)
    requires Inv(s) && NobodyWorksOn(s.tasks, id) && Refunding(s.world, id, terms, at, 1, 0, h)
    ensures var s' := s.(world := s.world.(ledger := s.world.ledger + [RefundLine(id, terms, at, h)]));
            Inv(s') && NobodyWorksOn(s'.tasks, id) && Refunding(s'.world, id, terms, at, 1, 1, h)
  {
    RowHolds(s, id);
    NextRefundLine(s.world, id, terms, at, h);
    BookOk(s, id, RefundLine(id, terms, at, h));
  }

  lemma RefundBookOk(s: System, pid: nat, id: string, terms: Terms, at: UnixTime, h: string)
    requires AtWork(s, pid, id) && Refunding(s.world, id, terms, at, 1, 0, h)
    ensures Inv(After(s, pid, Book(s.world, RefundLine(id, terms, at, h), RefundFinish(id, terms, at, h))))
  {
    var s' := s.(world := s.world.(ledger := s.world.ledger + [RefundLine(id, terms, at, h)]));
    RefundBooked(s, id, terms, at, h);
    ResumeRefunding(s', pid, RefundFinish(id, terms, at, h), id, terms, at, 1, 1, h);
    BookShape(s, pid, RefundLine(id, terms, at, h), RefundFinish(id, terms, at, h));
  }

  lemma SettledRow(w: World, chain: Chain, resolved: set<Resolution>, t: Trade, h: string, clock: int)
    requires RowFacts(w, chain, resolved, t) && t.state.SettlementPending? && t.payout.at != 0
    ensures var t' := T.Moved(t, Settled, SetPayout(h), clock);
      && RowFacts(w, chain, resolved, t') && !IsWithdrawn(t) && !IsWithdrawn(t') && !t'.IsUnpaidReservation()
      && t'.deposit == t.deposit && t'.payout == Attempt(t.payout.at, h) && t'.refund == t.refund
  {
  }

  lemma SettledBooks(id: string, t: Trade, t': Trade, sends: seq<Send>, lines: seq<L.Entry>)
    requires BooksOk(id, t, sends, lines) && |lines| == 2 && t'.terms == t.terms && t'.state.Settled?
    requires t'.payout == Attempt(t.payout.at, FirstHash(lines)) && t'.refund == t.refund
    ensures BooksOk(id, t', sends, lines)
  {
  }

  lemma SettledFacts(w: World, chain: Chain, resolved: set<Resolution>, id: string, t: Trade, h: string, clock: int)
    requires RowFacts(w, chain, resolved, t) && BooksOk(id, t, SendsOf(w.sends, id), L.EntriesOf(w.ledger, id))
    requires t.state.SettlementPending? && t.payout.at != 0
    requires |L.EntriesOf(w.ledger, id)| == 2 && FirstHash(L.EntriesOf(w.ledger, id)) == h
    ensures Replaces(w, chain, resolved, id, t, T.Moved(t, Settled, SetPayout(h), clock))
  {
    SettledRow(w, chain, resolved, t, h, clock);
    SettledBooks(id, t, T.Moved(t, Settled, SetPayout(h), clock), SendsOf(w.sends, id), L.EntriesOf(w.ledger, id));
  }

  lemma RefundedRow(w: World, chain: Chain, resolved: set<Resolution>, t: Trade, h: string, clock: int)
    requires RowFacts(w, chain, resolved, t) && t.state.RefundPending? && t.refund.at != 0
    ensures var t' := T.Moved(t, Refunded, SetRefund(h), clock);
      && RowFacts(w, chain, resolved, t') && !IsWithdrawn(t) && !IsWithdrawn(t') && !t'.IsUnpaidReservation()
      && t'.deposit == t.deposit && t'.refund == Attempt(t.refund.at, h) && t'.payout == t.payout
  {
  }

  lemma RefundedBooks(id: string, t: Trade, t': Trade, sends: seq<Send>, lines: seq<L.Entry>)
    requires BooksOk(id, t, sends, lines) && |lines| == 1 && t'.terms == t.terms && t'.state.Refunded?
    requires t'.refund == Attempt(t.refund.at, FirstHash(lines)) && t'.payout == t.payout
    ensures BooksOk(id, t', sends, lines)
  {
  }

  lemma RefundedFacts(w: World, chain: Chain, resolved: set<Resolution>, id: string, t: Trade, h: string, clock: int)
    requires RowFacts(w, chain, resolved, t) && BooksOk(id, t, SendsOf(w.sends, id), L.EntriesOf(w.ledger, id))
    requires t.state.RefundPending? && t.refund.at != 0
    requires |L.EntriesOf(w.ledger, id)| == 1 && FirstHash(L.EntriesOf(w.ledger, id)) == h
    ensures Replaces(w, chain, resolved, id, t, T.Moved(t, Refunded, SetRefund(h), clock))
  {
    RefundedRow(w, chain, resolved, t, h, clock);
    RefundedBooks(id, t, T.Moved(t, Refunded, SetRefund(h), clock), SendsOf(w.sends, id), L.EntriesOf(w.ledger, id));
  }

  lemma SettleFinishOk(s: System, id: string, terms: Terms, at: UnixTime, h: string, clock: int)
    requires Inv(s) && Paying(s.world, id, terms, at, 1, 2, h) && NobodyWorksOn(s.tasks, id)
    ensures Inv(s.(world := s.world.(tables := MovedTables(s.world.tables, id, Settled, SetPayout(h), clock))))
  {
    RowHolds(s, id);
    SettledFacts(s.world, s.chain, s.resolved, id, s.world.tables.trades[id], h, clock);
    ChangeRow(s, id, T.Moved(s.world.tables.trades[id], Settled, SetPayout(h), clock));
  }

  lemma RefundFinishOk(s: System, id: string, terms: Terms, at: UnixTime, h: string, clock: int)
    requires Inv(s) && Refunding(s.world, id, terms, at, 1, 1, h) && NobodyWorksOn(s.tasks, id)
    ensures Inv(s.(world := s.world.(tables := MovedTables(s.world.tables, id, Refunded, SetRefund(h), clock))))
  {
    RowHolds(s, id);
    RefundedFacts(s.world, s.chain, s.resolved, id, s.world.tables.trades[id], h, clock);
    ChangeRow(s, id, T.Moved(s.world.tables.trades[id], Refunded, SetRefund(h), clock));
  }
}
