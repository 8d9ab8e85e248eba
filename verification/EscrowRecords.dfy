/** Where the columns of a trade come from, in every run: its terms from two requests, its hashes from what was
    submitted or resolved. */
module EscrowRecords {
  import opened Wrappers
  import opened Trades
  import opened AddressText
  import opened ChainTypes
  import opened EscrowSystem
  import opened EscrowInvariant
  import opened EscrowSteps
  import opened EscrowRuns
  import opened EscrowHistory
  import opened EscrowSafety
  import opened EscrowFunding
  import T = MarketplaceTables

  // ---- Terms ----

  /** Some request listed the handle for this seller, at this price and fee. */
  ghost predicate IsListedAs(events: seq<Event>, handle: string, seller: string, price: nat, fee: nat) {
    exists i :: 0 <= i < |events| && AsksListing(events[i], handle, seller, price, fee)
  }

  predicate AsksListing(e: Event, handle: string, seller: string, price: nat, fee: nat) {
    e.ListHandle? && e.handle == handle && Compact(e.seller) == seller && e.price == price && e.fee == fee
  }

  /** Some request reserved the handle under this id, for the buyer and the deadline the terms name. */
  ghost predicate IsReservedAs(events: seq<Event>, id: string, terms: Terms) {
    exists i :: 0 <= i < |events| && AsksReservation(events[i], id, terms)
  }

  predicate AsksReservation(e: Event, id: string, terms: Terms) {
    && e.ReserveHandle? && e.id == id && e.handle == terms.handle && e.reference == terms.reference
    && Compact(e.buyer) == terms.buyer && terms.createdAt == e.clock && terms.depositDeadline == e.clock + 1800
  }

  ghost predicate ListingsAsked(events: seq<Event>, tb: T.Tables) {
    forall h :: h in tb.listings ==> IsListedAs(events, h, tb.listings[h].seller, tb.listings[h].price, tb.listings[h].fee)
  }

  ghost predicate TradesAsked(events: seq<Event>, tb: T.Tables) {
    forall id :: id in tb.trades ==>
      var terms := tb.trades[id].terms;
      IsListedAs(events, terms.handle, terms.seller, terms.price, terms.fee) && IsReservedAs(events, id, terms)
  }

  predicate SameOffer(a: Listing, b: Listing) {
    a.seller == b.seller && a.price == b.price && a.fee == b.fee
  }

  /** Rows that were there before, with their offers and terms. */
  ghost predicate KeepsOffers(a: T.Tables, b: T.Tables) {
    && b.listings.Keys == a.listings.Keys && b.trades.Keys == a.trades.Keys
    && (forall h :: h in a.listings ==> SameOffer(a.listings[h], b.listings[h]))
    && (forall id :: id in a.trades ==> b.trades[id].terms == a.trades[id].terms)
  }

  lemma StepKeepsIds(w: World, task: Task, io: Io)
    ensures TaskStep(w, task, io).world.tables.trades.Keys == w.tables.trades.Keys
  {
  }

  lemma StepKeepsOffers(w: World, task: Task, io: Io)
    ensures KeepsOffers(w.tables, TaskStep(w, task, io).world.tables)
  {
    StepKeepsIds(w, task, io);
    StepEvolves(w, task, io);
    if task.ExpireReservation? {
      ExpireShape(w, task.id, io);
    } else {
      StepKeepsListings(w, task, io);
    }
  }

  /** What a request for a listing adds, and what one for a reservation does. */
  ghost predicate AddsListing(a: T.Tables, b: T.Tables, e: Event) {
    && (forall h :: h in b.listings ==>
          (h in a.listings && SameOffer(a.listings[h], b.listings[h]))
          || AsksListing(e, h, b.listings[h].seller, b.listings[h].price, b.listings[h].fee))
    && (forall id :: id in b.trades ==> id in a.trades && a.trades[id].terms == b.trades[id].terms)
  }

  predicate TakesOffer(a: T.Tables, e: Event, id: string, terms: Terms) {
    && AsksReservation(e, id, terms) && terms.handle in a.listings
    && Compact(a.listings[terms.handle].seller) == terms.seller
    && a.listings[terms.handle].price == terms.price && a.listings[terms.handle].fee == terms.fee
  }

  ghost predicate AddsTrade(a: T.Tables, b: T.Tables, e: Event) {
    && (forall h :: h in b.listings ==> h in a.listings && SameOffer(a.listings[h], b.listings[h]))
    && (forall id :: id in b.trades ==>
          (id in a.trades && a.trades[id].terms == b.trades[id].terms) || TakesOffer(a, e, id, b.trades[id].terms))
  }

  lemma CancelAdds(s: System, e: Event)
    requires e.CancelTrade?
    ensures AddsListing(s.world.tables, Next(s, e).world.tables, e)
  {
    CancelShape(s, e.id, e.clock);
  }

  lemma RequestAdds(s: System, e: Event)
    requires e.UseNonce? || e.ListHandle?
    ensures AddsListing(s.world.tables, Next(s, e).world.tables, e)
  {
  }

  lemma ReservationAdds(s: System, e: Event)
    requires e.ReserveHandle?
    ensures AddsTrade(s.world.tables, Next(s, e).world.tables, e)
  {
  }

  lemma OtherAdds(s: System, e: Event)
    requires !(e.UseNonce? || e.ListHandle? || e.CancelTrade? || e.ReserveHandle?)
    ensures KeepsOffers(s.world.tables, Next(s, e).world.tables)
  {
    if e.Advance? && e.pid in s.tasks {
      StepKeepsOffers(s.world, s.tasks[e.pid], e.io);
    }
  }

  lemma AskedBefore(events: seq<Event>, e: Event)
    ensures forall h, seller, price, fee :: IsListedAs(events, h, seller, price, fee) ==> IsListedAs(events + [e], h, seller, price, fee)
    ensures forall id, terms :: IsReservedAs(events, id, terms) ==> IsReservedAs(events + [e], id, terms)
  {
    assert forall i :: 0 <= i < |events| ==> (events + [e])[i] == events[i];
  }

  lemma AskedNow(events: seq<Event>, e: Event)
    ensures forall h, seller, price, fee :: AsksListing(e, h, seller, price, fee) ==> IsListedAs(events + [e], h, seller, price, fee)
    ensures forall id, terms :: AsksReservation(e, id, terms) ==> IsReservedAs(events + [e], id, terms)
  {
    assert (events + [e])[|events|] == e;
  }

  lemma MoreAsked(events: seq<Event>, a: T.Tables, b: T.Tables, e: Event)
    requires ListingsAsked(events, a) && TradesAsked(events, a)
    requires AddsListing(a, b, e) || AddsTrade(a, b, e) || KeepsOffers(a, b)
    requires forall h :: h in a.listings ==> Compact(a.listings[h].seller) == a.listings[h].seller
    ensures ListingsAsked(events + [e], b) && TradesAsked(events + [e], b)
  {
    AskedBefore(events, e);
    AskedNow(events, e);
  }

  lemma SellersCompact(events: seq<Event>, tb: T.Tables)
    requires ListingsAsked(events, tb)
    ensures forall h :: h in tb.listings ==> Compact(tb.listings[h].seller) == tb.listings[h].seller
  {
    forall h | h in tb.listings
      ensures Compact(tb.listings[h].seller) == tb.listings[h].seller
    {
      var i :| 0 <= i < |events| && AsksListing(events[i], h, tb.listings[h].seller, tb.listings[h].price, tb.listings[h].fee);
      CompactNormalize(events[i].seller);
    }
  }

  lemma {:induction false} AllAsked(setup: Setup, events: seq<Event>)
    ensures ListingsAsked(events, Run(Initial(setup), events).world.tables)
    ensures TradesAsked(events, Run(Initial(setup), events).world.tables)
  {
    if |events| > 0 {
      var init, e := events[..|events| - 1], events[|events| - 1];
      var s := Run(Initial(setup), init);
      AllAsked(setup, init);
      SellersCompact(init, s.world.tables);
      NextAsked(s, init, e);
      assert events == init + [e];
    }
  }

  lemma NextAsked(s: System, events: seq<Event>, e: Event)
    requires ListingsAsked(events, s.world.tables) && TradesAsked(events, s.world.tables)
    requires forall h :: h in s.world.tables.listings ==> Compact(s.world.tables.listings[h].seller) == s.world.tables.listings[h].seller
    ensures ListingsAsked(events + [e], Next(s, e).world.tables) && TradesAsked(events + [e], Next(s, e).world.tables)
  {
    if e.CancelTrade? {
      CancelAdds(s, e);
    } else if e.UseNonce? || e.ListHandle? {
      RequestAdds(s, e);
    } else if e.ReserveHandle? {
      ReservationAdds(s, e);
    } else {
      OtherAdds(s, e);
    }
    MoreAsked(events, s.world.tables, Next(s, e).world.tables, e);
  }

  /** Every trade has the price, the fee and the seller of a request that listed its handle, and the reference, the
      buyer and half an hour from the time of the request that reserved it; addresses in compact form. */
  lemma TermsWereAsked(setup: Setup, events: seq<Event>, id: string)
    requires id in Run(Initial(setup), events).world.tables.trades
    ensures var terms := Run(Initial(setup), events).world.tables.trades[id].terms;
      && (exists i :: 0 <= i < |events| && AsksListing(events[i], terms.handle, terms.seller, terms.price, terms.fee))
      && (exists j :: 0 <= j < |events| && AsksReservation(events[j], id, terms))
  {
    AllAsked(setup, events);
  }

  // ---- Hashes ----

  /** A handler submitted this transaction. */
  ghost predicate WasStarted(events: seq<Event>, task: Task) {
    exists i :: 0 <= i < |events| && events[i].Start? && events[i].task == task
  }

  /** The recorded release was submitted for the trade; the recorded claim was, or the registry resolved it; the escrow
      address is the deployment's. */
  ghost predicate RecordsOf(events: seq<Event>, resolved: set<Resolution>, escrow: string, id: string, t: Trade) {
    && (t.releaseTxHash == "" || WasStarted(events, SubmitRelease(id, t.releaseTxHash)))
    && (t.claimTxHash == "" || WasStarted(events, SubmitClaim(id, t.claimTxHash))
        || exists c :: Resolution(t.terms.handle, c) in resolved && c.txHash == t.claimTxHash)
    && (t.escrowAddress == escrow || (t.escrowAddress == "" && (t.state.Reserved? || t.state.Expired? || t.state.Canceled?)))
  }

  ghost predicate RowsRecorded(events: seq<Event>, s: System) {
    forall id :: id in s.world.tables.trades ==> RecordsOf(events, s.resolved, s.world.escrow, id, s.world.tables.trades[id])
  }

  ghost predicate TasksStarted(events: seq<Event>, tasks: map<nat, Task>) {
    forall p :: p in tasks && (tasks[p].SubmitRelease? || tasks[p].SubmitClaim?) ==> WasStarted(events, tasks[p])
  }

  /** What a step may write into these columns. */
  predicate Writes(w: World, task: Task, id: string, t: Trade, t': Trade) {
    && (t'.releaseTxHash == t.releaseTxHash || task == SubmitRelease(id, t'.releaseTxHash))
    && (t'.claimTxHash == t.claimTxHash || task == SubmitClaim(id, t'.claimTxHash)
        || (task.WalkHop? && task.id == id && task.claim.txHash == t'.claimTxHash))
    && (t'.escrowAddress == w.escrow
        || (t'.escrowAddress == t.escrowAddress
            && (t.state.Reserved? || t.state.Expired? || t.state.Canceled? ==> t'.state == t.state || t'.state.Expired? || t'.state.Canceled?)))
  }

  ghost predicate WritesOnly(w: World, task: Task, after: T.Tables) {
    forall id :: id in after.trades ==> id in w.tables.trades && Writes(w, task, id, w.tables.trades[id], after.trades[id])
  }

  lemma MoveWrites(w: World, task: Task, id: string, from: TradeState, to: TradeState, m: Mutation, clock: int, r: T.Result, next: Option<Task>)
    requires IsMove(w.tables, id, from, to, m, clock, r)
    requires m.SetRelease? ==> task == SubmitRelease(id, m.txHash)
    requires m.SetClaim? ==> task == SubmitClaim(id, m.txHash) || (task.WalkHop? && task.id == id && task.claim.txHash == m.txHash)
    requires m.SetEscrowAddress? ==> m.address == w.escrow
    requires from.Reserved? || from.Expired? || from.Canceled? ==> m.SetEscrowAddress? || to == from || !CanTransitionTo(from, to)
    ensures WritesOnly(w, task, Commit(w, r, next).world.tables)
  {
  }

  lemma StepWrites(w: World, task: Task, io: Io)
    ensures WritesOnly(w, task, TaskStep(w, task, io).world.tables)
  {
    if IsPlainTask(task) {
      var ask := AskOf(w, task);
      var r := AskShape(w, task, io);
      MoveWrites(w, task, ask.id, ask.from, ask.to, ask.m, io.clock, r, ask.next);
    } else if task.WalkHop? || task.FailHop? {
      HopWrites(w, task, io);
    } else if task.SettleFinish? || task.RefundFinish? || task.RecordDeposit? || task.FinalizeDeposit? || task.ExpireReservation? {
      MoneyWrites(w, task, io);
    } else {
      RestWrites(w, task, io);
    }
  }

  lemma HopWrites(w: World, task: Task, io: Io)
    requires task.WalkHop? || task.FailHop?
    ensures WritesOnly(w, task, TaskStep(w, task, io).world.tables)
  {
    match task
    case WalkHop(id, from, claim) =>
      if NextInChain(from).None? {
        NoHopShape(w, id, from, claim, io);
      } else {
        var r := HopShape(w, id, from, claim, io);
        var to := NextInChain(from).value;
        MoveWrites(w, task, id, from, to, if to == SettlementPending then SetClaim(claim.txHash) else NoMutation, io.clock, r, Some(WalkRead(id, claim)));
      }
    case FailHop(id, from, claim) =>
      var r := FailShape(w, id, from, claim, io);
      MoveWrites(w, task, id, from, FailedAfterRelease, NoMutation, io.clock, r, Some(FailToRefund(id)));
  }

  lemma MoneyWrites(w: World, task: Task, io: Io)
    requires task.SettleFinish? || task.RefundFinish? || task.RecordDeposit? || task.FinalizeDeposit? || task.ExpireReservation?
    ensures WritesOnly(w, task, TaskStep(w, task, io).world.tables)
  {
    match task
    case SettleFinish(id, terms, at, h) =>
      var r := SettleFinishShape(w, id, terms, at, h, io);
      MoveWrites(w, task, id, SettlementPending, Settled, SetPayout(h), io.clock, r, None);
    case RefundFinish(id, terms, at, h) =>
      var r := RefundFinishShape(w, id, terms, at, h, io);
      MoveWrites(w, task, id, RefundPending, Refunded, SetRefund(h), io.clock, r, None);
    case RecordDeposit(id, tx) =>
      var r := RecordShape(w, id, tx, io);
      MoveWrites(w, task, id, AwaitingDeposit, DepositFinalizing, SetDeposit(Deposit(tx.hash, tx.blockNumber)), io.clock, r, None);
    case FinalizeDeposit(id) =>
      var r := FinalizeShape(w, id, io);
      MoveWrites(w, task, id, DepositFinalizing, Funded, NoMutation, io.clock, r, None);
    case ExpireReservation(id) => ExpireShape(w, id, io);
  }

  lemma RestWrites(w: World, task: Task, io: Io)
    requires !IsPlainTask(task) && !task.WalkHop? && !task.FailHop? && !task.SettleFinish? && !task.RefundFinish?
    requires !task.RecordDeposit? && !task.FinalizeDeposit? && !task.ExpireReservation?
    ensures WritesOnly(w, task, TaskStep(w, task, io).world.tables)
  {
  }

  lemma StartedBefore(events: seq<Event>, e: Event)
    ensures forall task :: WasStarted(events, task) ==> WasStarted(events + [e], task)
    ensures e.Start? ==> WasStarted(events + [e], e.task)
  {
    assert forall i :: 0 <= i < |events| ==> (events + [e])[i] == events[i];
    assert (events + [e])[|events|] == e;
  }

  lemma RecordStays(events: seq<Event>, e: Event, resolved: set<Resolution>, more: set<Resolution>, escrow: string, id: string, t: Trade)
    requires RecordsOf(events, resolved, escrow, id, t) && resolved <= more
    ensures RecordsOf(events + [e], more, escrow, id, t)
  {
    StartedBefore(events, e);
  }

  /** A row written by a task that may rely on what it has read. */
  lemma RecordWritten(events: seq<Event>, e: Event, s: System, task: Task, id: string, t': Trade)
    requires id in s.world.tables.trades && RecordsOf(events, s.resolved, s.world.escrow, id, s.world.tables.trades[id])
    requires TaskOk(s.world, s.chain, s.resolved, task) && (task.SubmitRelease? || task.SubmitClaim? ==> WasStarted(events, task))
    requires Writes(s.world, task, id, s.world.tables.trades[id], t') && t'.terms == s.world.tables.trades[id].terms
    ensures RecordsOf(events + [e], s.resolved, s.world.escrow, id, t')
  {
    StartedBefore(events, e);
  }

  lemma NeverSubmitsNext(w: World, chain: Chain, resolved: set<Resolution>, task: Task, io: Io)
    ensures var next := TaskStep(w, task, io).next; next.Some? ==> !next.value.SubmitRelease? && !next.value.SubmitClaim?
  {
  }

  lemma AdvanceRecords(events: seq<Event>, s: System, pid: nat, io: Io)
    requires RowsRecorded(events, s) && TasksStarted(events, s.tasks)
    requires pid in s.tasks && TaskOk(s.world, s.chain, s.resolved, s.tasks[pid])
    ensures var s', all := Next(s, Advance(pid, io)), events + [Advance(pid, io)]; RowsRecorded(all, s') && TasksStarted(all, s'.tasks)
  {
    var e, task, r := Advance(pid, io), s.tasks[pid], TaskStep(s.world, s.tasks[pid], io);
    AdvanceShape(s, pid, io);
    StepWrites(s.world, task, io);
    StepKeepsOffers(s.world, task, io);
    StepEvolves(s.world, task, io);
    NeverSubmitsNext(s.world, s.chain, s.resolved, task, io);
    StartedBefore(events, e);
    AfterRecords(events, s, pid, e, r);
  }

  lemma AfterRecords(events: seq<Event>, s: System, pid: nat, e: Event, r: StepResult)
    requires RowsRecorded(events, s) && TasksStarted(events, s.tasks)
    requires pid in s.tasks && TaskOk(s.world, s.chain, s.resolved, s.tasks[pid])
    requires WritesOnly(s.world, s.tasks[pid], r.world.tables) && KeepsOffers(s.world.tables, r.world.tables) && r.world.escrow == s.world.escrow
    requires r.next.Some? ==> !r.next.value.SubmitRelease? && !r.next.value.SubmitClaim?
    ensures var s', all := After(s.(tasks := s.tasks - {pid}), pid, r), events + [e]; RowsRecorded(all, s') && TasksStarted(all, s'.tasks)
  {
    var s', all := After(s.(tasks := s.tasks - {pid}), pid, r), events + [e];
    forall id | id in s'.world.tables.trades
      ensures RecordsOf(all, s'.resolved, s'.world.escrow, id, s'.world.tables.trades[id])
    {
      RecordWritten(events, e, s, s.tasks[pid], id, s'.world.tables.trades[id]);
    }
    StartedBefore(events, e);
  }

  /** Rows that are new have no records yet; the others keep theirs. */
  ghost predicate KeepsRecords(s: System, s': System) {
    && s'.world.escrow == s.world.escrow && s.resolved <= s'.resolved
    && forall id :: id in s'.world.tables.trades ==>
         var t' := s'.world.tables.trades[id];
         || (t'.releaseTxHash == "" && t'.claimTxHash == "" && t'.escrowAddress == "" && t'.state.Reserved?)
         || (id in s.world.tables.trades && t'.terms == s.world.tables.trades[id].terms
             && t'.releaseTxHash == s.world.tables.trades[id].releaseTxHash && t'.claimTxHash == s.world.tables.trades[id].claimTxHash
             && t'.escrowAddress == s.world.tables.trades[id].escrowAddress
             && (t'.state == s.world.tables.trades[id].state || t'.state.Canceled?))
  }

  lemma RequestKeepsRecords(s: System, e: Event)
    requires e.UseNonce? || e.ListHandle? || e.ReserveHandle? || e.CancelTrade?
    ensures KeepsRecords(s, Next(s, e))
  {
    if e.CancelTrade? {
      CancelKeepsRecords(s, e);
    } else {
      AddingKeepsRecords(s, e);
    }
  }

  lemma CancelKeepsRecords(s: System, e: Event)
    requires e.CancelTrade?
    ensures KeepsRecords(s, Next(s, e))
  {
    CancelShape(s, e.id, e.clock);
  }

  lemma AddingKeepsRecords(s: System, e: Event)
    requires e.UseNonce? || e.ListHandle? || e.ReserveHandle?
    ensures KeepsRecords(s, Next(s, e))
  {
  }

  lemma OtherKeepsRecords(s: System, e: Event)
    requires !e.Advance? && !(e.UseNonce? || e.ListHandle? || e.ReserveHandle? || e.CancelTrade?)
    ensures Next(s, e).world == s.world && s.resolved <= Next(s, e).resolved
  {
  }

  lemma TasksFrom(events: seq<Event>, s: System, e: Event)
    requires TasksStarted(events, s.tasks) && !e.Advance?
    ensures TasksStarted(events + [e], Next(s, e).tasks)
  {
    StartedBefore(events, e);
  }

  lemma KeptRecords(events: seq<Event>, s: System, e: Event, s': System)
    requires RowsRecorded(events, s) && KeepsRecords(s, s')
    ensures RowsRecorded(events + [e], s')
  {
    StartedBefore(events, e);
    forall id | id in s'.world.tables.trades
      ensures RecordsOf(events + [e], s'.resolved, s'.world.escrow, id, s'.world.tables.trades[id])
    {
      if id in s.world.tables.trades {
        RecordStays(events, e, s.resolved, s'.resolved, s.world.escrow, id, s.world.tables.trades[id]);
      }
    }
  }

  lemma NextRecords(events: seq<Event>, s: System, e: Event)
    requires Inv(s) && RowsRecorded(events, s) && TasksStarted(events, s.tasks)
    ensures RowsRecorded(events + [e], Next(s, e)) && TasksStarted(events + [e], Next(s, e).tasks)
  {
    if e.Advance? && e.pid in s.tasks {
      TaskMayRely(s, e.pid);
      AdvanceRecords(events, s, e.pid, e.io);
    } else if e.Advance? {
      KeptRecords(events, s, e, s);
      StartedBefore(events, e);
    } else {
      if e.UseNonce? || e.ListHandle? || e.ReserveHandle? || e.CancelTrade? {
        RequestKeepsRecords(s, e);
      } else {
        OtherKeepsRecords(s, e);
      }
      KeptRecords(events, s, e, Next(s, e));
      TasksFrom(events, s, e);
    }
  }

  lemma TaskMayRely(s: System, pid: nat)
    requires Inv(s) && pid in s.tasks
    ensures TaskOk(s.world, s.chain, s.resolved, s.tasks[pid])
  {
  }

  lemma {:induction false} AllRecorded(setup: Setup, events: seq<Event>)
    ensures RowsRecorded(events, Run(Initial(setup), events)) && TasksStarted(events, Run(Initial(setup), events).tasks)
  {
    if |events| > 0 {
      var init, e := events[..|events| - 1], events[|events| - 1];
      AllRecorded(setup, init);
      RunOk(setup, init);
      NextRecords(init, Run(Initial(setup), init), e);
      assert events == init + [e];
    }
  }

  /** Every recorded release was submitted for that trade, every recorded claim was too or was resolved by the registry
      for its handle, and the escrow address is the deployment's. */
  lemma HashesWereSubmitted(setup: Setup, events: seq<Event>, id: string)
    requires id in Run(Initial(setup), events).world.tables.trades
    ensures var s := Run(Initial(setup), events); var t := s.world.tables.trades[id];
      && (t.releaseTxHash != "" ==>
            exists i :: 0 <= i < |events| && events[i].Start? && events[i].task == SubmitRelease(id, t.releaseTxHash))
      && (t.claimTxHash != "" ==>
            || (exists i :: 0 <= i < |events| && events[i].Start? && events[i].task == SubmitClaim(id, t.claimTxHash))
            || (exists c :: Resolution(t.terms.handle, c) in s.resolved && c.txHash == t.claimTxHash))
      && (t.escrowAddress == setup.escrow || (t.escrowAddress == "" && (t.state.Reserved? || t.state.Expired? || t.state.Canceled?)))
  {
    AllRecorded(setup, events);
    RunOk(setup, events);
    SetupStays(Initial(setup), events);
  }

  /** And a submission that comes in time is recorded: the row moves on with its hash, and nothing else changes. */
  lemma SubmissionIsRecorded(s: System, pid: nat, io: Io, id: string, h: string)
    requires pid in s.tasks && id in s.world.tables.trades
    requires s.tasks[pid] == SubmitRelease(id, h) || s.tasks[pid] == SubmitClaim(id, h)
    ensures var t, t' := s.world.tables.trades[id], Next(s, Advance(pid, io)).world.tables.trades[id];
      if s.tasks[pid].SubmitRelease? then
        t' == if t.state.AwaitingRelease?
              then t.(state := ReleaseConfirming, releaseTxHash := h, version := t.version + 1, updatedAt := io.clock) else t
      else
        t' == if t.state.AwaitingClaim?
              then t.(state := ClaimConfirming, claimTxHash := h, version := t.version + 1, updatedAt := io.clock) else t
  {
  }
}
