/** Every step of every task keeps the escrow invariant. A step is taken by a task that has been set aside, so
    that the invariant speaks of the other tasks only. */
module EscrowSteps {
  import opened Wrappers
  import opened Trades
  import opened AddressText
  import opened ChainTypes
  import opened EscrowSystem
  import opened EscrowInvariant
  import opened EscrowPreservation
  import opened MarketplaceInvariant
  import L = Ledger
  import T = MarketplaceTables

  ghost function After(s: System, pid: nat, r: StepResult): System {
    s.(world := r.world, tasks := WithTask(s.tasks, pid, r.next))
  }

  /** A task about to step, and the others. */
  ghost predicate Ready(s: System, pid: nat, task: Task) {
    && Inv(s) && pid !in s.tasks
    && TaskOk(s.world, s.chain, s.resolved, task)
    && (WorksOn(task).Some? ==> NobodyWorksOn(s.tasks, WorksOn(task).value))
  }

  lemma Stopped(s: System, pid: nat)
    requires Inv(s) && pid !in s.tasks
    ensures After(s, pid, Stop(s.world)) == s
  {
    assert s.tasks - {pid} == s.tasks;
  }

  /** The moved row of an unmarked trade. */
  function MovedTables(tb: T.Tables, id: string, to: TradeState, m: Mutation, clock: int): T.Tables
    requires id in tb.trades
  {
    tb.(trades := tb.trades[id := T.Moved(tb.trades[id], to, m, clock)])
  }

  /** The part of a row's invariant that does not look at the books. */
  ghost predicate RowFacts(w: World, chain: Chain, resolved: set<Resolution>, t: Trade) {
    FundsOk(w.escrow, chain, t) && MarksOk(t) && ResolvedOk(resolved, t)
  }

  /** A change of an unmarked row that needs nothing from the rest of the system. */
  ghost predicate FineMove(w: World, chain: Chain, resolved: set<Resolution>, t: Trade, to: TradeState, m: Mutation, clock: int) {
    var t' := T.Moved(t, to, m, clock);
    && t.payout.at == 0 && t.refund.at == 0 && t'.payout == t.payout && t'.refund == t.refund
    && !IsWithdrawn(t) && !IsWithdrawn(t')
    && RowFacts(w, chain, resolved, t')
    && (t'.IsUnpaidReservation() ==> t.IsUnpaidReservation())
    && (IsDeposited(t.state) ==> IsDeposited(t'.state) && t'.deposit == t.deposit)
  }

  lemma RowHolds(s: System, id: string)
    requires Inv(s) && id in s.world.tables.trades
    ensures RowFacts(s.world, s.chain, s.resolved, s.world.tables.trades[id])
    ensures BooksOk(id, s.world.tables.trades[id], SendsOf(s.world.sends, id), L.EntriesOf(s.world.ledger, id))
  {
    assert RowOk(s.world, s.chain, s.resolved, id);
  }

  /** The tables with one row replaced. */
  function WithRow(w: World, id: string, t: Trade): World {
    w.(tables := w.tables.(trades := w.tables.trades[id := t]))
  }

  /** What a replacement row must meet, and what it must keep of the old one. */
  ghost predicate Replaces(w: World, chain: Chain, resolved: set<Resolution>, id: string, t: Trade, t': Trade) {
    && RowFacts(w, chain, resolved, t') && BooksOk(id, t', SendsOf(w.sends, id), L.EntriesOf(w.ledger, id))
    && t'.terms == t.terms
    && !IsWithdrawn(t) && !IsWithdrawn(t')
    && (t'.IsUnpaidReservation() ==> t.IsUnpaidReservation())
    && (IsDeposited(t.state) ==> IsDeposited(t'.state) && t'.deposit == t.deposit)
  }

  lemma ChangeRow(s: System, id: string, t': Trade)
    requires Inv(s) && id in s.world.tables.trades && NobodyWorksOn(s.tasks, id)
    requires Replaces(s.world, s.chain, s.resolved, id, s.world.tables.trades[id], t')
    ensures Inv(s.(world := WithRow(s.world, id, t')))
  {
    RowKeepsOrder(s.world.tables, id, t');
    UpdateRow(s, WithRow(s.world, id, t').tables, id);
  }

  lemma MoveRow(s: System, id: string, to: TradeState, m: Mutation, clock: int)
    requires Inv(s) && id in s.world.tables.trades
    requires FineMove(s.world, s.chain, s.resolved, s.world.tables.trades[id], to, m, clock)
    ensures Inv(s.(world := s.world.(tables := MovedTables(s.world.tables, id, to, m, clock))))
  {
    UnmarkedIsIdle(s, id);
    RowHolds(s, id);
    ChangeRow(s, id, T.Moved(s.world.tables.trades[id], to, m, clock));
  }

  /** The moves before any decision, and the move to a refund: none needs more than the row itself. */
  predicate PlainMove(from: TradeState, to: TradeState, m: Mutation) {
    || (from.Reserved? && to.AwaitingDeposit? && m.SetEscrowAddress?)
    || (from.Funded? && to.AwaitingRelease? && m.NoMutation?)
    || (from.AwaitingRelease? && to.ReleaseConfirming? && (m.NoMutation? || m.SetRelease?))
    || (from.ReleaseConfirming? && to.AwaitingClaim? && m.NoMutation?)
    || (from.AwaitingClaim? && to.ClaimConfirming? && (m.NoMutation? || m.SetClaim?))
    || (from.FailedAfterRelease? && to.RefundPending? && m.NoMutation?)
  }

  lemma PlainChanges(t: Trade, to: TradeState, m: Mutation, clock: int)
    requires PlainMove(t.state, to, m)
    ensures var t' := T.Moved(t, to, m, clock);
            t'.state == to && t'.terms == t.terms && t'.deposit == t.deposit && t'.payout == t.payout && t'.refund == t.refund
  {
  }

  predicate PlainStates(from: TradeState, to: TradeState) {
    && IsDeposited(from) == IsDeposited(to)
    && !to.DepositFinalizing? && !to.ManualReview? && !to.Settled? && !to.Refunded? && !IsSettling(to)
    && !from.DepositFinalizing? && !IsSettling(from)
    && !from.RefundPending? && !from.Refunded?
    && (IsRefunding(to) ==> IsRefunding(from))
    && (to.Reserved? || to.AwaitingDeposit? ==> from.Reserved? || from.AwaitingDeposit?)
  }

  lemma PlainStatesOk(from: TradeState, to: TradeState, m: Mutation)
    requires PlainMove(from, to, m)
    ensures PlainStates(from, to) && !from.Expired? && !from.Canceled? && !to.Expired? && !to.Canceled?
  {
  }

  lemma PlainIsFine(w: World, chain: Chain, resolved: set<Resolution>, t: Trade, to: TradeState, m: Mutation, clock: int)
    requires RowFacts(w, chain, resolved, t) && PlainMove(t.state, to, m)
    ensures FineMove(w, chain, resolved, t, to, m, clock)
  {
    PlainChanges(t, to, m, clock);
    PlainStatesOk(t.state, to, m);
    StatesSuffice(w, chain, resolved, t, T.Moved(t, to, m, clock));
  }

  lemma StatesSuffice(w: World, chain: Chain, resolved: set<Resolution>, t: Trade, t': Trade)
    requires RowFacts(w, chain, resolved, t) && PlainStates(t.state, t'.state)
    requires t'.terms == t.terms && t'.deposit == t.deposit && t'.payout == t.payout && t'.refund == t.refund
    ensures t.payout.at == 0 && t.refund.at == 0 && RowFacts(w, chain, resolved, t')
  {
  }

  lemma PlainMoveOk(s: System, id: string, to: TradeState, m: Mutation, clock: int)
    requires Inv(s) && id in s.world.tables.trades && PlainMove(s.world.tables.trades[id].state, to, m)
    ensures Inv(s.(world := s.world.(tables := MovedTables(s.world.tables, id, to, m, clock))))
  {
    RowHolds(s, id);
    PlainIsFine(s.world, s.chain, s.resolved, s.world.tables.trades[id], to, m, clock);
    MoveRow(s, id, to, m, clock);
  }

  lemma RecordIsFine(w: World, chain: Chain, resolved: set<Resolution>, t: Trade, tx: RpcTx, clock: int)
    requires RowFacts(w, chain, resolved, t) && t.state.AwaitingDeposit? && tx in chain.seen && PaysFor(tx, t.terms, w.escrow)
    ensures FineMove(w, chain, resolved, t, DepositFinalizing, SetDeposit(Deposit(tx.hash, tx.blockNumber)), clock)
  {
  }

  lemma RecordOk(s: System, id: string, tx: RpcTx, clock: int)
    requires Inv(s) && id in s.world.tables.trades && tx in s.chain.seen && PaysFor(tx, s.world.tables.trades[id].terms, s.world.escrow)
    requires s.world.tables.trades[id].state.AwaitingDeposit?
    ensures Inv(s.(world := s.world.(tables := MovedTables(s.world.tables, id, DepositFinalizing, SetDeposit(Deposit(tx.hash, tx.blockNumber)), clock))))
  {
    RowHolds(s, id);
    RecordIsFine(s.world, s.chain, s.resolved, s.world.tables.trades[id], tx, clock);
    MoveRow(s, id, DepositFinalizing, SetDeposit(Deposit(tx.hash, tx.blockNumber)), clock);
  }

  lemma FinalizeIsFine(w: World, chain: Chain, resolved: set<Resolution>, t: Trade, clock: int)
    requires RowFacts(w, chain, resolved, t) && t.state.DepositFinalizing? && t.deposit.blockHeight <= chain.macro
    ensures FineMove(w, chain, resolved, t, Funded, NoMutation, clock)
  {
  }

  lemma FinalizeOk(s: System, id: string, clock: int)
    requires Inv(s) && id in s.world.tables.trades && s.world.tables.trades[id].state.DepositFinalizing?
    requires s.world.tables.trades[id].deposit.blockHeight <= s.chain.macro
    ensures Inv(s.(world := s.world.(tables := MovedTables(s.world.tables, id, Funded, NoMutation, clock))))
  {
    RowHolds(s, id);
    FinalizeIsFine(s.world, s.chain, s.resolved, s.world.tables.trades[id], clock);
    MoveRow(s, id, Funded, NoMutation, clock);
  }

  lemma SettleableIsFine(w: World, chain: Chain, resolved: set<Resolution>, t: Trade, claim: HandleClaim, clock: int)
    requires RowFacts(w, chain, resolved, t) && t.state.ClaimConfirming?
    requires Resolution(t.terms.handle, claim) in resolved && OwnedByBuyer(t.terms, claim)
    ensures FineMove(w, chain, resolved, t, SettlementPending, SetClaim(claim.txHash), clock)
  {
    var t' := T.Moved(t, SettlementPending, SetClaim(claim.txHash), clock);
    assert Resolution(t'.terms.handle, claim) in resolved && OwnedByBuyer(t'.terms, claim) && claim.txHash == t'.claimTxHash;
  }

  lemma SettleableOk(s: System, id: string, claim: HandleClaim, clock: int)
    requires Inv(s) && BuyerResolved(s.world, s.resolved, id, claim)
    requires s.world.tables.trades[id].state.ClaimConfirming?
    ensures Inv(s.(world := s.world.(tables := MovedTables(s.world.tables, id, SettlementPending, SetClaim(claim.txHash), clock))))
  {
    RowHolds(s, id);
    SettleableIsFine(s.world, s.chain, s.resolved, s.world.tables.trades[id], claim, clock);
    MoveRow(s, id, SettlementPending, SetClaim(claim.txHash), clock);
  }

  lemma FailedIsFine(w: World, chain: Chain, resolved: set<Resolution>, t: Trade, claim: HandleClaim, clock: int)
    requires RowFacts(w, chain, resolved, t) && CanTransitionTo(t.state, FailedAfterRelease)
    requires Resolution(t.terms.handle, claim) in resolved && OwnedByStranger(t.terms, claim)
    ensures FineMove(w, chain, resolved, t, FailedAfterRelease, NoMutation, clock)
  {
    var t' := T.Moved(t, FailedAfterRelease, NoMutation, clock);
    FailingStates(t.state);
    assert t'.deposit == t.deposit && t'.payout == t.payout && t'.refund == t.refund;
    assert Resolution(t'.terms.handle, claim) in resolved && OwnedByStranger(t'.terms, claim);
  }

  lemma FailingStates(from: TradeState)
    requires CanTransitionTo(from, FailedAfterRelease)
    ensures IsDeposited(from) && !IsSettling(from) && !from.DepositFinalizing? && !from.RefundPending? && !from.Refunded?
  {
  }

  lemma FailedOk(s: System, id: string, claim: HandleClaim, clock: int)
    requires Inv(s) && StrangerResolved(s.world, s.resolved, id, claim)
    requires CanTransitionTo(s.world.tables.trades[id].state, FailedAfterRelease)
    ensures Inv(s.(world := s.world.(tables := MovedTables(s.world.tables, id, FailedAfterRelease, NoMutation, clock))))
  {
    RowHolds(s, id);
    FailedIsFine(s.world, s.chain, s.resolved, s.world.tables.trades[id], claim, clock);
    MoveRow(s, id, FailedAfterRelease, NoMutation, clock);
  }

  lemma WithdrawnFacts(w: World, chain: Chain, resolved: set<Resolution>, t: Trade, to: TradeState, clock: int)
    requires RowFacts(w, chain, resolved, t) && t.IsUnpaidReservation() && (to == Expired || to == Canceled)
    ensures t.payout.at == 0 && t.refund.at == 0 && !IsDeposited(t.state)
    ensures RowFacts(w, chain, resolved, T.Moved(t, to, NoMutation, clock))
  {
  }

  /** An unpaid reservation is withdrawn. */
  lemma WithdrawOk(s: System, id: string, to: TradeState, clock: int)
    requires Inv(s) && (to == Expired || to == Canceled) && T.ReleaseUnpaid(s.world.tables, id, to, clock).Ok?
    ensures Inv(s.(world := s.world.(tables := T.ReleaseUnpaid(s.world.tables, id, to, clock).value)))
  {
    var after := T.ReleaseUnpaid(s.world.tables, id, to, clock).value;
    ReleaseKeepsOrder(s.world.tables, id, to, clock);
    RowHolds(s, id);
    WithdrawnFacts(s.world, s.chain, s.resolved, s.world.tables.trades[id], to, clock);
    UnmarkedIsIdle(s, id);
    UpdateRow(s, after, id);
  }
}
