/** What one moment of a run says about every later moment. */
module EscrowHistory {
  import opened Wrappers
  import opened Trades
  import opened ChainTypes
  import opened EscrowSystem
  import opened EscrowInvariant
  import L = Ledger
  import T = MarketplaceTables

  predicate IsClosed(s: TradeState) {
    s.Expired? || s.Canceled? || s.Settled? || s.Refunded?
  }

  /** Terms are fixed and every change shows in the version; a recorded deposit stays recorded and its trade is never
      withdrawn; a closed trade never changes; settling and refunding are one-way and exclude each other; an attempt is
      marked once. */
  predicate RowEvolves(t: Trade, t': Trade) {
    && t'.terms == t.terms && t.version <= t'.version && (t' != t ==> t.version < t'.version)
    && (IsDeposited(t.state) ==> IsDeposited(t'.state) && t'.deposit == t.deposit)
    && (IsClosed(t.state) ==> t' == t)
    && (IsSettling(t.state) ==> IsSettling(t'.state))
    && (IsRefunding(t.state) ==> IsRefunding(t'.state))
    && (t.payout.at != 0 ==> t'.payout.at == t.payout.at)
    && (t.refund.at != 0 ==> t'.refund.at == t.refund.at)
  }

  ghost predicate TablesEvolve(a: T.Tables, b: T.Tables) {
    forall id :: id in a.trades ==> id in b.trades && RowEvolves(a.trades[id], b.trades[id])
  }

  ghost predicate WorldEvolves(a: World, b: World) {
    a.escrow == b.escrow && TablesEvolve(a.tables, b.tables) && a.ledger <= b.ledger && a.sends <= b.sends
  }

  /** The state changes tasks ask for. */
  predicate IsForward(from: TradeState, to: TradeState, m: Mutation) {
    && !to.ManualReview? && !IsClosed(from)
    && (IsDeposited(from) ==> IsDeposited(to) && !m.SetDeposit?)
    && (IsSettling(from) ==> IsSettling(to))
    && (IsRefunding(from) ==> IsRefunding(to))
  }

  lemma MoveEvolves(t: Trade, to: TradeState, m: Mutation, clock: int)
    requires IsForward(t.state, to, m)
    ensures RowEvolves(t, T.Moved(t, to, m, clock))
  {
  }

  lemma SameTables(w: World)
    ensures WorldEvolves(w, w)
  {
  }

  lemma OneRowEvolves(w: World, id: string, t: Trade)
    requires id in w.tables.trades && RowEvolves(w.tables.trades[id], t)
    ensures WorldEvolves(w, w.(tables := w.tables.(trades := w.tables.trades[id := t])))
  {
  }

  lemma TransitionEvolves(w: World, id: string, from: TradeState, to: TradeState, m: Mutation, clock: int, next: Option<Task>)
    requires IsForward(from, to, m)
    ensures WorldEvolves(w, Commit(w, T.Transition(w.tables, id, from, to, m, clock), next).world)
  {
    if T.Transition(w.tables, id, from, to, m, clock).Ok? {
      MoveEvolves(w.tables.trades[id], to, m, clock);
      OneRowEvolves(w, id, T.Moved(w.tables.trades[id], to, m, clock));
    } else {
      SameTables(w);
    }
  }

  lemma WithdrawalEvolves(tb: T.Tables, id: string, to: TradeState, clock: int)
    requires to == Expired || to == Canceled
    ensures T.ReleaseUnpaid(tb, id, to, clock).Ok? ==> TablesEvolve(tb, T.ReleaseUnpaid(tb, id, to, clock).value)
  {
  }

  lemma WalkEvolves(w: World, id: string, from: TradeState, claim: HandleClaim, clock: int)
    ensures WorldEvolves(w, WalkHopStep(w, id, from, claim, clock).world)
  {
    match NextInChain(from)
    case None =>
    case Some(to) =>
      TransitionEvolves(w, id, from, to, if to == SettlementPending then SetClaim(claim.txHash) else NoMutation, clock, Some(WalkRead(id, claim)));
  }

  lemma FailEvolves(w: World, id: string, from: TradeState, clock: int, next: Option<Task>)
    ensures WorldEvolves(w, Commit(w, T.Transition(w.tables, id, from, FailedAfterRelease, NoMutation, clock), next).world)
  {
    if CanTransitionTo(from, FailedAfterRelease) {
      TransitionEvolves(w, id, from, FailedAfterRelease, NoMutation, clock, next);
    }
  }

  lemma MarksEvolve(w: World, id: string, clock: UnixTime)
    ensures WorldEvolves(w, SettleMarkStep(w, id, clock).world)
    ensures WorldEvolves(w, RefundMarkStep(w, id, clock).world)
  {
  }

  predicate IsHandlerStep(task: Task) {
    task.AdvanceReserved? || task.RecordDeposit? || task.FinalizeDeposit? || task.HealFunded? || task.SubmitRelease? || task.SubmitClaim?
  }

  predicate IsClosingStep(task: Task) {
    task.FailFirstHop? || task.FailToRefund? || task.SettleFinish? || task.RefundFinish?
  }

  lemma HandlerStepEvolves(w: World, task: Task, io: Io)
    requires IsHandlerStep(task)
    ensures WorldEvolves(w, TaskStep(w, task, io).world)
  {
    var c := io.clock;
    match task
    case AdvanceReserved(id) => TransitionEvolves(w, id, Reserved, AwaitingDeposit, SetEscrowAddress(w.escrow), c, None);
    case RecordDeposit(id, tx) =>
      TransitionEvolves(w, id, AwaitingDeposit, DepositFinalizing, SetDeposit(Deposit(tx.hash, tx.blockNumber)), c, None);
    case FinalizeDeposit(id) => TransitionEvolves(w, id, DepositFinalizing, Funded, NoMutation, c, None);
    case HealFunded(id) => TransitionEvolves(w, id, Funded, AwaitingRelease, NoMutation, c, None);
    case SubmitRelease(id, h) => TransitionEvolves(w, id, AwaitingRelease, ReleaseConfirming, SetRelease(h), c, None);
    case SubmitClaim(id, h) => TransitionEvolves(w, id, AwaitingClaim, ClaimConfirming, SetClaim(h), c, None);
  }

  lemma ClosingStepEvolves(w: World, task: Task, io: Io)
    requires IsClosingStep(task)
    ensures WorldEvolves(w, TaskStep(w, task, io).world)
  {
    var c := io.clock;
    match task
    case FailFirstHop(id, claim) => TransitionEvolves(w, id, AwaitingRelease, ReleaseConfirming, NoMutation, c, Some(FailReread(id, claim)));
    case FailToRefund(id) => TransitionEvolves(w, id, FailedAfterRelease, RefundPending, NoMutation, c, Some(RefundRead(id)));
    case SettleFinish(id, _, _, h) => TransitionEvolves(w, id, SettlementPending, Settled, SetPayout(h), c, None);
    case RefundFinish(id, _, _, h) => TransitionEvolves(w, id, RefundPending, Refunded, SetRefund(h), c, None);
  }

  predicate IsBookStep(task: Task) {
    task.SettleSend? || task.SettleBookPayout? || task.SettleBookFee? || task.RefundSend? || task.RefundBook?
  }

  lemma MoreBooks(w: World, sends: seq<Send>, ledger: seq<L.Entry>)
    requires w.sends <= sends && w.ledger <= ledger
    ensures WorldEvolves(w, w.(sends := sends, ledger := ledger))
  {
  }

  lemma BooksOnly(w: World, task: Task, io: Io)
    requires IsBookStep(task)
    ensures var w' := TaskStep(w, task, io).world;
            w' == w.(sends := w'.sends, ledger := w'.ledger) && w.sends <= w'.sends && w.ledger <= w'.ledger
  {
  }

  lemma BooksEvolve(w: World, task: Task, io: Io)
    requires IsBookStep(task)
    ensures WorldEvolves(w, TaskStep(w, task, io).world)
  {
    BooksOnly(w, task, io);
    MoreBooks(w, TaskStep(w, task, io).world.sends, TaskStep(w, task, io).world.ledger);
  }

  lemma LooksEvolve(w: World, task: Task, io: Io)
    requires task.MatchDeposit? || task.WalkRead? || task.FailRead? || task.FailReread? || task.SettleRead? || task.RefundRead?
    ensures TaskStep(w, task, io).world == w
  {
  }

  lemma OtherStepEvolves(w: World, task: Task, io: Io)
    requires task.WalkHop? || task.FailHop? || task.ExpireReservation? || task.SettleMark? || task.RefundMark?
    ensures WorldEvolves(w, TaskStep(w, task, io).world)
  {
    match task
    case WalkHop(id, from, claim) => WalkEvolves(w, id, from, claim, io.clock);
    case FailHop(id, from, _) => FailEvolves(w, id, from, io.clock, Some(FailToRefund(id)));
    case ExpireReservation(id) => WithdrawalEvolves(w.tables, id, Expired, io.clock);
    case SettleMark(id) => MarksEvolve(w, id, io.clock);
    case RefundMark(id) => MarksEvolve(w, id, io.clock);
  }

  lemma StepEvolves(w: World, task: Task, io: Io)
    ensures WorldEvolves(w, TaskStep(w, task, io).world)
  {
    if IsHandlerStep(task) {
      HandlerStepEvolves(w, task, io);
    } else if IsClosingStep(task) {
      ClosingStepEvolves(w, task, io);
    } else if IsBookStep(task) {
      BooksEvolve(w, task, io);
    } else if task.WalkHop? || task.FailHop? || task.ExpireReservation? || task.SettleMark? || task.RefundMark? {
      OtherStepEvolves(w, task, io);
    } else {
      LooksEvolve(w, task, io);
      SameTables(w);
    }
  }

  lemma RequestEvolves(s: System, e: Event)
    requires e.UseNonce? || e.ListHandle? || e.ReserveHandle? || e.CancelTrade?
    ensures WorldEvolves(s.world, Next(s, e).world)
  {
    match e
    case CancelTrade(id, clock) => WithdrawalEvolves(s.world.tables, id, Canceled, clock);
    case _ =>
  }

  lemma NextEvolves(s: System, e: Event)
    ensures WorldEvolves(s.world, Next(s, e).world)
  {
    if e.Advance? && e.pid in s.tasks {
      StepEvolves(s.world, s.tasks[e.pid], e.io);
    } else if e.UseNonce? || e.ListHandle? || e.ReserveHandle? || e.CancelTrade? {
      RequestEvolves(s, e);
    } else {
      SameTables(s.world);
    }
  }

  lemma EvolvesThrough(a: World, b: World, c: World)
    requires WorldEvolves(a, b) && WorldEvolves(b, c)
    ensures WorldEvolves(a, c)
  {
  }

  /** Whatever happens, from whatever state: no trade with a recorded deposit is ever expired or canceled, no
      withdrawn trade ever changes again, no trade both settles and is refunded, and signer history and ledger
      only grow. */
  lemma {:induction false} HistoryIsKept(s: System, events: seq<Event>)
    ensures WorldEvolves(s.world, Run(s, events).world)
  {
    if |events| > 0 {
      var prior := Run(s, events[..|events| - 1]);
      HistoryIsKept(s, events[..|events| - 1]);
      NextEvolves(prior, events[|events| - 1]);
      EvolvesThrough(s.world, prior.world, Next(prior, events[|events| - 1]).world);
    }
  }

  lemma {:induction false} RunOn(s: System, a: seq<Event>, b: seq<Event>)
    ensures Run(s, a + b) == Run(Run(s, a), b)
  {
    if |b| == 0 {
      assert a + b == a;
    } else {
      RunOn(s, a, b[..|b| - 1]);
      assert (a + b)[..|a + b| - 1] == a + b[..|b| - 1];
    }
  }

  // ---- Reorganisations ----

  lemma ChainMoves(s: System, e: Event, tx: RpcTx)
    requires tx.blockNumber <= s.chain.macro
    ensures s.chain.macro <= Next(s, e).chain.macro
    ensures tx in s.chain.live <==> tx in Next(s, e).chain.live
  {
  }

  /** A transaction in a final block is on the chain from now on exactly if it is on the chain now. */
  lemma {:induction false} FinalityIsStable(s: System, events: seq<Event>, tx: RpcTx)
    requires tx.blockNumber <= s.chain.macro
    ensures s.chain.macro <= Run(s, events).chain.macro
    ensures tx in s.chain.live <==> tx in Run(s, events).chain.live
  {
    if |events| > 0 {
      FinalityIsStable(s, events[..|events| - 1], tx);
      ChainMoves(Run(s, events[..|events| - 1]), events[|events| - 1], tx);
    }
  }

  /** A transaction with this hash is on the chain, in whatever block. */
  ghost predicate IsOnChain(s: System, hash: string) {
    exists tx :: tx in s.chain.live && tx.hash == hash
  }

  /** One is, in a block that is final: what a lookup by hash and the last macro block would tell. */
  ghost predicate IsFinalOnChain(s: System, hash: string) {
    exists tx :: tx in s.chain.live && tx.hash == hash && tx.blockNumber <= s.chain.macro
  }

  lemma FinalStaysOnChain(s: System, hash: string, events: seq<Event>)
    requires IsFinalOnChain(s, hash)
    ensures IsOnChain(Run(s, events), hash)
  {
    var tx :| tx in s.chain.live && tx.hash == hash && tx.blockNumber <= s.chain.macro;
    FinalityIsStable(s, events, tx);
  }

  /** Until a block is final a reorganisation can take all its transactions away. */
  lemma UnfinalCanGo(s: System, hash: string) returns (events: seq<Event>)
    requires !IsFinalOnChain(s, hash)
    ensures !IsOnChain(Run(s, events), hash)
  {
    var dropped := set tx | tx in s.chain.live && tx.hash == hash;
    events := [Reorganise(dropped)];
    assert events[..0] == [];
    assert Run(s, events) == Next(s, Reorganise(dropped));
  }

  /** A hash is on the chain whatever happens from now on exactly if it is there now, in a final block. */
  lemma OnChainForeverIff(s: System, hash: string)
    ensures (forall more :: IsOnChain(Run(s, more), hash)) <==> IsFinalOnChain(s, hash)
  {
    if IsFinalOnChain(s, hash) {
      forall more
        ensures IsOnChain(Run(s, more), hash)
      {
        FinalStaysOnChain(s, hash, more);
      }
    } else {
      var events := UnfinalCanGo(s, hash);
    }
  }
}
