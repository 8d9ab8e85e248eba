/** The escrow protocol as a state machine: request handlers, watchers and workers run as tasks whose
    steps are the single store, signer and ledger calls of the code. Any task may be delayed, interleaved
    with the others or crash between two steps, as it also ends when a call of the store fails.
    (backend/marketplace_settlement.go, marketplace_ownership_watcher.go, marketplace_escrow_watcher.go,
    marketplace_handlers.go) */
module EscrowSystem {
  import opened Wrappers
  import opened Trades
  import opened AddressText
  import opened ChainTypes
  import opened HandleFold
  import Addresses
  import L = Ledger
  import T = MarketplaceTables

  type UnixTime = t: int | t > 0 witness 1

  datatype SendKind = Payout | Refund

  /** One invocation of the signer, whatever came of it. */
  datatype Send = Send(tradeId: string, kind: SendKind, to: string, amount: int)

  /** What all tasks share: the database, the ledger, and the signer's history. */
  datatype World = World(escrow: string, tables: T.Tables, ledger: seq<L.Entry>, sends: seq<Send>)

  /** The chain as fetches see it: `seen` was part of it at some time, `live` is part of it now, and blocks up
      to `macro` are final. */
  datatype Chain = Chain(seen: set<RpcTx>, live: set<RpcTx>, macro: nat)

  /** The points between two shared steps, with the local variables that survive. */
  datatype Task =
    // reserve handler, after the reservation is committed
    | AdvanceReserved(id: string)
    // deposit watcher: one fetched transaction, then the trade it matched
    | MatchDeposit(tx: RpcTx)
    | RecordDeposit(id: string, tx: RpcTx)
    // deposit watcher: one row of the second and of the third scan
    | FinalizeDeposit(id: string)
    | HealFunded(id: string)
    // expiry sweep: one row of the stale list
    | ExpireReservation(id: string)
    // release and claim handlers, after the submitted transaction is verified
    | SubmitRelease(id: string, txHash: string)
    | SubmitClaim(id: string, txHash: string)
    // ownership watcher, handle owned by the buyer: walkChainTo
    | WalkRead(id: string, claim: HandleClaim)
    | WalkHop(id: string, from: TradeState, claim: HandleClaim)
    // ownership watcher, handle owned by a stranger: walkChainToFailure
    | FailRead(id: string, claim: HandleClaim)
    | FailFirstHop(id: string, claim: HandleClaim)
    | FailReread(id: string, claim: HandleClaim)
    | FailHop(id: string, from: TradeState, claim: HandleClaim)
    | FailToRefund(id: string)
    // SettlementWorker.Settle
    | SettleRead(id: string)
    | SettleMark(id: string)
    | SettleSend(id: string, terms: Terms, at: UnixTime)
    | SettleBookPayout(id: string, terms: Terms, at: UnixTime, txHash: string)
    | SettleBookFee(id: string, terms: Terms, at: UnixTime, txHash: string)
    | SettleFinish(id: string, terms: Terms, at: UnixTime, txHash: string)
    // SettlementWorker.Refund
    | RefundRead(id: string)
    | RefundMark(id: string)
    | RefundSend(id: string, terms: Terms, at: UnixTime)
    | RefundBook(id: string, terms: Terms, at: UnixTime, txHash: string)
    | RefundFinish(id: string, terms: Terms, at: UnixTime, txHash: string)

  /** What the outside decides during a step: the time, and the signer's answer (None when it fails). */
  datatype Io = Io(clock: UnixTime, signed: Option<string>)

  datatype StepResult = StepResult(world: World, next: Option<Task>)

  /** The next state of the settlement chain. */
  function NextInChain(s: TradeState): Option<TradeState> {
    match s
    case AwaitingRelease => Some(ReleaseConfirming)
    case ReleaseConfirming => Some(AwaitingClaim)
    case AwaitingClaim => Some(ClaimConfirming)
    case ClaimConfirming => Some(SettlementPending)
    case _ => None
  }

  /** The deposit watcher's test of a transaction against a trade's terms. */
  predicate PaysFor(tx: RpcTx, terms: Terms, escrow: string) {
    && Compact(tx.Recipient()) == Compact(escrow)
    && ParseTradeReference(tx.Data()) == terms.reference
    && terms.reference != ""
    && tx.value == terms.price
    && Compact(Normalize(tx.Sender())) == Compact(terms.buyer)
  }

  ghost function FindByReference(tables: T.Tables, reference: string): Option<string> {
    if tables.UsesReference(reference) then
      var id :| id in tables.trades && tables.trades[id].terms.reference == reference;
      Some(id)
    else None
  }

  function Commit(w: World, r: T.Result, next: Option<Task>): StepResult {
    match r
    case Ok(tables) => StepResult(w.(tables := tables), next)
    case Fail(_) => StepResult(w, None)
  }

  function Stop(w: World): StepResult { StepResult(w, None) }

  function Continue(w: World, t: Task): StepResult { StepResult(w, Some(t)) }

  ghost function MatchStep(w: World, tx: RpcTx): StepResult {
    if Compact(tx.Recipient()) != Compact(w.escrow) || ParseTradeReference(tx.Data()) == "" then Stop(w)
    else
      match FindByReference(w.tables, ParseTradeReference(tx.Data()))
      case None => Stop(w)
      case Some(id) =>
        var t := w.tables.trades[id];
        if t.state == AwaitingDeposit && PaysFor(tx, t.terms, w.escrow) then Continue(w, RecordDeposit(id, tx))
        else Stop(w)
  }

  function WalkReadStep(w: World, id: string, claim: HandleClaim): StepResult {
    if id !in w.tables.trades then Stop(w)
    else
      var state := w.tables.trades[id].state;
      if state == SettlementPending then Continue(w, SettleRead(id))
      else if NextInChain(state).None? then Stop(w)
      else Continue(w, WalkHop(id, state, claim))
  }

  function WalkHopStep(w: World, id: string, from: TradeState, claim: HandleClaim, clock: int): StepResult {
    match NextInChain(from)
    case None => Stop(w)
    case Some(to) =>
      var m := if to == SettlementPending then SetClaim(claim.txHash) else NoMutation;
      Commit(w, T.Transition(w.tables, id, from, to, m, clock), Some(WalkRead(id, claim)))
  }

  function FailReadStep(w: World, id: string, claim: HandleClaim): StepResult {
    if id !in w.tables.trades then Stop(w)
    else if w.tables.trades[id].state == AwaitingRelease then Continue(w, FailFirstHop(id, claim))
    else Continue(w, FailHop(id, w.tables.trades[id].state, claim))
  }

  function SettleReadStep(w: World, id: string): StepResult {
    if id !in w.tables.trades then Stop(w)
    else
      var t := w.tables.trades[id];
      if t.state != SettlementPending then Stop(w)
      else if t.payout.at != 0 && t.payout.txHash == "" then Stop(w)
      else if t.terms.fee > t.terms.price then Stop(w)
      else Continue(w, SettleMark(id))
  }

  function SettleMarkStep(w: World, id: string, clock: UnixTime): StepResult {
    match T.MarkPayoutAttempt(w.tables, id, clock, clock)
    case Ok(tables) => StepResult(w.(tables := tables), Some(SettleSend(id, w.tables.trades[id].terms, clock)))
    case Fail(_) => Stop(w)
  }

  function PayoutSend(id: string, terms: Terms): Send {
    Send(id, Payout, Addresses.ForRPC(terms.seller), terms.price - terms.fee)
  }

  function RefundSendOf(id: string, terms: Terms): Send {
    Send(id, Refund, Addresses.ForRPC(terms.buyer), terms.price)
  }

  function PayoutLine(id: string, terms: Terms, at: int, txHash: string): L.Entry {
    L.Entry(id, L.PayoutEntry, terms.fee - terms.price, txHash, at)
  }

  function FeeLine(id: string, terms: Terms, at: int): L.Entry {
    L.Entry(id, L.FeeEntry, 0 - terms.fee, "", at)
  }

  function RefundLine(id: string, terms: Terms, at: int, txHash: string): L.Entry {
    L.Entry(id, L.RefundEntry, 0 - terms.price, txHash, at)
  }

  function SettleSendStep(w: World, id: string, terms: Terms, at: UnixTime, signed: Option<string>): StepResult {
    var sent := w.(sends := w.sends + [PayoutSend(id, terms)]);
    match signed
    case None => Stop(sent)
    case Some(txHash) => Continue(sent, SettleBookPayout(id, terms, at, txHash))
  }

  function RefundReadStep(w: World, id: string): StepResult {
    if id !in w.tables.trades then Stop(w)
    else
      var t := w.tables.trades[id];
      if t.state != RefundPending then Stop(w)
      else if t.refund.at != 0 && t.refund.txHash == "" then Stop(w)
      else Continue(w, RefundMark(id))
  }

  function RefundMarkStep(w: World, id: string, clock: UnixTime): StepResult {
    match T.MarkRefundAttempt(w.tables, id, clock, clock)
    case Ok(tables) => StepResult(w.(tables := tables), Some(RefundSend(id, w.tables.trades[id].terms, clock)))
    case Fail(_) => Stop(w)
  }

  function RefundSendStep(w: World, id: string, terms: Terms, at: UnixTime, signed: Option<string>): StepResult {
    var sent := w.(sends := w.sends + [RefundSendOf(id, terms)]);
    match signed
    case None => Stop(sent)
    case Some(txHash) => Continue(sent, RefundBook(id, terms, at, txHash))
  }

  function Book(w: World, e: L.Entry, next: Task): StepResult {
    Continue(w.(ledger := w.ledger + [e]), next)
  }

  /** One shared step of a task. */
  ghost function TaskStep(w: World, task: Task, io: Io): StepResult {
    var tb, clock := w.tables, io.clock;
    match task
    case AdvanceReserved(id) =>
      Commit(w, T.Transition(tb, id, Reserved, AwaitingDeposit, SetEscrowAddress(w.escrow), clock), None)
    case MatchDeposit(tx) => MatchStep(w, tx)
    case RecordDeposit(id, tx) =>
      Commit(w, T.Transition(tb, id, AwaitingDeposit, DepositFinalizing, SetDeposit(Deposit(tx.hash, tx.blockNumber)), clock), None)
    case FinalizeDeposit(id) => Commit(w, T.Transition(tb, id, DepositFinalizing, Funded, NoMutation, clock), None)
    case HealFunded(id) => Commit(w, T.Transition(tb, id, Funded, AwaitingRelease, NoMutation, clock), None)
    case ExpireReservation(id) => Commit(w, T.ReleaseUnpaid(tb, id, Expired, clock), None)
    case SubmitRelease(id, h) =>
      Commit(w, T.Transition(tb, id, AwaitingRelease, ReleaseConfirming, SetRelease(h), clock), None)
    case SubmitClaim(id, h) => Commit(w, T.Transition(tb, id, AwaitingClaim, ClaimConfirming, SetClaim(h), clock), None)
    case WalkRead(id, claim) => WalkReadStep(w, id, claim)
    case WalkHop(id, from, claim) => WalkHopStep(w, id, from, claim, clock)
    case FailRead(id, claim) => FailReadStep(w, id, claim)
    case FailFirstHop(id, claim) =>
      Commit(w, T.Transition(tb, id, AwaitingRelease, ReleaseConfirming, NoMutation, clock), Some(FailReread(id, claim)))
    case FailReread(id, claim) =>
      if id in tb.trades then Continue(w, FailHop(id, tb.trades[id].state, claim)) else Stop(w)
    case FailHop(id, from, claim) =>
      Commit(w, T.Transition(tb, id, from, FailedAfterRelease, NoMutation, clock), Some(FailToRefund(id)))
    case FailToRefund(id) =>
      Commit(w, T.Transition(tb, id, FailedAfterRelease, RefundPending, NoMutation, clock), Some(RefundRead(id)))
    case SettleRead(id) => SettleReadStep(w, id)
    case SettleMark(id) => SettleMarkStep(w, id, clock)
    case SettleSend(id, terms, at) => SettleSendStep(w, id, terms, at, io.signed)
    case SettleBookPayout(id, terms, at, h) =>
      Book(w, PayoutLine(id, terms, at, h), SettleBookFee(id, terms, at, h))
    case SettleBookFee(id, terms, at, h) =>
      Book(w, FeeLine(id, terms, at), SettleFinish(id, terms, at, h))
    case SettleFinish(id, _, _, h) => Commit(w, T.Transition(tb, id, SettlementPending, Settled, SetPayout(h), clock), None)
    case RefundRead(id) => RefundReadStep(w, id)
    case RefundMark(id) => RefundMarkStep(w, id, clock)
    case RefundSend(id, terms, at) => RefundSendStep(w, id, terms, at, io.signed)
    case RefundBook(id, terms, at, h) =>
      Book(w, RefundLine(id, terms, at, h), RefundFinish(id, terms, at, h))
    case RefundFinish(id, _, _, h) => Commit(w, T.Transition(tb, id, RefundPending, Refunded, SetRefund(h), clock), None)
  }

  /** A claim the registry reported for a handle when its block was final. */
  datatype Resolution = Resolution(handle: string, claim: HandleClaim)

  /** What a deployment fixes: the escrow and registry addresses, who stands behind a swap contract, and the height
      from which releases count. */
  datatype Setup = Setup(escrow: string, registryAddress: string, creator: string -> string, activation: nat) {
    function Rules(): Reading {
      BackendReading(creator, activation)
    }

    predicate IsInbound(tx: RpcTx) {
      Compact(tx.Recipient()) == Compact(registryAddress)
    }
  }

  /** `resolved` remembers which claims the ownership watcher has acted on. */
  datatype System = System(
    world: World, tasks: map<nat, Task>, chain: Chain, registry: Handles, resolved: set<Resolution>, setup: Setup)

  function Initial(setup: Setup): System {
    System(World(setup.escrow, T.EMPTY, [], []), map[], Chain({}, {}, 0), map[], {}, setup)
  }

  predicate OwnedByBuyer(terms: Terms, claim: HandleClaim) {
    Compact(claim.address) == Compact(terms.buyer)
  }

  predicate OwnedByStranger(terms: Terms, claim: HandleClaim) {
    Compact(claim.address) != Compact(terms.buyer) && Compact(claim.address) != Compact(terms.seller)
  }

  predicate Resolves(s: System, handle: string, claim: HandleClaim) {
    handle in s.registry && s.registry[handle] == claim && claim.blockHeight <= s.chain.macro
  }

  /** What a handler or watcher must have read for a task to come into being. A sweep's loop starts one task per
      item, so every order and repetition of its iterations is a run. The ownership sweep looks at trades on the chain
      before settlement only, and nothing but the sweep calls the settlement worker. */
  predicate MayStart(s: System, task: Task) {
    var trades := s.world.tables.trades;
    match task
    case MatchDeposit(tx) => tx in s.chain.live
    case FinalizeDeposit(id) =>
      id in trades && trades[id].state == DepositFinalizing && trades[id].deposit.blockHeight <= s.chain.macro
    case HealFunded(id) => id in trades && trades[id].state == Funded
    case ExpireReservation(id) => id in trades && trades[id].IsUnpaidReservation() && trades[id].terms.depositDeadline > 0
    case SubmitRelease(id, _) => id in trades && trades[id].state == AwaitingRelease
    case SubmitClaim(id, _) => id in trades && trades[id].state == AwaitingClaim
    case WalkRead(id, claim) =>
      id in trades && NextInChain(trades[id].state).Some? && Resolves(s, trades[id].terms.handle, claim) && OwnedByBuyer(trades[id].terms, claim)
    case FailRead(id, claim) =>
      id in trades && NextInChain(trades[id].state).Some? && Resolves(s, trades[id].terms.handle, claim) && OwnedByStranger(trades[id].terms, claim)
    case _ => false
  }

  /** The resolution a starting ownership task relies on. */
  function Evidence(s: System, task: Task): set<Resolution> {
    match task
    case WalkRead(id, claim) => if id in s.world.tables.trades then {Resolution(s.world.tables.trades[id].terms.handle, claim)} else {}
    case FailRead(id, claim) => if id in s.world.tables.trades then {Resolution(s.world.tables.trades[id].terms.handle, claim)} else {}
    case _ => {}
  }

  datatype Event =
    | UseNonce(nonce: string)
    | ListHandle(handle: string, seller: string, price: nat, fee: nat, epoch: string, clock: UnixTime)
    | ReserveHandle(pid: nat, handle: string, id: string, reference: string, buyer: string, clock: UnixTime)
    | CancelTrade(id: string, clock: UnixTime)
    | Start(pid: nat, task: Task)
    | Advance(pid: nat, io: Io)
    | Crash(pid: nat)
    | Include(tx: RpcTx)
    | Reorganise(dropped: set<RpcTx>)
    | MacroBlock(height: nat)
    | RegistrySwept(ordered: seq<RpcTx>)

  /** Transactions with one hash have one content; only the block they sit in may differ. */
  predicate SameContent(a: RpcTx, b: RpcTx) {
    a.hash == b.hash ==> a == b.(blockNumber := a.blockNumber, transactionIndex := a.transactionIndex, timestamp := a.timestamp)
  }

  /** A list the registry sweep may fold: what is on the chain for the registry, in a sorted order, not ambiguous. */
  ghost predicate IsSweepable(s: System, ordered: seq<RpcTx>) {
    && IsSorted(ordered) && !IsAmbiguous(s.setup.Rules(), ordered)
    && forall tx :: tx in ordered <==> tx in s.chain.live && s.setup.IsInbound(tx)
  }

  function WithTables(s: System, r: T.Result): System {
    match r case Ok(tables) => s.(world := s.world.(tables := tables)) case Fail(_) => s
  }

  function WithTask(tasks: map<nat, Task>, pid: nat, next: Option<Task>): map<nat, Task> {
    match next case Some(t) => tasks[pid := t] case None => tasks - {pid}
  }

  /** The next state; an event whose condition does not hold changes nothing. */
  ghost function Next(s: System, e: Event): System {
    match e
    case UseNonce(nonce) => WithTables(s, T.ConsumeNonce(s.world.tables, nonce))
    case ListHandle(handle, seller, price, fee, epoch, clock) =>
      WithTables(s, T.CreateListing(s.world.tables, handle, seller, price, fee, epoch, clock))
    case ReserveHandle(pid, handle, id, reference, buyer, clock) =>
      var r := T.ReserveListing(s.world.tables, handle, id, reference, buyer, clock);
      if r.Ok? && pid !in s.tasks then WithTables(s, r).(tasks := s.tasks[pid := AdvanceReserved(id)]) else s
    case CancelTrade(id, clock) => WithTables(s, T.ReleaseUnpaid(s.world.tables, id, Canceled, clock))
    case Start(pid, task) =>
      if pid !in s.tasks && MayStart(s, task)
      then s.(tasks := s.tasks[pid := task], resolved := s.resolved + Evidence(s, task)) else s
    case Advance(pid, io) =>
      if pid in s.tasks then
        var r := TaskStep(s.world, s.tasks[pid], io);
        s.(world := r.world, tasks := WithTask(s.tasks, pid, r.next))
      else s
    case Crash(pid) => s.(tasks := s.tasks - {pid})
    case Include(tx) =>
      if tx.blockNumber > s.chain.macro && forall prior :: prior in s.chain.seen ==> SameContent(tx, prior)
      then s.(chain := s.chain.(seen := s.chain.seen + {tx}, live := s.chain.live + {tx})) else s
    case Reorganise(dropped) =>
      if forall tx :: tx in dropped ==> tx.blockNumber > s.chain.macro
      then s.(chain := s.chain.(live := s.chain.live - dropped)) else s
    case MacroBlock(height) => if height >= s.chain.macro then s.(chain := s.chain.(macro := height)) else s
    case RegistrySwept(ordered) =>
      if IsSweepable(s, ordered) then s.(registry := Fold(s.setup.Rules(), ordered)) else s
  }

  ghost function Run(s: System, events: seq<Event>): System {
    if |events| == 0 then s else Next(Run(s, events[..|events| - 1]), events[|events| - 1])
  }

  /** A deposit that pays for the only trade with its reference is matched to it. */
  lemma MatchFinds(w: World, tx: RpcTx, id: string)
    requires id in w.tables.trades && w.tables.trades[id].state.AwaitingDeposit? && PaysFor(tx, w.tables.trades[id].terms, w.escrow)
    requires forall k :: k in w.tables.trades && w.tables.trades[k].terms.reference == w.tables.trades[id].terms.reference ==> k == id
    ensures MatchStep(w, tx) == Continue(w, RecordDeposit(id, tx))
  {
    assert w.tables.UsesReference(w.tables.trades[id].terms.reference);
  }
}
