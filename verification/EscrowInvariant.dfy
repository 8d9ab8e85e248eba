/** The inductive invariant of the escrow protocol. */
module EscrowInvariant {
  import opened Wrappers
  import opened Trades
  import opened AddressText
  import opened ChainTypes
  import opened EscrowSystem
  import opened HandleFold
  import opened MarketplaceInvariant
  import L = Ledger
  import T = MarketplaceTables

  /** A deposit has been recorded, now or in the past. */
  predicate IsDeposited(s: TradeState) {
    !(s.Reserved? || s.AwaitingDeposit? || s.Expired? || s.Canceled? || s.ManualReview?)
  }

  predicate IsSettling(s: TradeState) { s.SettlementPending? || s.Settled? }

  predicate IsRefunding(s: TradeState) { s.FailedAfterRelease? || s.RefundPending? || s.Refunded? }

  function SendsOf(sends: seq<Send>, id: string): seq<Send> {
    if |sends| == 0 then []
    else SendsOf(sends[..|sends| - 1], id) + (if sends[|sends| - 1].tradeId == id then [sends[|sends| - 1]] else [])
  }

  lemma SentOnce(sends: seq<Send>, x: Send, id: string)
    ensures SendsOf(sends + [x], id) == SendsOf(sends, id) + (if x.tradeId == id then [x] else [])
  {
    assert (sends + [x])[..|sends|] == sends;
  }

  // ---- One trade ----

  /** Some transaction once on the chain is the recorded deposit and pays exactly for the trade. */
  ghost predicate DepositSeen(escrow: string, chain: Chain, t: Trade) {
    exists tx :: tx in chain.seen && tx.hash == t.deposit.txHash && tx.blockNumber == t.deposit.blockHeight && PaysFor(tx, t.terms, escrow)
  }

  ghost predicate FundsOk(escrow: string, chain: Chain, t: Trade) {
    && !t.state.ManualReview?
    && (!IsDeposited(t.state) ==> t.deposit.txHash == "")
    && (IsDeposited(t.state) ==> DepositSeen(escrow, chain, t))
    && (IsDeposited(t.state) && !t.state.DepositFinalizing? ==> t.deposit.blockHeight <= chain.macro)
  }

  predicate MarksOk(t: Trade) {
    && (t.payout.at != 0 ==> IsSettling(t.state) && t.terms.fee <= t.terms.price)
    && (t.payout.txHash != "" ==> t.state.Settled?)
    && (t.state.Settled? ==> t.payout.at != 0)
    && (t.refund.at != 0 ==> t.state.RefundPending? || t.state.Refunded?)
    && (t.refund.txHash != "" ==> t.state.Refunded?)
    && (t.state.Refunded? ==> t.refund.at != 0)
  }

  /** The registry resolution that let the trade be settled, or made it fail. */
  ghost predicate ResolvedOk(resolved: set<Resolution>, t: Trade) {
    && (IsSettling(t.state) ==> exists c :: Resolution(t.terms.handle, c) in resolved && OwnedByBuyer(t.terms, c) && c.txHash == t.claimTxHash)
    && (IsRefunding(t.state) ==> exists c :: Resolution(t.terms.handle, c) in resolved && OwnedByStranger(t.terms, c))
  }

  /** How far a payout has come: its send, then its two ledger lines. */
  predicate PayoutProgress(id: string, t: Trade, sends: seq<Send>, lines: seq<L.Entry>, txHash: string) {
    && |sends| <= 1 && |lines| <= 2
    && (|sends| == 1 ==> sends[0] == PayoutSend(id, t.terms))
    && (|lines| > 0 ==> |sends| == 1 && lines[0] == PayoutLine(id, t.terms, t.payout.at, txHash))
    && (|lines| == 2 ==> lines[1] == FeeLine(id, t.terms, t.payout.at))
  }

  predicate RefundProgress(id: string, t: Trade, sends: seq<Send>, lines: seq<L.Entry>, txHash: string) {
    && |sends| <= 1 && |lines| <= 1
    && (|sends| == 1 ==> sends[0] == RefundSendOf(id, t.terms))
    && (|lines| == 1 ==> |sends| == 1 && lines[0] == RefundLine(id, t.terms, t.refund.at, txHash))
  }

  function FirstHash(lines: seq<L.Entry>): string {
    if |lines| > 0 then lines[0].txHash else ""
  }

  /** What the signer and the ledger hold for one trade. */
  predicate BooksOk(id: string, t: Trade, sends: seq<Send>, lines: seq<L.Entry>) {
    && (t.payout.at == 0 && t.refund.at == 0 ==> sends == [] && lines == [])
    && (t.payout.at != 0 ==> PayoutProgress(id, t, sends, lines, FirstHash(lines)))
    && (t.refund.at != 0 ==> RefundProgress(id, t, sends, lines, FirstHash(lines)))
    && (t.state.Settled? ==> |lines| == 2 && FirstHash(lines) == t.payout.txHash)
    && (t.state.Refunded? ==> |lines| == 1 && FirstHash(lines) == t.refund.txHash)
  }

  ghost predicate RowOk(w: World, chain: Chain, resolved: set<Resolution>, id: string)
    requires id in w.tables.trades
  {
    var t := w.tables.trades[id];
    && FundsOk(w.escrow, chain, t)
    && MarksOk(t)
    && ResolvedOk(resolved, t)
    && BooksOk(id, t, SendsOf(w.sends, id), L.EntriesOf(w.ledger, id))
  }

  // ---- One task ----

  /** The trade a worker has marked an attempt for. */
  function WorksOn(task: Task): Option<string> {
    match task
    case SettleSend(id, _, _) => Some(id)
    case SettleBookPayout(id, _, _, _) => Some(id)
    case SettleBookFee(id, _, _, _) => Some(id)
    case SettleFinish(id, _, _, _) => Some(id)
    case RefundSend(id, _, _) => Some(id)
    case RefundBook(id, _, _, _) => Some(id)
    case RefundFinish(id, _, _, _) => Some(id)
    case _ => None
  }

  predicate Paying(w: World, id: string, terms: Terms, at: int, sent: nat, booked: nat, txHash: string) {
    && id in w.tables.trades
    && w.tables.trades[id].state.SettlementPending?
    && w.tables.trades[id].terms == terms && w.tables.trades[id].payout.at == at
    && |SendsOf(w.sends, id)| == sent && |L.EntriesOf(w.ledger, id)| == booked
    && (booked > 0 ==> FirstHash(L.EntriesOf(w.ledger, id)) == txHash)
  }

  predicate Refunding(w: World, id: string, terms: Terms, at: int, sent: nat, booked: nat, txHash: string) {
    && id in w.tables.trades
    && w.tables.trades[id].state.RefundPending?
    && w.tables.trades[id].terms == terms && w.tables.trades[id].refund.at == at
    && |SendsOf(w.sends, id)| == sent && |L.EntriesOf(w.ledger, id)| == booked
    && (booked > 0 ==> FirstHash(L.EntriesOf(w.ledger, id)) == txHash)
  }

  predicate BuyerResolved(w: World, resolved: set<Resolution>, id: string, claim: HandleClaim) {
    && id in w.tables.trades
    && Resolution(w.tables.trades[id].terms.handle, claim) in resolved && OwnedByBuyer(w.tables.trades[id].terms, claim)
  }

  predicate StrangerResolved(w: World, resolved: set<Resolution>, id: string, claim: HandleClaim) {
    && id in w.tables.trades
    && Resolution(w.tables.trades[id].terms.handle, claim) in resolved && OwnedByStranger(w.tables.trades[id].terms, claim)
  }

  /** What each task may rely on when it takes its next step. */
  ghost predicate TaskOk(w: World, chain: Chain, resolved: set<Resolution>, task: Task) {
    match task
    case MatchDeposit(tx) => tx in chain.seen
    case RecordDeposit(id, tx) => id in w.tables.trades && tx in chain.seen && PaysFor(tx, w.tables.trades[id].terms, w.escrow)
    case FinalizeDeposit(id) =>
      id in w.tables.trades && IsDeposited(w.tables.trades[id].state) && w.tables.trades[id].deposit.blockHeight <= chain.macro
    case WalkRead(id, claim) => BuyerResolved(w, resolved, id, claim)
    case WalkHop(id, _, claim) => BuyerResolved(w, resolved, id, claim)
    case FailRead(id, claim) => StrangerResolved(w, resolved, id, claim)
    case FailFirstHop(id, claim) => StrangerResolved(w, resolved, id, claim)
    case FailReread(id, claim) => StrangerResolved(w, resolved, id, claim)
    case FailHop(id, _, claim) => StrangerResolved(w, resolved, id, claim)
    case SettleMark(id) => id in w.tables.trades && w.tables.trades[id].terms.fee <= w.tables.trades[id].terms.price
    case SettleSend(id, terms, at) => Paying(w, id, terms, at, 0, 0, "")
    case SettleBookPayout(id, terms, at, h) => Paying(w, id, terms, at, 1, 0, h)
    case SettleBookFee(id, terms, at, h) => Paying(w, id, terms, at, 1, 1, h)
    case SettleFinish(id, terms, at, h) => Paying(w, id, terms, at, 1, 2, h)
    case RefundSend(id, terms, at) => Refunding(w, id, terms, at, 0, 0, "")
    case RefundBook(id, terms, at, h) => Refunding(w, id, terms, at, 1, 0, h)
    case RefundFinish(id, terms, at, h) => Refunding(w, id, terms, at, 1, 1, h)
    case _ => true
  }

  // ---- The whole system ----

  ghost predicate RowsOk(w: World, chain: Chain, resolved: set<Resolution>) {
    forall id :: id in w.tables.trades ==> RowOk(w, chain, resolved, id)
  }

  ghost predicate TasksOk(w: World, chain: Chain, resolved: set<Resolution>, tasks: map<nat, Task>) {
    forall p :: p in tasks ==> TaskOk(w, chain, resolved, tasks[p])
  }

  /** At most one worker has marked an attempt for a trade and still runs. */
  ghost predicate OneWorker(tasks: map<nat, Task>) {
    forall p, q :: p in tasks && q in tasks && p != q && WorksOn(tasks[p]).Some? ==> WorksOn(tasks[p]) != WorksOn(tasks[q])
  }

  /** Sends and ledger lines belong to trades. */
  ghost predicate BooksKnown(w: World) {
    && (forall i :: 0 <= i < |w.ledger| ==> w.ledger[i].tradeId in w.tables.trades)
    && (forall i :: 0 <= i < |w.sends| ==> w.sends[i].tradeId in w.tables.trades)
  }

  /** A claim of the handle by this owner was once on the chain. */
  ghost predicate WasClaimed(setup: Setup, seen: set<RpcTx>, handle: string, claim: HandleClaim) {
    exists tx :: tx in seen && setup.IsInbound(tx) && setup.Rules().Claims(tx, handle) && claim == ClaimOf(setup.Rules(), tx, handle)
  }

  ghost predicate SeenOk(chain: Chain) {
    && chain.live <= chain.seen
    && (forall a, b :: a in chain.seen && b in chain.seen ==> SameContent(a, b))
  }

  ghost predicate RegistryOk(setup: Setup, seen: set<RpcTx>, registry: Handles) {
    forall h :: h in registry ==> WasClaimed(setup, seen, h, registry[h])
  }

  ghost predicate ResolutionsOk(setup: Setup, chain: Chain, resolved: set<Resolution>) {
    forall r :: r in resolved ==> WasClaimed(setup, chain.seen, r.handle, r.claim) && r.claim.blockHeight <= chain.macro
  }

  ghost predicate ChainOk(setup: Setup, chain: Chain, registry: Handles, resolved: set<Resolution>) {
    SeenOk(chain) && RegistryOk(setup, chain.seen, registry) && ResolutionsOk(setup, chain, resolved)
  }

  ghost predicate Inv(s: System) {
    && TablesOk(s.world.tables)
    && RowsOk(s.world, s.chain, s.resolved)
    && TasksOk(s.world, s.chain, s.resolved, s.tasks)
    && OneWorker(s.tasks)
    && BooksKnown(s.world)
    && ChainOk(s.setup, s.chain, s.registry, s.resolved)
    && s.world.escrow == s.setup.escrow
  }

  lemma InitialOk(setup: Setup)
    ensures Inv(Initial(setup))
  {
    EmptyIsOk();
  }
}
