/** What holds in every state of every run: money is signed away at most once, for the right trade, to the right
    party, against a deposit of its own, and no coin is lost track of. */
module EscrowSafety {
  import opened Wrappers
  import opened Trades
  import opened AddressText
  import opened ChainTypes
  import opened EscrowSystem
  import opened EscrowInvariant
  import opened EscrowSteps
  import opened EscrowRuns
  import opened MarketplaceInvariant
  import Addresses
  import L = Ledger
  import T = MarketplaceTables

  // ---- The signer's history, trade by trade ----

  lemma {:induction false} SendIsKept(sends: seq<Send>, i: nat)
    requires i < |sends|
    ensures sends[i] in SendsOf(sends, sends[i].tradeId)
  {
    if i < |sends| - 1 {
      SendIsKept(sends[..|sends| - 1], i);
    }
  }

  lemma {:induction false} TwoSendsCount(sends: seq<Send>, i: nat, j: nat)
    requires i < j < |sends| && sends[i].tradeId == sends[j].tradeId
    ensures |SendsOf(sends, sends[j].tradeId)| >= 2
  {
    if j < |sends| - 1 {
      TwoSendsCount(sends[..|sends| - 1], i, j);
    } else {
      SendIsKept(sends[..|sends| - 1], i);
    }
  }

  lemma AtMostOneSend(id: string, t: Trade, sends: seq<Send>, lines: seq<L.Entry>)
    requires MarksOk(t) && BooksOk(id, t, sends, lines)
    ensures |sends| <= 1
    ensures |sends| == 1 && sends[0].kind.Payout? ==> sends[0] == PayoutSend(id, t.terms) && t.payout.at != 0
    ensures |sends| == 1 && sends[0].kind.Refund? ==> sends[0] == RefundSendOf(id, t.terms) && t.refund.at != 0
  {
  }

  /** The signer is invoked at most once per trade, payouts and refunds together. */
  lemma SignedAtMostOnce(setup: Setup, events: seq<Event>, i: nat, j: nat)
    requires i < j < |Run(Initial(setup), events).world.sends|
    ensures var sends := Run(Initial(setup), events).world.sends; sends[i].tradeId != sends[j].tradeId
  {
    RunOk(setup, events);
    var s := Run(Initial(setup), events);
    var id := s.world.sends[i].tradeId;
    if s.world.sends[j].tradeId == id {
      TwoSendsCount(s.world.sends, i, j);
      RowHolds(s, id);
      AtMostOneSend(id, s.world.tables.trades[id], SendsOf(s.world.sends, id), L.EntriesOf(s.world.ledger, id));
      assert false;
    }
  }

  /** The deposit of a trade: seen on the chain, of exactly the price, from the buyer, in a block now final. */
  ghost predicate IsFunded(s: System, t: Trade) {
    && t.deposit.blockHeight <= s.chain.macro
    && exists tx :: tx in s.chain.seen && IsDepositOf(tx, t) && Compact(tx.Recipient()) == Compact(s.world.escrow)
  }

  predicate IsDepositOf(tx: RpcTx, t: Trade) {
    && tx.hash == t.deposit.txHash && tx.blockNumber == t.deposit.blockHeight
    && tx.value == t.terms.price && Compact(Normalize(tx.Sender())) == Compact(t.terms.buyer)
  }

  /** The ownership watcher acted on this claim: the registry, folded from the chain, held it, and a transaction seen
      on the chain made it, in a block that is now final. */
  ghost predicate OwnerResolved(s: System, t: Trade, claim: HandleClaim) {
    && Resolution(t.terms.handle, claim) in s.resolved && claim.blockHeight <= s.chain.macro
    && WasClaimed(s.setup, s.chain.seen, t.terms.handle, claim)
  }

  ghost predicate PaysSeller(s: System, t: Trade, x: Send) {
    && Compact(x.to) == Compact(t.terms.seller)
    && t.terms.fee <= t.terms.price && x.amount == t.terms.price - t.terms.fee
    && exists claim :: OwnerResolved(s, t, claim) && OwnedByBuyer(t.terms, claim)
  }

  ghost predicate RepaysBuyer(s: System, t: Trade, x: Send) {
    && Compact(x.to) == Compact(t.terms.buyer)
    && x.amount == t.terms.price
    && exists claim :: OwnerResolved(s, t, claim) && OwnedByStranger(t.terms, claim)
  }

  /** A send that the trade's deposit and the registry call for. */
  ghost predicate IsJustified(s: System, t: Trade, x: Send) {
    IsFunded(s, t) && if x.kind.Payout? then PaysSeller(s, t, x) else RepaysBuyer(s, t, x)
  }

  lemma FundedFacts(s: System, t: Trade)
    requires FundsOk(s.world.escrow, s.chain, t) && IsDeposited(t.state) && !t.state.DepositFinalizing?
    ensures IsFunded(s, t)
  {
    var tx :| tx in s.chain.seen && tx.hash == t.deposit.txHash && tx.blockNumber == t.deposit.blockHeight && PaysFor(tx, t.terms, s.world.escrow);
  }

  lemma PayoutFacts(s: System, t: Trade, x: Send)
    requires MarksOk(t) && ResolvedOk(s.resolved, t) && ChainOk(s.setup, s.chain, s.registry, s.resolved) && t.payout.at != 0 && x == PayoutSend(x.tradeId, t.terms)
    ensures PaysSeller(s, t, x)
  {
    Addresses.ForRPCKeepsAddress(t.terms.seller);
    var c :| Resolution(t.terms.handle, c) in s.resolved && OwnedByBuyer(t.terms, c);
    assert OwnerResolved(s, t, c);
  }

  lemma RefundFacts(s: System, t: Trade, x: Send)
    requires MarksOk(t) && ResolvedOk(s.resolved, t) && ChainOk(s.setup, s.chain, s.registry, s.resolved) && t.refund.at != 0 && x == RefundSendOf(x.tradeId, t.terms)
    ensures RepaysBuyer(s, t, x)
  {
    Addresses.ForRPCKeepsAddress(t.terms.buyer);
    var c :| Resolution(t.terms.handle, c) in s.resolved && OwnedByStranger(t.terms, c);
    assert OwnerResolved(s, t, c);
  }

  /** Every invocation of the signer is for a funded trade. A payout sends the price less the fee to the seller
      after the buyer was seen to own the handle; a refund sends the price to the buyer after a stranger was. */
  lemma SignedOnlyAgainstADeposit(setup: Setup, events: seq<Event>, i: nat)
    requires i < |Run(Initial(setup), events).world.sends|
    ensures var s := Run(Initial(setup), events); var x := s.world.sends[i];
            x.tradeId in s.world.tables.trades && IsJustified(s, s.world.tables.trades[x.tradeId], x)
  {
    RunOk(setup, events);
    SendIsJustified(Run(Initial(setup), events), i);
  }

  lemma SendIsJustified(s: System, i: nat)
    requires Inv(s) && i < |s.world.sends|
    ensures var x := s.world.sends[i];
            x.tradeId in s.world.tables.trades && IsJustified(s, s.world.tables.trades[x.tradeId], x)
  {
    SentFacts(s, s.world.sends[i].tradeId);
    SendIsKept(s.world.sends, i);
    OnlyMember(SendsOf(s.world.sends, s.world.sends[i].tradeId), s.world.sends[i]);
  }

  lemma OnlyMember(sends: seq<Send>, x: Send)
    requires |sends| <= 1 && x in sends
    ensures sends == [x]
  {
  }

  /** What the invariant says of the one send of a trade. */
  lemma SentFacts(s: System, id: string)
    requires Inv(s) && id in s.world.tables.trades
    ensures var t := s.world.tables.trades[id]; var sends := SendsOf(s.world.sends, id);
            |sends| <= 1 && (|sends| == 1 ==> IsJustified(s, t, sends[0]))
  {
    RowHolds(s, id);
    var t, sends := s.world.tables.trades[id], SendsOf(s.world.sends, id);
    SendEvidence(s, id, t, sends, L.EntriesOf(s.world.ledger, id));
  }

  lemma SendEvidence(s: System, id: string, t: Trade, sends: seq<Send>, lines: seq<L.Entry>)
    requires ChainOk(s.setup, s.chain, s.registry, s.resolved) && RowFacts(s.world, s.chain, s.resolved, t) && BooksOk(id, t, sends, lines)
    ensures |sends| <= 1
    ensures |sends| == 1 ==> IsJustified(s, t, sends[0])
  {
    AtMostOneSend(id, t, sends, lines);
    if |sends| == 1 {
      FundedFacts(s, t);
      if sends[0].kind.Payout? {
        PayoutFacts(s, t, sends[0]);
      } else {
        RefundFacts(s, t, sends[0]);
      }
    }
  }

  lemma DepositsDiffer(s: System, a: Trade, b: Trade)
    requires DepositSeen(s.world.escrow, s.chain, a) && DepositSeen(s.world.escrow, s.chain, b) && SeenOk(s.chain)
    requires a.deposit.txHash == b.deposit.txHash
    ensures a.terms.reference == b.terms.reference
  {
    var x :| x in s.chain.seen && x.hash == a.deposit.txHash && x.blockNumber == a.deposit.blockHeight && PaysFor(x, a.terms, s.world.escrow);
    var y :| y in s.chain.seen && y.hash == b.deposit.txHash && y.blockNumber == b.deposit.blockHeight && PaysFor(y, b.terms, s.world.escrow);
    assert SameContent(x, y);
  }

  /** No transaction funds two trades. */
  lemma DepositFundsOneTrade(setup: Setup, events: seq<Event>, a: string, b: string)
    requires var tb := Run(Initial(setup), events).world.tables;
             a in tb.trades && b in tb.trades && a != b && IsDeposited(tb.trades[a].state) && IsDeposited(tb.trades[b].state)
    ensures var tb := Run(Initial(setup), events).world.tables; tb.trades[a].deposit.txHash != tb.trades[b].deposit.txHash
  {
    RunOk(setup, events);
    var s := Run(Initial(setup), events);
    RowHolds(s, a);
    RowHolds(s, b);
    if s.world.tables.trades[a].deposit.txHash == s.world.tables.trades[b].deposit.txHash {
      DepositsDiffer(s, s.world.tables.trades[a], s.world.tables.trades[b]);
      assert false;
    }
  }

  // ---- The tables, for every run ----

  /** Neither withdrawn nor settled nor refunded. */
  predicate IsUnfinished(t: Trade) {
    !(t.state.Expired? || t.state.Canceled? || t.state.Settled? || t.state.Refunded?)
  }

  ghost predicate OneOpenTrade(tb: T.Tables) {
    forall i, j :: i in tb.trades && j in tb.trades && i != j && IsUnfinished(tb.trades[i]) && IsUnfinished(tb.trades[j])
      ==> tb.trades[i].terms.handle != tb.trades[j].terms.handle
  }

  lemma TablesInOrder(setup: Setup, events: seq<Event>)
    ensures TablesOk(Run(Initial(setup), events).world.tables)
  {
    RunOk(setup, events);
  }

  /** One open trade per handle; an active listing has none; an open trade's listing is reserved; and no buyer,
      however the address is spelled, holds more than three unpaid reservations. */
  lemma ListingsAreExclusive(setup: Setup, events: seq<Event>)
    ensures var tb := Run(Initial(setup), events).world.tables;
            && OneOpenTrade(tb)
            && (forall h, id :: IsListed(tb, h, Active) && id in tb.trades && tb.trades[id].terms.handle == h ==> !IsUnfinished(tb.trades[id]))
            && (forall id :: id in tb.trades && IsUnfinished(tb.trades[id]) ==> IsListed(tb, tb.trades[id].terms.handle, ReservedListing))
            && (forall buyer :: |ReservedBy(tb, buyer)| <= 3)
  {
    TablesInOrder(setup, events);
    var tb := Run(Initial(setup), events).world.tables;
    forall buyer
      ensures |ReservedBy(tb, buyer)| <= 3
    {
      assert tb.UnpaidOf(buyer) == ReservedBy(tb, buyer);
    }
  }

  // ---- Relisting ----

  predicate AsksToList(e: Event, handle: string) {
    e.ListHandle? && e.handle == handle
  }

  ghost predicate EverAsked(events: seq<Event>, handle: string) {
    exists i :: 0 <= i < |events| && AsksToList(events[i], handle)
  }

  lemma ClosedDealHoldsListing(tb: T.Tables, id: string, seller: string, price: nat, fee: nat, epoch: string, clock: int)
    requires TablesOk(tb) && id in tb.trades && !IsWithdrawn(tb.trades[id]) && !tb.trades[id].IsOpen()
    ensures var handle := tb.trades[id].terms.handle;
            !tb.HasOpenTrade(handle) && T.CreateListing(tb, handle, seller, price, fee, epoch, clock) == Fail(T.ListingReserved)
  {
    var handle := tb.trades[id].terms.handle;
    forall k | k in tb.trades && tb.trades[k].terms.handle == handle
      ensures !tb.trades[k].IsOpen()
    {
      assert k == id || IsWithdrawn(tb.trades[k]);
    }
  }

  /** A settled or refunded trade blocks its handle: no trade of the handle is open, and still a new listing is
      refused as reserved. */
  lemma ClosedTradeBlocksRelisting(setup: Setup, events: seq<Event>, id: string, seller: string, price: nat, fee: nat, epoch: string, clock: UnixTime)
    requires var tb := Run(Initial(setup), events).world.tables;
             id in tb.trades && (tb.trades[id].state.Settled? || tb.trades[id].state.Refunded?)
    ensures var tb := Run(Initial(setup), events).world.tables; var handle := tb.trades[id].terms.handle;
            !tb.HasOpenTrade(handle) && T.CreateListing(tb, handle, seller, price, fee, epoch, clock) == Fail(T.ListingReserved)
  {
    TablesInOrder(setup, events);
    ClosedDealHoldsListing(Run(Initial(setup), events).world.tables, id, seller, price, fee, epoch, clock);
  }

  /** No step of a task creates or removes a listing row; only an expiry writes one. */
  lemma StepKeepsListed(w: World, task: Task, io: Io)
    ensures TaskStep(w, task, io).world.tables.listings.Keys == w.tables.listings.Keys
  {
    if !task.ExpireReservation? {
      StepKeepsListings(w, task, io);
    }
  }

  lemma StepKeepsListings(w: World, task: Task, io: Io)
    requires !task.ExpireReservation?
    ensures TaskStep(w, task, io).world.tables.listings == w.tables.listings
  {
    if IsPlainTask(task) {
      var r := AskShape(w, task, io);
    } else {
      OtherKeepsListings(w, task, io);
    }
  }

  lemma OtherKeepsListings(w: World, task: Task, io: Io)
    requires !task.ExpireReservation? && !IsPlainTask(task)
    ensures TaskStep(w, task, io).world.tables.listings == w.tables.listings
  {
  }

  lemma NextListed(s: System, e: Event, handle: string)
    requires TablesOk(s.world.tables)
    ensures handle in Next(s, e).world.tables.listings <==> handle in s.world.tables.listings || AsksToList(e, handle)
  {
    match e
    case ListHandle(h, seller, price, fee, epoch, clock) =>
      ListableOnce(s.world.tables, h, seller, price, fee, epoch, clock);
    case Advance(pid, io) =>
      if pid in s.tasks {
        StepKeepsListed(s.world, s.tasks[pid], io);
      }
    case _ =>
  }

  lemma {:induction false} ListedIsAsked(setup: Setup, events: seq<Event>, handle: string)
    ensures handle in Run(Initial(setup), events).world.tables.listings <==> EverAsked(events, handle)
  {
    if |events| > 0 {
      var prior, last := events[..|events| - 1], events[|events| - 1];
      ListedIsAsked(setup, prior, handle);
      RunOk(setup, prior);
      NextListed(Run(Initial(setup), prior), last, handle);
      assert EverAsked(events, handle) <==> EverAsked(prior, handle) || AsksToList(last, handle) by {
        assert forall i :: 0 <= i < |prior| ==> events[i] == prior[i];
        assert events[|events| - 1] == last;
      }
    }
  }

  /** A handle can be listed exactly when nobody has ever tried to list it before: a listing row never goes away
      and its status is never anything but active or reserved, so a sold or refunded handle cannot be listed again
      and an expired or canceled trade only makes the old listing active. */
  lemma ListedOnceEver(setup: Setup, events: seq<Event>, handle: string, seller: string, price: nat, fee: nat, epoch: string, clock: UnixTime)
    ensures T.CreateListing(Run(Initial(setup), events).world.tables, handle, seller, price, fee, epoch, clock).Ok?
       <==> !EverAsked(events, handle)
  {
    RunOk(setup, events);
    ListedIsAsked(setup, events, handle);
    ListableOnce(Run(Initial(setup), events).world.tables, handle, seller, price, fee, epoch, clock);
  }

  // ---- Nonces ----

  predicate Uses(e: Event, nonce: string) {
    e.UseNonce? && e.nonce == nonce
  }

  ghost predicate EverUsed(events: seq<Event>, nonce: string) {
    exists i :: 0 <= i < |events| && Uses(events[i], nonce)
  }

  lemma StepKeepsNonces(w: World, task: Task, io: Io)
    ensures TaskStep(w, task, io).world.tables.nonces == w.tables.nonces
  {
  }

  lemma NextUsed(s: System, e: Event, nonce: string)
    ensures nonce in Next(s, e).world.tables.nonces <==> nonce in s.world.tables.nonces || Uses(e, nonce)
  {
    match e
    case Advance(pid, io) =>
      if pid in s.tasks {
        StepKeepsNonces(s.world, s.tasks[pid], io);
      }
    case _ =>
  }

  lemma {:induction false} UsedIsStored(setup: Setup, events: seq<Event>, nonce: string)
    ensures nonce in Run(Initial(setup), events).world.tables.nonces <==> EverUsed(events, nonce)
  {
    if |events| > 0 {
      var prior, last := events[..|events| - 1], events[|events| - 1];
      UsedIsStored(setup, prior, nonce);
      NextUsed(Run(Initial(setup), prior), last, nonce);
      assert EverUsed(events, nonce) <==> EverUsed(prior, nonce) || Uses(last, nonce) by {
        assert forall i :: 0 <= i < |prior| ==> events[i] == prior[i];
        assert events[|events| - 1] == last;
      }
    }
  }

  /** A nonce is accepted exactly if no request of the whole run has used it before. */
  lemma NonceAcceptedOnce(setup: Setup, events: seq<Event>, nonce: string)
    ensures T.ConsumeNonce(Run(Initial(setup), events).world.tables, nonce).Ok? <==> !EverUsed(events, nonce)
  {
    UsedIsStored(setup, events, nonce);
  }
}
