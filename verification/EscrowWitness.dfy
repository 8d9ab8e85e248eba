/** Runs that show where the program trusts what it has recorded of the chain, and where a closed trade leaves its
    handle. They exist for every deployment, every handle and every pair of parties. */
module EscrowWitness {
  import opened Wrappers
  import opened Trades
  import opened AddressText
  import opened Hex
  import opened ChainTypes
  import opened ClaimCodec
  import opened HandleFold
  import opened TradeTransactions
  import opened EscrowSystem
  import opened EscrowInvariant
  import opened EscrowHistory
  import opened EscrowFunding
  import opened EscrowClosing
  import opened EscrowSafety
  import opened EscrowWatching
  import opened SettlementRefinement
  import opened OwnershipWatching
  import opened OwnershipRefinement
  import opened DepositRefinement
  import opened MarketplaceInvariant
  import L = Ledger
  import T = MarketplaceTables

  /** A deployment, and the sale of a handle in it. */
  datatype Deal = Deal(setup: Setup, handle: string, seller: string, buyer: string, price: nat, fee: nat) {
    function TermsOf(): Terms {
      Terms("r", handle, Compact(buyer), Compact(seller), price, fee, 1 + DEPOSIT_DEADLINE_SECONDS, 1)
    }
  }

  /** The sale is the only trade, it stands as described, nothing has been paid and no task runs. */
  ghost predicate Stands(s: System, d: Deal, state: TradeState, deposit: Deposit) {
    && s.setup == d.setup && s.world.escrow == d.setup.escrow && s.tasks == map[] && s.world.sends == []
    && s.world.tables.trades.Keys == {"t"} && IsSale(s.world.tables.trades["t"], d, state, deposit)
  }

  predicate IsSale(t: Trade, d: Deal, state: TradeState, deposit: Deposit) {
    t.terms == d.TermsOf() && t.state == state && t.deposit == deposit && t.payout == Attempt(0, "") && t.refund == Attempt(0, "")
  }

  // ---- Reservation and deposit ----

  lemma EventReaches(s: System, e: Event)
    ensures Reaches(s, Next(s, e))
  {
    assert [e][..0] == [];
    assert Run(s, []) == s;
    assert Run(s, [e]) == Next(s, e);
  }

  function Listed(d: Deal): T.Tables {
    T.Tables(map[d.handle := Listing(d.handle, Compact(d.seller), d.price, d.fee, Active, "", 1)], map[], {})
  }

  lemma Lists(d: Deal) returns (s: System)
    ensures Reaches(Initial(d.setup), s)
    ensures s == System(World(d.setup.escrow, Listed(d), [], []), map[], Chain({}, {}, 0), map[], {}, d.setup)
  {
    var e := ListHandle(d.handle, d.seller, d.price, d.fee, "", 1);
    assert !T.EMPTY.HasOpenTrade(d.handle);
    s := Next(Initial(d.setup), e);
    EventReaches(Initial(d.setup), e);
  }

  lemma Reserves(d: Deal) returns (r: T.Result)
    ensures r == T.ReserveListing(Listed(d), d.handle, "t", "r", d.buyer, 1) && r.Ok?
    ensures r.value.trades.Keys == {"t"} && IsSale(r.value.trades["t"], d, Reserved, Deposit("", 0))
  {
    r := T.ReserveListing(Listed(d), d.handle, "t", "r", d.buyer, 1);
    assert Listed(d).UnpaidOf(d.buyer) == {};
    assert !Listed(d).UsesReference("r");
    CompactNormalize(d.seller);
  }

  lemma Opens(d: Deal) returns (s: System)
    ensures Reaches(Initial(d.setup), s) && Stands(s, d, AwaitingDeposit, Deposit("", 0)) && s.chain == Chain({}, {}, 0)
  {
    var s1 := Lists(d);
    var r := Reserves(d);
    var e := ReserveHandle(0, d.handle, "t", "r", d.buyer, 1);
    EventReaches(s1, e);
    ReachesOn(Initial(d.setup), s1, Next(s1, e));
    var s2 := Next(s1, e);
    assert s2 == s1.(world := s1.world.(tables := r.value), tasks := map[0 := AdvanceReserved("t")]);
    s := AwaitsDeposit(d, s2);
    ReachesOn(Initial(d.setup), s2, s);
  }

  lemma AwaitsDeposit(d: Deal, s: System) returns (s': System)
    requires s.tasks == map[0 := AdvanceReserved("t")] && s.setup == d.setup && s.world.escrow == d.setup.escrow && s.world.sends == []
    requires s.world.tables.trades.Keys == {"t"} && IsSale(s.world.tables.trades["t"], d, Reserved, Deposit("", 0))
    ensures Reaches(s, s') && Stands(s', d, AwaitingDeposit, Deposit("", 0)) && s'.chain == s.chain
  {
    var e := Advance(0, Io(1, None));
    s' := Next(s, e);
    EventReaches(s, e);
    assert s.tasks - {0} == map[];
  }

  lemma Includes(s: System, tx: RpcTx) returns (s': System)
    requires tx.blockNumber > s.chain.macro && forall x :: x in s.chain.seen ==> x.hash != tx.hash
    ensures Reaches(s, s') && s' == s.(chain := Chain(s.chain.seen + {tx}, s.chain.live + {tx}, s.chain.macro))
  {
    s' := Next(s, Include(tx));
    EventReaches(s, Include(tx));
  }

  lemma Finalizes(s: System, height: nat) returns (s': System)
    requires height >= s.chain.macro
    ensures Reaches(s, s') && s' == s.(chain := s.chain.(macro := height))
  {
    s' := Next(s, MacroBlock(height));
    EventReaches(s, MacroBlock(height));
  }

  lemma Drops(s: System, dropped: set<RpcTx>) returns (s': System)
    requires forall tx :: tx in dropped ==> tx.blockNumber > s.chain.macro
    ensures Reaches(s, s') && s' == s.(chain := s.chain.(live := s.chain.live - dropped))
  {
    s' := Next(s, Reorganise(dropped));
    EventReaches(s, Reorganise(dropped));
  }

  /** The buyer's deposit for the sale. */
  lemma Pays(d: Deal, block: nat) returns (tx: RpcTx)
    ensures PaysFor(tx, d.TermsOf(), d.setup.escrow)
    ensures tx.hash == "d" && tx.blockNumber == block && tx.Recipient() == d.setup.escrow
  {
    ReferenceReadsBack("r");
    var data := Encode(ESCROW_REFERENCE_PREFIX + "r");
    tx := RpcTx("d", d.buyer, d.buyer, d.setup.escrow, d.setup.escrow, data, data, d.price, block, Some(0), 0, 0, 0);
    CompactNormalize(d.buyer);
  }

  lemma Records(s: System, d: Deal, tx: RpcTx) returns (s': System)
    requires Stands(s, d, AwaitingDeposit, Deposit("", 0)) && tx in s.chain.live && PaysFor(tx, d.TermsOf(), d.setup.escrow)
    ensures Reaches(s, s') && Stands(s', d, DepositFinalizing, Deposit(tx.hash, tx.blockNumber)) && s'.chain == s.chain
  {
    RecordReaches(s, 0, "t", tx, 1);
    s' := WithTb(s, T.Transition(s.world.tables, "t", AwaitingDeposit, DepositFinalizing, SetDeposit(Deposit(tx.hash, tx.blockNumber)), 1).value);
  }

  lemma Funds(s: System, d: Deal, deposit: Deposit, from: TradeState, to: TradeState) returns (s': System)
    requires Stands(s, d, from, deposit) && deposit.blockHeight <= s.chain.macro && IsLoopMove(from, to)
    ensures Reaches(s, s') && Stands(s', d, to, deposit) && s'.chain == s.chain
  {
    MoveReaches(s, 0, "t", from, to, 1);
    s' := WithTb(s, T.Transition(s.world.tables, "t", from, to, NoMutation, 1).value);
  }

  lemma Deposits(d: Deal) returns (s: System, tx: RpcTx)
    ensures Reaches(Initial(d.setup), s) && Stands(s, d, DepositFinalizing, Deposit("d", 1))
    ensures PaysFor(tx, d.TermsOf(), d.setup.escrow) && tx.hash == "d" && tx.blockNumber == 1 && tx.Recipient() == d.setup.escrow
    ensures s.chain == Chain({tx}, {tx}, 0)
  {
    var s1 := Opens(d);
    tx := Pays(d, 1);
    var s2 := Includes(s1, tx);
    ReachesOn(Initial(d.setup), s1, s2);
    s := Records(s2, d, tx);
    ReachesOn(Initial(d.setup), s2, s);
    assert s2.chain == Chain({tx}, {tx}, 0);
  }

  /** Funding does not look at the chain again: every sale has a run that funds it while nothing is on the chain. */
  lemma FundedWithoutADeposit(d: Deal) returns (events: seq<Event>)
    ensures var s := Run(Initial(d.setup), events);
      && "t" in s.world.tables.trades && s.world.tables.trades["t"].terms == d.TermsOf() && s.world.tables.trades["t"].state.Funded?
      && s.chain.live == {} && !IsBacked(s, s.world.tables.trades["t"])
  {
    var s1, tx := Deposits(d);
    var s2 := Drops(s1, {tx});
    ReachesOn(Initial(d.setup), s1, s2);
    var s3 := Finalizes(s2, 1);
    ReachesOn(Initial(d.setup), s2, s3);
    var s4 := Funds(s3, d, Deposit("d", 1), DepositFinalizing, Funded);
    ReachesOn(Initial(d.setup), s3, s4);
    events :| Run(Initial(d.setup), events) == s4;
  }

  // ---- The handle changes hands ----

  /** The seller's claim, the seller's release and the buyer's claim. */
  datatype Sale = Sale(first: RpcTx, release: RpcTx, claim: RpcTx)

  /** Accepted by the handlers, in this order on the chain, in blocks after the first. */
  ghost predicate IsSaleOf(x: Sale, d: Deal) {
    var r := d.setup.Rules();
    && r.act(x.first) == Some(Action(d.handle, false)) && Compact(r.signer(x.first)) == Compact(d.seller)
    && r.act(x.release) == Some(Action(d.handle, true)) && Compact(r.signer(x.release)) == Compact(d.seller)
    && r.act(x.claim) == Some(Action(d.handle, false)) && Compact(r.signer(x.claim)) == Compact(d.buyer)
    && IsReleaseOf(x.release, d.TermsOf(), d.setup.registryAddress) && IsClaimOf(x.claim, d.TermsOf(), d.setup.registryAddress)
    && d.setup.IsInbound(x.first) && d.setup.IsInbound(x.release) && d.setup.IsInbound(x.claim)
    && 1 < x.first.blockNumber < x.release.blockNumber < x.claim.blockNumber && d.setup.activation <= x.release.blockNumber
    && x.first.hash == "1" && x.release.hash == "2" && x.claim.hash == "3"
  }

  lemma SaleOf(d: Deal) returns (x: Sale)
    requires IsValidHandle(d.handle)
    ensures IsSaleOf(x, d)
  {
    var setup, block := d.setup, d.setup.activation + 2;
    var first := Written(setup.creator, setup.activation, "1", d.seller, setup.registryAddress, Action(d.handle, false), block);
    var release := Written(setup.creator, setup.activation, "2", d.seller, setup.registryAddress, Action(d.handle, true), block + 1);
    var claim := Written(setup.creator, setup.activation, "3", d.buyer, setup.registryAddress, Action(d.handle, false), block + 2);
    x := Sale(first, release, claim);
    CompactNormalize(d.seller);
    CompactNormalize(d.buyer);
  }

  lemma SaleFolds(x: Sale, d: Deal)
    requires IsSaleOf(x, d)
    ensures var r := d.setup.Rules(); Fold(r, [x.first, x.release, x.claim]) == map[d.handle := ClaimOf(r, x.claim, d.handle)]
  {
    var r := d.setup.Rules();
    var txs := [x.first, x.release, x.claim];
    assert txs[..2] == [x.first, x.release];
    TwoActions(r, x.first, x.release, d.handle);
    assert Fold(r, txs) == Apply(r, Fold(r, txs[..2]), x.claim);
  }

  lemma IncludesThree(s: System, a: RpcTx, b: RpcTx, c: RpcTx) returns (s': System)
    requires s.chain.macro < a.blockNumber < b.blockNumber < c.blockNumber && a.hash != b.hash && a.hash != c.hash && b.hash != c.hash
    requires forall tx :: tx in s.chain.seen ==> tx.hash != a.hash && tx.hash != b.hash && tx.hash != c.hash
    ensures Reaches(s, s') && s' == s.(chain := s'.chain)
    ensures s'.chain.macro == s.chain.macro && s'.chain.live == s.chain.live + {a, b, c}
  {
    var s1 := Includes(s, a);
    var s2 := Includes(s1, b);
    s' := Includes(s2, c);
    ReachesOn(s, s1, s2);
    ReachesOn(s, s2, s');
  }

  lemma SaleOrder(x: Sale, d: Deal)
    requires IsSaleOf(x, d)
    ensures 1 < x.first.blockNumber < x.release.blockNumber < x.claim.blockNumber
    ensures x.first.hash == "1" && x.release.hash == "2" && x.claim.hash == "3"
    ensures d.setup.IsInbound(x.first) && d.setup.IsInbound(x.release) && d.setup.IsInbound(x.claim)
  {
  }

  lemma SweepReaches(s: System, ordered: seq<RpcTx>) returns (s': System)
    requires IsSweepable(s, ordered)
    ensures Reaches(s, s') && s' == s.(registry := Fold(s.setup.Rules(), ordered))
  {
    s' := Next(s, RegistrySwept(ordered));
    EventReaches(s, RegistrySwept(ordered));
  }

  lemma SaleIsSweepable(s: System, a: RpcTx, b: RpcTx, c: RpcTx, deposit: RpcTx)
    requires a.blockNumber < b.blockNumber < c.blockNumber && s.setup.IsInbound(a) && s.setup.IsInbound(b) && s.setup.IsInbound(c)
    requires s.chain.live == {deposit, a, b, c} && !s.setup.IsInbound(deposit)
    ensures IsSweepable(s, [a, b, c])
  {
    ThreeInOrder(s.setup.Rules(), a, b, c);
  }

  /** The three transactions arrive, and the registry sweep finds that the buyer owns the handle. */
  lemma ChangesHands(s: System, x: Sale, d: Deal, deposit: RpcTx) returns (s': System)
    requires IsSaleOf(x, d) && s.setup == d.setup && s.chain == Chain({deposit}, {deposit}, 1) && deposit.hash == "d" && !d.setup.IsInbound(deposit)
    ensures Reaches(s, s') && s' == s.(chain := s'.chain, registry := map[d.handle := ClaimOf(d.setup.Rules(), x.claim, d.handle)])
    ensures s'.chain.macro == 1 && s'.chain.live == {deposit, x.first, x.release, x.claim}
  {
    SaleOrder(x, d);
    var s1 := IncludesThree(s, x.first, x.release, x.claim);
    assert s1.chain.live == {deposit, x.first, x.release, x.claim};
    SaleIsSweepable(s1, x.first, x.release, x.claim, deposit);
    SaleFolds(x, d);
    s' := SweepReaches(s1, [x.first, x.release, x.claim]);
    ReachesOn(s, s1, s');
  }

  /** What the ownership watcher sees and gets answered. */
  function ViewOf(s: System): View {
    View(s.registry, s.chain.macro, 1, map["t" := "p"])
  }

  lemma ClaimDecides(s: System, d: Deal, x: Sale, deposit: Deposit)
    requires Stands(s, d, AwaitingRelease, deposit) && IsSaleOf(x, d) && x.claim.blockNumber <= s.chain.macro
    requires s.registry == map[d.handle := ClaimOf(d.setup.Rules(), x.claim, d.handle)]
    ensures VerdictOf(s.world.tables.trades["t"], ViewOf(s)) == Pay(ClaimOf(d.setup.Rules(), x.claim, d.handle))
    ensures Owns(s.registry, d.handle, d.buyer)
  {
    CompactNormalize(d.buyer);
  }

  lemma Settles(s: System, d: Deal, claim: HandleClaim, deposit: Deposit) returns (s': System)
    requires Stands(s, d, AwaitingRelease, deposit) && d.fee <= d.price
    requires VerdictOf(s.world.tables.trades["t"], ViewOf(s)) == Pay(claim)
    ensures Reaches(s, s') && s'.chain == s.chain && s'.registry == s.registry
    ensures "t" in s'.world.tables.trades && s'.world.tables.trades["t"].terms == d.TermsOf()
    ensures s'.world.tables.trades["t"].state.Settled? && s'.world.tables.trades["t"].claimTxHash == claim.txHash
    ensures SendsOf(s'.world.sends, "t") == [PayoutSend("t", d.TermsOf())]
  {
    var v := ViewOf(s);
    var events := HandledIsRun(s, 0, "t", v);
    s' := Run(s, events);
    WellWhenAnswered(s.world, "t", v);
    HandledDeals(s.world, "t", v);
    assert SendsOf(s.world.sends, "t") == [];
  }

  /** The sale awaits the seller's release, its deposit in a final block. */
  lemma Deposited(d: Deal) returns (s: System, x: Sale, deposit: RpcTx)
    requires IsValidHandle(d.handle)
    ensures Reaches(Initial(d.setup), s) && Stands(s, d, AwaitingRelease, Deposit("d", 1)) && IsSaleOf(x, d)
    ensures s.chain == Chain({deposit}, {deposit}, 1) && deposit.hash == "d" && deposit.Recipient() == d.setup.escrow
  {
    x := SaleOf(d);
    var s1;
    s1, deposit := Deposits(d);
    var s2 := Finalizes(s1, 1);
    ReachesOn(Initial(d.setup), s1, s2);
    var s3 := Funds(s2, d, Deposit("d", 1), DepositFinalizing, Funded);
    ReachesOn(Initial(d.setup), s2, s3);
    s := Funds(s3, d, Deposit("d", 1), Funded, AwaitingRelease);
    ReachesOn(Initial(d.setup), s3, s);
  }

  /** The claim is lost or kept, and its height becomes final. */
  lemma BecomesFinal(s: System, x: Sale, deposit: RpcTx, isLost: bool) returns (s': System)
    requires s.chain.live == {deposit, x.first, x.release, x.claim} && s.chain.macro == 1 < x.claim.blockNumber
    requires deposit.hash == "d" && x.first.hash == "1" && x.release.hash == "2" && x.claim.hash == "3"
    ensures Reaches(s, s') && s' == s.(chain := s'.chain) && s'.chain.macro == x.claim.blockNumber
    ensures IsOnChain(s', x.claim.hash) <==> !isLost
  {
    var s1 := Drops(s, if isLost then {x.claim} else {});
    s' := Finalizes(s1, x.claim.blockNumber);
    ReachesOn(s, s1, s');
    if !isLost {
      assert x.claim in s'.chain.live;
    }
  }

  lemma SoldUpTo(d: Deal, isLost: bool) returns (s: System, claim: RpcTx)
    requires IsValidHandle(d.handle) && Compact(d.setup.escrow) != Compact(d.setup.registryAddress)
    ensures Reaches(Initial(d.setup), s) && Stands(s, d, AwaitingRelease, Deposit("d", 1))
    ensures s.registry == map[d.handle := ClaimOf(d.setup.Rules(), claim, d.handle)] && Owns(s.registry, d.handle, d.buyer)
    ensures VerdictOf(s.world.tables.trades["t"], ViewOf(s)) == Pay(ClaimOf(d.setup.Rules(), claim, d.handle))
    ensures IsOnChain(s, claim.hash) <==> !isLost
  {
    var s1, x, deposit := Deposited(d);
    claim := x.claim;
    SaleOrder(x, d);
    var s2 := ChangesHands(s1, x, d, deposit);
    ReachesOn(Initial(d.setup), s1, s2);
    s := BecomesFinal(s2, x, deposit, isLost);
    ReachesOn(Initial(d.setup), s2, s);
    ClaimDecides(s, d, x, Deposit("d", 1));
  }

  /** Every sale has a run to settlement, with or without a reorganisation that takes the buyer's claim off the chain
      after the registry sweep. */
  lemma Sells(d: Deal, isLost: bool) returns (s: System)
    requires IsValidHandle(d.handle) && d.fee <= d.price && Compact(d.setup.escrow) != Compact(d.setup.registryAddress)
    ensures Reaches(Initial(d.setup), s)
    ensures "t" in s.world.tables.trades && s.world.tables.trades["t"].terms == d.TermsOf() && s.world.tables.trades["t"].state.Settled?
    ensures SendsOf(s.world.sends, "t") == [PayoutSend("t", d.TermsOf())]
    ensures Owns(s.registry, d.handle, d.buyer) && s.registry[d.handle].txHash == s.world.tables.trades["t"].claimTxHash
    ensures IsOnChain(s, s.world.tables.trades["t"].claimTxHash) <==> !isLost
  {
    var s1, claim := SoldUpTo(d, isLost);
    s := Settles(s1, d, ClaimOf(d.setup.Rules(), claim, d.handle), Deposit("d", 1));
    ReachesOn(Initial(d.setup), s1, s);
  }

  /** The ownership watcher does not look at the chain again either: every sale has a run that pays the seller on a
      claim to which nothing on the chain gives the handle. */
  lemma PaidWithoutAClaim(d: Deal) returns (events: seq<Event>)
    requires IsValidHandle(d.handle) && d.fee <= d.price && Compact(d.setup.escrow) != Compact(d.setup.registryAddress)
    ensures var s := Run(Initial(d.setup), events);
      && "t" in s.world.tables.trades && s.world.tables.trades["t"].terms == d.TermsOf()
      && SendsOf(s.world.sends, "t") == [PayoutSend("t", d.TermsOf())]
      && d.handle in s.registry && s.registry[d.handle].txHash == s.world.tables.trades["t"].claimTxHash
      && !IsTaken(d.setup.Rules(), Inbound(s), d.handle, s.registry[d.handle])
  {
    var s := Sells(d, true);
    events :| Run(Initial(d.setup), events) == s;
    GoneTakesNothing(s, d.setup.Rules(), d.handle, s.registry[d.handle]);
  }

  /** Every sale has a run that settles it, after which nobody can list the handle again, the buyer who owns it
      included. */
  lemma SoldHandleIsBlocked(d: Deal, seller: string, price: nat, fee: nat, epoch: string, clock: UnixTime) returns (events: seq<Event>)
    requires IsValidHandle(d.handle) && d.fee <= d.price && Compact(d.setup.escrow) != Compact(d.setup.registryAddress)
    ensures var s := Run(Initial(d.setup), events);
      && "t" in s.world.tables.trades && s.world.tables.trades["t"].terms == d.TermsOf() && s.world.tables.trades["t"].state.Settled?
      && Owns(s.registry, d.handle, d.buyer) && IsOnChain(s, s.world.tables.trades["t"].claimTxHash)
      && T.CreateListing(s.world.tables, d.handle, seller, price, fee, epoch, clock) == Fail(T.ListingReserved)
      && Run(Initial(d.setup), events + [ListHandle(d.handle, seller, price, fee, epoch, clock)]) == s
  {
    var s := Sells(d, false);
    events :| Run(Initial(d.setup), events) == s;
    ClosedTradeBlocksRelisting(d.setup, events, "t", seller, price, fee, epoch, clock);
    var e := ListHandle(d.handle, seller, price, fee, epoch, clock);
    assert (events + [e])[..|events|] == events;
    assert Run(Initial(d.setup), events + [e]) == Next(s, e);
  }

  // ---- A crash between the last hop and the mark ----

  lemma AdvanceReaches(s: System, pid: nat, b: Point, io: Io) returns (s': System)
    requires pid in s.tasks && Goes(Point(s.world, s.tasks[pid]), io, b)
    ensures Reaches(s, s') && s' == s.(world := b.world, tasks := s.tasks[pid := b.task])
  {
    assert s.tasks[pid := s.tasks[pid]] == s.tasks;
    assert At(s, pid, Point(s.world, s.tasks[pid])) == s;
    Advanced(s, pid, Point(s.world, s.tasks[pid]), b, io);
    EventReaches(s, Advance(pid, io));
    s' := Next(s, Advance(pid, io));
  }

  /** The walk to settlement, up to the last hop. */
  lemma {:induction false} WalkReaches(s: System, pid: nat, id: string, claim: HandleClaim, io: Io) returns (s': System)
    requires pid in s.tasks && s.tasks[pid] == WalkRead(id, claim)
    requires id in s.world.tables.trades && 0 <= ChainIndex(s.world.tables.trades[id].state)
    ensures Reaches(s, s') && s' == s.(world := WorldWith(s.world, id, ToSettlement(s.world.tables.trades[id], claim, io.clock)))
    decreases 4 - ChainIndex(s.world.tables.trades[id].state)
  {
    var w, t := s.world, s.world.tables.trades[id];
    if t.state.SettlementPending? {
      SameRow(w, id, t, t);
      s' := s;
      ReachesSelf(s);
    } else {
      var t' := Hop(t, claim, io.clock);
      WalkLooks(w, id, claim, io);
      var s1 := AdvanceReaches(s, pid, Point(w, WalkHop(id, t.state, claim)), io);
      WalkHops(w, id, claim, io);
      var s2 := AdvanceReaches(s1, pid, Point(WorldWith(w, id, t'), WalkRead(id, claim)), io);
      assert s2 == s.(world := WorldWith(w, id, t')) by {
        assert s1.tasks[pid := WalkRead(id, claim)] == s.tasks;
      }
      HopsOn(t, claim, io.clock);
      SameRow(w, id, t', ToSettlement(t, claim, io.clock));
      s' := WalkReaches(s2, pid, id, claim, io);
      ReachesOn(s, s1, s2);
      ReachesOn(s, s2, s');
    }
  }

  /** The ownership watcher walks the sale to settlement and crashes, or its next call of the store fails. */
  lemma WalksAndCrashes(s: System, d: Deal, claim: HandleClaim) returns (s': System)
    requires Stands(s, d, AwaitingRelease, Deposit("d", 1)) && VerdictOf(s.world.tables.trades["t"], ViewOf(s)) == Pay(claim)
    ensures Reaches(s, s') && Stands(s', d, SettlementPending, Deposit("d", 1)) && s'.chain == s.chain
  {
    var task, io := WatcherTask("t", s.world.tables.trades["t"], ViewOf(s)), Io(1, None);
    StartsWatching(s, 0, "t", ViewOf(s));
    EventReaches(s, Start(0, task));
    var s1 := Next(s, Start(0, task));
    var s2 := WalkReaches(s1, 0, "t", claim, io);
    EventReaches(s2, Crash(0));
    s' := Next(s2, Crash(0));
    assert s'.tasks == map[];
    ReachesOn(s, s1, s2);
    ReachesOn(s, s2, s');
  }

  /** Every sale has a run that strands it: the buyer owns the handle on the chain, the fee fits the price, the payout
      has never been attempted, and no continuation closes the trade. */
  lemma UnmarkedIsStranded(d: Deal) returns (events: seq<Event>)
    requires IsValidHandle(d.handle) && d.fee <= d.price && Compact(d.setup.escrow) != Compact(d.setup.registryAddress)
    ensures var s := Run(Initial(d.setup), events);
      && "t" in s.world.tables.trades && IsSale(s.world.tables.trades["t"], d, SettlementPending, Deposit("d", 1))
      && s.world.sends == [] && !CanClose(s, "t")
  {
    var s1, claim := SoldUpTo(d, false);
    var s := WalksAndCrashes(s1, d, ClaimOf(d.setup.Rules(), claim, d.handle));
    ReachesOn(Initial(d.setup), s1, s);
    events :| Run(Initial(d.setup), events) == s;
    PendingClosesIff(d.setup, events, "t");
  }
}
