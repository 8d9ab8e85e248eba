/** When the deposit watcher and the ownership watcher are right to trust what they recorded of the chain
    (backend/marketplace_escrow_watcher.go, backend/marketplace_ownership_watcher.go). */
module EscrowFunding {
  import opened Wrappers
  import opened Trades
  import opened AddressText
  import opened ChainTypes
  import opened HandleFold
  import opened EscrowSystem
  import opened EscrowInvariant
  import opened EscrowSteps
  import opened EscrowRuns
  import opened EscrowHistory
  import T = MarketplaceTables

  // ---- Deposits ----

  /** The trade's money is in escrow: its recorded deposit is on the chain, in whatever block, and pays for it. */
  ghost predicate IsBacked(s: System, t: Trade) {
    exists tx :: tx in s.chain.live && tx.hash == t.deposit.txHash && PaysFor(tx, t.terms, s.world.escrow)
  }

  /** A transaction with the recorded hash is the deposit, wherever it was included again. */
  lemma SameHashPays(chain: Chain, t: Trade, escrow: string, tx: RpcTx)
    requires SeenOk(chain) && DepositSeen(escrow, chain, t) && tx in chain.live && tx.hash == t.deposit.txHash
    ensures PaysFor(tx, t.terms, escrow)
  {
    var x :| x in chain.seen && x.hash == t.deposit.txHash && x.blockNumber == t.deposit.blockHeight && PaysFor(x, t.terms, escrow);
    assert SameContent(tx, x);
  }

  lemma BackedIsOnChain(s: System, t: Trade)
    requires SeenOk(s.chain) && DepositSeen(s.world.escrow, s.chain, t)
    ensures IsBacked(s, t) <==> IsOnChain(s, t.deposit.txHash)
  {
    if IsOnChain(s, t.deposit.txHash) {
      var tx :| tx in s.chain.live && tx.hash == t.deposit.txHash;
      SameHashPays(s.chain, t, s.world.escrow, tx);
    }
  }

  lemma DepositOf(s: System, id: string)
    requires Inv(s) && id in s.world.tables.trades && IsDeposited(s.world.tables.trades[id].state)
    ensures SeenOk(s.chain) && DepositSeen(s.world.escrow, s.chain, s.world.tables.trades[id])
  {
    RowHolds(s, id);
  }

  /** Later states know the trade with the same terms and deposit. */
  lemma StillDeposited(s: System, more: seq<Event>, id: string)
    requires Inv(s) && id in s.world.tables.trades && IsDeposited(s.world.tables.trades[id].state)
    ensures var u := Run(s, more); var t := s.world.tables.trades[id];
            SeenOk(u.chain) && DepositSeen(u.world.escrow, u.chain, t)
  {
    var u := Run(s, more);
    HistoryIsKept(s, more);
    RunFromOk(s, more);
    DepositOf(u, id);
    var t, t' := s.world.tables.trades[id], u.world.tables.trades[id];
    assert RowEvolves(t, t');
  }

  lemma BackedForeverIff(s: System, id: string)
    requires Inv(s) && id in s.world.tables.trades && IsDeposited(s.world.tables.trades[id].state)
    ensures var t := s.world.tables.trades[id];
            (forall more :: IsBacked(Run(s, more), t)) <==> IsFinalOnChain(s, t.deposit.txHash)
  {
    var t := s.world.tables.trades[id];
    forall more
      ensures IsBacked(Run(s, more), t) <==> IsOnChain(Run(s, more), t.deposit.txHash)
    {
      StillDeposited(s, more, id);
      BackedIsOnChain(Run(s, more), t);
    }
    OnChainForeverIff(s, t.deposit.txHash);
  }

  /** The step that funds a trade: its effect. */
  lemma FundingStep(s: System, pid: nat, id: string, io: Io)
    requires pid in s.tasks && s.tasks[pid] == FinalizeDeposit(id)
    requires id in s.world.tables.trades && s.world.tables.trades[id].state.DepositFinalizing?
    ensures var s' := Next(s, Advance(pid, io));
      && id in s'.world.tables.trades && s'.chain == s.chain
      && s'.world.tables.trades[id].state.Funded? && s'.world.tables.trades[id].deposit == s.world.tables.trades[id].deposit
  {
  }

  /** The watcher funds a trade on the height it recorded and does not look the deposit up again. The trade it funds
      has its money in escrow whatever happens afterwards exactly if, just before the step, a transaction with the
      recorded hash is on the chain in a final block. */
  lemma FundingIsBackedIff(setup: Setup, events: seq<Event>, pid: nat, id: string, io: Io)
    requires var s := Run(Initial(setup), events);
      && pid in s.tasks && s.tasks[pid] == FinalizeDeposit(id)
      && id in s.world.tables.trades && s.world.tables.trades[id].state.DepositFinalizing?
    ensures var s := Run(Initial(setup), events); var s' := Next(s, Advance(pid, io));
      && id in s'.world.tables.trades && s'.world.tables.trades[id].state.Funded?
      && ((forall more :: IsBacked(Run(s', more), s'.world.tables.trades[id])) <==> IsFinalOnChain(s, s.world.tables.trades[id].deposit.txHash))
  {
    var s := Run(Initial(setup), events);
    RunOk(setup, events);
    NextOk(s, Advance(pid, io));
    FundingStep(s, pid, id, io);
    BackedForeverIff(Next(s, Advance(pid, io)), id);
  }

  // ---- Owners ----

  /** What the chain holds for the registry, and the part of it in final blocks. */
  ghost function Inbound(s: System): set<RpcTx> {
    set tx | tx in s.chain.live && s.setup.IsInbound(tx)
  }

  ghost function FinalInbound(s: System): set<RpcTx> {
    set tx | tx in Inbound(s) && tx.blockNumber <= s.chain.macro
  }

  ghost predicate Orders(ordered: seq<RpcTx>, txs: set<RpcTx>) {
    IsSorted(ordered) && forall tx :: tx in ordered <==> tx in txs
  }

  ghost predicate TakenBy(r: Reading, ordered: seq<RpcTx>, handle: string, claim: HandleClaim, i: nat) {
    i < |ordered| && ordered[i].hash == claim.txHash && r.signer(ordered[i]) == claim.address && Takes(r, ordered, handle, i)
  }

  /** These transactions, in whatever order a sort puts them, give the handle to this claim. */
  ghost predicate IsTaken(r: Reading, txs: set<RpcTx>, handle: string, claim: HandleClaim) {
    forall ordered :: Orders(ordered, txs) ==> exists i :: TakenBy(r, ordered, handle, claim, i)
  }

  /** Such an order exists, so that this says something. */
  lemma {:induction false} HasOrder(txs: set<RpcTx>) returns (ordered: seq<RpcTx>)
    ensures Orders(ordered, txs)
  {
    if txs == {} {
      ordered := [];
    } else {
      var tx :| tx in txs;
      var rest := HasOrder(txs - {tx});
      ordered := Placed(rest, tx);
    }
  }

  lemma {:induction false} Placed(rest: seq<RpcTx>, tx: RpcTx) returns (ordered: seq<RpcTx>)
    requires IsSorted(rest)
    ensures IsSorted(ordered) && forall x :: x in ordered <==> x == tx || x in rest
  {
    if |rest| == 0 || !Before(tx, rest[|rest| - 1]) {
      ordered := rest + [tx];
    } else {
      var init, last := rest[..|rest| - 1], rest[|rest| - 1];
      var placed := Placed(init, tx);
      assert rest == init + [last];
      ordered := placed + [last];
      forall i | 0 <= i < |placed|
        ensures !Before(last, placed[i])
      {
        assert placed[i] == tx || placed[i] in init;
      }
    }
  }

  /** A claim that is not on the chain takes nothing. */
  lemma GoneTakesNothing(s: System, r: Reading, handle: string, claim: HandleClaim)
    requires !IsOnChain(s, claim.txHash)
    ensures !IsTaken(r, Inbound(s), handle, claim)
  {
    var ordered := HasOrder(Inbound(s));
    forall i: nat
      ensures !TakenBy(r, ordered, handle, claim, i)
    {
      if i < |ordered| {
        assert ordered[i] in ordered;
      }
    }
  }

  /** Whether a claim takes the handle depends on what comes before it only. */
  lemma {:induction false} TakesInPrefix(r: Reading, txs: seq<RpcTx>, n: nat, handle: string, i: nat)
    requires i < n <= |txs|
    ensures Takes(r, txs[..n], handle, i) <==> Takes(r, txs, handle, i)
    decreases i
  {
    forall j | 0 <= j < i
      ensures Takes(r, txs[..n], handle, j) <==> Takes(r, txs, handle, j)
      ensures GivenUp(r, txs[..n], handle, j, i) <==> GivenUp(r, txs, handle, j, i)
    {
      TakesInPrefix(r, txs, n, handle, j);
      GivenUpInPrefix(r, txs, n, handle, j, i);
    }
  }

  lemma GivenUpInPrefix(r: Reading, txs: seq<RpcTx>, n: nat, handle: string, j: nat, i: nat)
    requires j < i < n <= |txs|
    ensures GivenUp(r, txs[..n], handle, j, i) <==> GivenUp(r, txs, handle, j, i)
  {
    if GivenUp(r, txs, handle, j, i) {
      var k :| j < k < i && r.Releases(txs[k], handle) && r.SameSigner(txs[k], txs[j]);
      assert txs[..n][k] == txs[k];
    }
  }

  /** The transactions of a sorted list up to a height come first. */
  lemma {:induction false} UpTo(ordered: seq<RpcTx>, height: nat) returns (n: nat)
    requires IsSorted(ordered)
    ensures n <= |ordered|
    ensures forall tx :: tx in ordered[..n] <==> tx in ordered && tx.blockNumber <= height
  {
    n := |ordered|;
    if |ordered| > 0 {
      var init, last := ordered[..|ordered| - 1], ordered[|ordered| - 1];
      assert ordered == init + [last];
      if last.blockNumber > height {
        n := UpTo(init, height);
        assert ordered[..n] == init[..n];
      } else {
        assert ordered[..n] == ordered;
      }
    }
  }

  lemma {:induction false} SetupStays(s: System, more: seq<Event>)
    ensures Run(s, more).setup == s.setup
  {
    if |more| > 0 {
      SetupStays(s, more[..|more| - 1]);
      NextKeepsSetup(Run(s, more[..|more| - 1]), more[|more| - 1]);
    }
  }

  lemma NextKeepsSetup(s: System, e: Event)
    ensures Next(s, e).setup == s.setup
  {
  }

  /** What is in final blocks stays, and nothing is added to it. */
  lemma FinalPartStays(s: System, more: seq<Event>, tx: RpcTx)
    requires tx.blockNumber <= s.chain.macro
    ensures tx in Inbound(Run(s, more)) <==> tx in FinalInbound(s)
  {
    SetupStays(s, more);
    FinalityIsStable(s, more, tx);
  }

  lemma FinalOwnerStays(s: System, more: seq<Event>, handle: string, claim: HandleClaim)
    requires IsTaken(s.setup.Rules(), FinalInbound(s), handle, claim)
    ensures IsTaken(s.setup.Rules(), Inbound(Run(s, more)), handle, claim)
  {
    var r, txs := s.setup.Rules(), Inbound(Run(s, more));
    forall ordered | Orders(ordered, txs)
      ensures exists i :: TakenBy(r, ordered, handle, claim, i)
    {
      var n := FinalOrder(s, more, ordered);
      var i :| TakenBy(r, ordered[..n], handle, claim, i);
      TakesInPrefix(r, ordered, n, handle, i);
      assert TakenBy(r, ordered, handle, claim, i);
    }
  }

  lemma FinalOrder(s: System, more: seq<Event>, ordered: seq<RpcTx>) returns (n: nat)
    requires Orders(ordered, Inbound(Run(s, more)))
    ensures n <= |ordered| && Orders(ordered[..n], FinalInbound(s))
  {
    n := UpTo(ordered, s.chain.macro);
    forall tx
      ensures tx in ordered[..n] <==> tx in FinalInbound(s)
    {
      if tx.blockNumber <= s.chain.macro {
        FinalPartStays(s, more, tx);
      }
    }
  }

  /** A reorganisation can take away everything that is not final. */
  lemma OnlyFinalLeft(s: System) returns (events: seq<Event>)
    ensures Inbound(Run(s, events)) == FinalInbound(s)
  {
    var dropped := set tx | tx in s.chain.live && tx.blockNumber > s.chain.macro;
    events := [Reorganise(dropped)];
    assert events[..0] == [];
    assert Run(s, events) == Next(s, Reorganise(dropped));
  }

  /** The ownership watcher decides on the registry as it was last swept, and does not look at the chain again. The
      claim it acts on, or any other, gives its signer the handle in every continuation exactly if the final part of
      the chain, as it is now, gives it. */
  lemma OwnershipIsBackedIff(setup: Setup, events: seq<Event>, handle: string, claim: HandleClaim)
    ensures var s := Run(Initial(setup), events);
            (forall more :: IsTaken(setup.Rules(), Inbound(Run(s, more)), handle, claim)) <==>
              IsTaken(setup.Rules(), FinalInbound(s), handle, claim)
  {
    var s := Run(Initial(setup), events);
    SetupStays(Initial(setup), events);
    if IsTaken(setup.Rules(), FinalInbound(s), handle, claim) {
      forall more
        ensures IsTaken(setup.Rules(), Inbound(Run(s, more)), handle, claim)
      {
        FinalOwnerStays(s, more, handle, claim);
      }
    } else {
      var gone := OnlyFinalLeft(s);
    }
  }
}
