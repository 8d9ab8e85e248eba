/** The deposit watcher over the mutable store: its three loops, and the fixpoint one sweep reaches
    (backend/marketplace_escrow_watcher.go). */
module EscrowWatching {
  import opened Wrappers
  import opened Trades
  import opened AddressText
  import opened Hex
  import opened ChainTypes
  import opened EscrowSystem
  import opened MarketplaceInvariant
  import opened MarketplaceStore
  import opened Sets
  import T = MarketplaceTables

  // ---- What one sweep makes of one trade ----

  /** The first of the fetched transactions that pays for the trade. */
  function FirstPayment(txs: seq<RpcTx>, terms: Terms, escrow: string): Option<RpcTx> {
    if |txs| == 0 then None
    else
      match FirstPayment(txs[..|txs| - 1], terms, escrow)
      case Some(tx) => Some(tx)
      case None => if PaysFor(txs[|txs| - 1], terms, escrow) then Some(txs[|txs| - 1]) else None
  }

  /** The row after the first loop, over the given transactions. */
  function Recorded(t: Trade, txs: seq<RpcTx>, escrow: string, now: int): Trade {
    match FirstPayment(txs, t.terms, escrow)
    case Some(tx) =>
      if t.state.AwaitingDeposit? then T.Moved(t, DepositFinalizing, SetDeposit(Deposit(tx.hash, tx.blockNumber)), now) else t
    case None => t
  }

  predicate IsFinal(t: Trade, macro: nat) {
    t.state.DepositFinalizing? && t.deposit.blockHeight <= macro
  }

  /** The row after the second loop. */
  function Finalized(t: Trade, macro: nat, now: int): Trade {
    if IsFinal(t, macro) then T.Moved(t, Funded, NoMutation, now) else t
  }

  /** The row after the third loop. */
  function Healed(t: Trade, now: int): Trade {
    if t.state.Funded? then T.Moved(t, AwaitingRelease, NoMutation, now) else t
  }

  function Watched(t: Trade, txs: seq<RpcTx>, escrow: string, macro: nat, now: int): Trade {
    Healed(Finalized(Recorded(t, txs, escrow, now), macro, now), now)
  }

  /** The transaction at `i` pays, and none before it does. */
  predicate IsFirstPayment(txs: seq<RpcTx>, terms: Terms, escrow: string, i: nat) {
    i < |txs| && PaysFor(txs[i], terms, escrow) && forall j :: 0 <= j < i ==> !PaysFor(txs[j], terms, escrow)
  }

  lemma FirstOfMore(init: seq<RpcTx>, tx: RpcTx, terms: Terms, escrow: string, i: nat)
    requires IsFirstPayment(init, terms, escrow, i)
    ensures IsFirstPayment(init + [tx], terms, escrow, i)
  {
    assert forall j :: 0 <= j < |init| ==> (init + [tx])[j] == init[j];
  }

  lemma FirstIsLast(init: seq<RpcTx>, tx: RpcTx, terms: Terms, escrow: string)
    requires forall i :: 0 <= i < |init| ==> !PaysFor(init[i], terms, escrow)
    requires PaysFor(tx, terms, escrow)
    ensures IsFirstPayment(init + [tx], terms, escrow, |init|)
  {
    assert forall j :: 0 <= j < |init| ==> (init + [tx])[j] == init[j];
  }

  lemma NoneOfMore(init: seq<RpcTx>, tx: RpcTx, terms: Terms, escrow: string)
    requires forall i :: 0 <= i < |init| ==> !PaysFor(init[i], terms, escrow)
    requires !PaysFor(tx, terms, escrow)
    ensures forall i :: 0 <= i < |init + [tx]| ==> !PaysFor((init + [tx])[i], terms, escrow)
  {
    assert forall j :: 0 <= j < |init| ==> (init + [tx])[j] == init[j];
  }

  lemma {:induction false} FirstPaymentAt(txs: seq<RpcTx>, terms: Terms, escrow: string) returns (i: nat)
    ensures FirstPayment(txs, terms, escrow).Some? ==>
      IsFirstPayment(txs, terms, escrow, i) && txs[i] == FirstPayment(txs, terms, escrow).value
    ensures FirstPayment(txs, terms, escrow).None? ==> forall j :: 0 <= j < |txs| ==> !PaysFor(txs[j], terms, escrow)
  {
    i := 0;
    if |txs| > 0 {
      var init, tx := txs[..|txs| - 1], txs[|txs| - 1];
      assert txs == init + [tx];
      i := FirstPaymentAt(init, terms, escrow);
      if FirstPayment(init, terms, escrow).Some? {
        FirstOfMore(init, tx, terms, escrow, i);
      } else if PaysFor(tx, terms, escrow) {
        FirstIsLast(init, tx, terms, escrow);
        i := |init|;
      } else {
        NoneOfMore(init, tx, terms, escrow);
      }
    }
  }

  lemma FirstPaymentFound(txs: seq<RpcTx>, terms: Terms, escrow: string)
    ensures FirstPayment(txs, terms, escrow).None? <==> forall i :: 0 <= i < |txs| ==> !PaysFor(txs[i], terms, escrow)
    ensures FirstPayment(txs, terms, escrow).Some? ==>
      exists i :: 0 <= i < |txs| && txs[i] == FirstPayment(txs, terms, escrow).value && PaysFor(txs[i], terms, escrow)
        && forall j :: 0 <= j < i ==> !PaysFor(txs[j], terms, escrow)
  {
    var i := FirstPaymentAt(txs, terms, escrow);
  }

  /** After a sweep no trade is left at Funded, none is finalizing at or below the macro block, no trade awaits a
      deposit that was fetched, and a second sweep with the same view would change nothing. */
  lemma SweepIsFixpoint(t: Trade, txs: seq<RpcTx>, escrow: string, macro: nat, now: int, later: int)
    ensures var t' := Watched(t, txs, escrow, macro, now);
      && !t'.state.Funded?
      && !(t'.state.DepositFinalizing? && t'.deposit.blockHeight <= macro)
      && (t'.state.AwaitingDeposit? ==> forall i :: 0 <= i < |txs| ==> !PaysFor(txs[i], t'.terms, escrow))
      && Watched(t', txs, escrow, macro, later) == t'
  {
    FirstPaymentFound(txs, t.terms, escrow);
  }

  /** Only waiting, finalizing and funded trades move, a waiting one exactly when some fetched transaction pays for
      it; it then carries the first such transaction, and goes on to the release if that is final. */
  lemma WatchedMoves(t: Trade, txs: seq<RpcTx>, escrow: string, macro: nat, now: int)
    ensures var t' := Watched(t, txs, escrow, macro, now);
      && t'.terms == t.terms && t'.payout == t.payout && t'.refund == t.refund
      && (t' != t && t'.state != AwaitingRelease ==> t.state.AwaitingDeposit? && t'.state.DepositFinalizing?)
      && (t.state.AwaitingDeposit? ==> (t'.state.AwaitingDeposit? <==> forall i :: 0 <= i < |txs| ==> !PaysFor(txs[i], t.terms, escrow)))
      && (t.state.AwaitingDeposit? && !t'.state.AwaitingDeposit? ==>
            (t'.state.AwaitingRelease? <==> t'.deposit.blockHeight <= macro)
            && exists i :: 0 <= i < |txs| && PaysFor(txs[i], t.terms, escrow) && t'.deposit == Deposit(txs[i].hash, txs[i].blockNumber)
                           && forall j :: 0 <= j < i ==> !PaysFor(txs[j], t.terms, escrow))
      && (t.state.DepositFinalizing? ==> t'.deposit == t.deposit && (t'.state.AwaitingRelease? <==> t.deposit.blockHeight <= macro))
      && (t.state.Funded? ==> t'.state.AwaitingRelease? && t'.deposit == t.deposit)
      && (!t.state.AwaitingDeposit? && !t.state.DepositFinalizing? && !t.state.Funded? ==> t' == t)
  {
    FirstPaymentFound(txs, t.terms, escrow);
  }

  /** A transaction to the escrow address, from the buyer, of exactly the price, whose data spells out the reference. */
  predicate IsPayment(tx: RpcTx, terms: Terms, escrow: string) {
    && Compact(tx.Recipient()) == Compact(escrow) && Compact(tx.Sender()) == Compact(terms.buyer) && tx.value == terms.price
    && Decode(TrimPrefix(TrimSpace(tx.Data()), "0x")) == Some("NME1:" + terms.reference)
  }

  lemma PaymentsPay(tx: RpcTx, terms: Terms, escrow: string)
    requires terms.reference != ""
    ensures PaysFor(tx, terms, escrow) <==> IsPayment(tx, terms, escrow)
  {
    ReferencesExactly(tx.Data(), terms.reference);
    CompactNormalize(tx.Sender());
  }

  /** A waiting trade goes on exactly if some fetched transaction is a payment for it, and the one it carries is. */
  lemma DepositFoundIff(t: Trade, txs: seq<RpcTx>, escrow: string, macro: nat, now: int)
    requires t.state.AwaitingDeposit? && t.terms.reference != ""
    ensures var t' := Watched(t, txs, escrow, macro, now);
      && (t'.state.AwaitingDeposit? <==> forall i :: 0 <= i < |txs| ==> !IsPayment(txs[i], t.terms, escrow))
      && (!t'.state.AwaitingDeposit? ==>
            exists i :: 0 <= i < |txs| && IsPayment(txs[i], t.terms, escrow) && t'.deposit == Deposit(txs[i].hash, txs[i].blockNumber))
  {
    WatchedMoves(t, txs, escrow, macro, now);
    forall i | 0 <= i < |txs|
      ensures PaysFor(txs[i], t.terms, escrow) <==> IsPayment(txs[i], t.terms, escrow)
    {
      PaymentsPay(txs[i], t.terms, escrow);
    }
  }

  // ---- Tables between two turns of a loop ----

  ghost function RecordedAll(tb: T.Tables, txs: seq<RpcTx>, escrow: string, now: int): T.Tables {
    tb.(trades := map id | id in tb.trades :: Recorded(tb.trades[id], txs, escrow, now))
  }

  /** The rows in `done` moved on from one state to another. */
  ghost function Moved(tb: T.Tables, done: set<string>, from: TradeState, to: TradeState, now: int): T.Tables {
    tb.(trades := map id | id in tb.trades ::
      if id in done && tb.trades[id].state == from then T.Moved(tb.trades[id], to, NoMutation, now) else tb.trades[id])
  }

  ghost function WatchedAll(tb: T.Tables, txs: seq<RpcTx>, escrow: string, macro: nat, now: int): T.Tables {
    tb.(trades := map id | id in tb.trades :: Watched(tb.trades[id], txs, escrow, macro, now))
  }

  lemma OneMoreTx(t: Trade, txs: seq<RpcTx>, tx: RpcTx, escrow: string, now: int)
    ensures var before, after := Recorded(t, txs, escrow, now), Recorded(t, txs + [tx], escrow, now);
            if before.state.AwaitingDeposit? && PaysFor(tx, t.terms, escrow)
            then after == T.Moved(before, DepositFinalizing, SetDeposit(Deposit(tx.hash, tx.blockNumber)), now)
            else after == before
  {
    assert (txs + [tx])[..|txs|] == txs;
  }

  /** A transaction that pays for no waiting trade changes nothing. */
  lemma RecordsNothing(tb: T.Tables, txs: seq<RpcTx>, tx: RpcTx, escrow: string, now: int)
    requires forall id :: id in tb.trades ==>
      !(Recorded(tb.trades[id], txs, escrow, now).state.AwaitingDeposit? && PaysFor(tx, tb.trades[id].terms, escrow))
    ensures RecordedAll(tb, txs + [tx], escrow, now) == RecordedAll(tb, txs, escrow, now)
  {
    forall id | id in tb.trades
      ensures Recorded(tb.trades[id], txs + [tx], escrow, now) == Recorded(tb.trades[id], txs, escrow, now)
    {
      OneMoreTx(tb.trades[id], txs, tx, escrow, now);
    }
    assert RecordedAll(tb, txs + [tx], escrow, now).trades == RecordedAll(tb, txs, escrow, now).trades;
  }

  /** A transaction that pays for a waiting trade is recorded with it, and with no other. */
  lemma RecordsOne(tb: T.Tables, txs: seq<RpcTx>, tx: RpcTx, escrow: string, now: int, id: string)
    requires ReferencesUnique(tb) && id in tb.trades
    requires Recorded(tb.trades[id], txs, escrow, now).state.AwaitingDeposit? && PaysFor(tx, tb.trades[id].terms, escrow)
    ensures T.Transition(RecordedAll(tb, txs, escrow, now), id, AwaitingDeposit, DepositFinalizing, SetDeposit(Deposit(tx.hash, tx.blockNumber)), now)
         == Ok(RecordedAll(tb, txs + [tx], escrow, now))
  {
    var before, after := RecordedAll(tb, txs, escrow, now), RecordedAll(tb, txs + [tx], escrow, now);
    forall k | k in tb.trades && k != id
      ensures after.trades[k] == before.trades[k]
    {
      RecordsNotThis(tb, txs, tx, escrow, now, id, k);
    }
    OneMoreTx(tb.trades[id], txs, tx, escrow, now);
    OneKeyDiffers(before.trades, after.trades, id);
  }

  lemma RecordsNotThis(tb: T.Tables, txs: seq<RpcTx>, tx: RpcTx, escrow: string, now: int, id: string, k: string)
    requires ReferencesUnique(tb) && id in tb.trades && k in tb.trades && k != id && PaysFor(tx, tb.trades[id].terms, escrow)
    ensures Recorded(tb.trades[k], txs + [tx], escrow, now) == Recorded(tb.trades[k], txs, escrow, now)
  {
    assert !PaysFor(tx, tb.trades[k].terms, escrow);
    OneMoreTx(tb.trades[k], txs, tx, escrow, now);
  }

  lemma NobodyExpects(tb: T.Tables, txs: seq<RpcTx>, escrow: string, now: int, reference: string)
    requires !RecordedAll(tb, txs, escrow, now).UsesReference(reference)
    ensures forall id :: id in tb.trades ==> tb.trades[id].terms.reference != reference
  {
    forall id | id in tb.trades
      ensures tb.trades[id].terms.reference != reference
    {
      assert RecordedAll(tb, txs, escrow, now).trades[id].terms.reference == tb.trades[id].terms.reference;
    }
  }

  lemma MovesOne(tb: T.Tables, done: set<string>, id: string, from: TradeState, to: TradeState, now: int)
    requires id in tb.trades && id !in done && tb.trades[id].state == from && CanTransitionTo(from, to)
    ensures T.Transition(Moved(tb, done, from, to, now), id, from, to, NoMutation, now) == Ok(Moved(tb, done + {id}, from, to, now))
  {
    var before, after := Moved(tb, done, from, to, now), Moved(tb, done + {id}, from, to, now);
    assert before.trades[id := after.trades[id]] == after.trades;
  }

  lemma MovesNone(tb: T.Tables, from: TradeState, to: TradeState, now: int)
    ensures Moved(tb, {}, from, to, now) == tb
  {
    assert Moved(tb, {}, from, to, now).trades == tb.trades;
  }

  /** The second and the third loop take every row on as Finalized and Healed say. */
  lemma TwoMoves(tb: T.Tables, macro: nat, now: int, final: set<string>, funded: set<string>, id: string)
    requires id in tb.trades && (id in final <==> IsFinal(tb.trades[id], macro))
    requires Moved(tb, final, DepositFinalizing, Funded, now).trades[id].state.Funded? ==> id in funded
    ensures Moved(Moved(tb, final, DepositFinalizing, Funded, now), funded, Funded, AwaitingRelease, now).trades[id]
         == Healed(Finalized(tb.trades[id], macro, now), now)
  {
    assert Moved(tb, final, DepositFinalizing, Funded, now).trades[id] == Finalized(tb.trades[id], macro, now);
  }

  lemma LoopsCompose(tb: T.Tables, txs: seq<RpcTx>, escrow: string, macro: nat, now: int, final: set<string>, funded: set<string>)
    requires var recorded := RecordedAll(tb, txs, escrow, now);
             var finalized := Moved(recorded, final, DepositFinalizing, Funded, now);
             (forall id :: id in tb.trades ==> (id in final <==> IsFinal(recorded.trades[id], macro)))
             && (forall id :: id in tb.trades && finalized.trades[id].state.Funded? ==> id in funded)
    ensures Moved(Moved(RecordedAll(tb, txs, escrow, now), final, DepositFinalizing, Funded, now), funded, Funded, AwaitingRelease, now)
         == WatchedAll(tb, txs, escrow, macro, now)
  {
    var recorded := RecordedAll(tb, txs, escrow, now);
    var healed := Moved(Moved(recorded, final, DepositFinalizing, Funded, now), funded, Funded, AwaitingRelease, now);
    var watched := WatchedAll(tb, txs, escrow, macro, now);
    forall id | id in tb.trades
      ensures healed.trades[id] == watched.trades[id]
    {
      assert recorded.trades[id] == Recorded(tb.trades[id], txs, escrow, now);
      TwoMoves(recorded, macro, now, final, funded, id);
    }
    SameRows(healed, watched);
  }

  lemma SameRows(a: T.Tables, b: T.Tables)
    requires a.trades.Keys == b.trades.Keys && a.listings == b.listings && a.nonces == b.nonces
    requires forall id :: id in a.trades ==> a.trades[id] == b.trades[id]
    ensures a == b
  {
    assert a.trades == b.trades;
  }

  datatype WatchError = NoChain

  class EscrowWatcher {
    const store: Store
    const escrowAddress: string
    var lastSweep: int

    constructor (store: Store, escrowAddress: string)
      ensures this.store == store && this.escrowAddress == escrowAddress && lastSweep == NEVER
    {
      this.store, this.escrowAddress := store, escrowAddress;
      lastSweep := NEVER;
    }

    /** First loop: fetched deposits are recorded with the trades they pay for. */
    method RecordDeposits(txs: seq<RpcTx>, now: int)
      requires ReferencesUnique(store.State())
      modifies store
      ensures store.State() == RecordedAll(old(store.State()), txs, escrowAddress, now)
    {
      ghost var tb := store.State();
      assert RecordedAll(tb, [], escrowAddress, now).trades == tb.trades;
      var i := 0;
      while i < |txs|
        invariant 0 <= i <= |txs|
        invariant store.State() == RecordedAll(tb, txs[..i], escrowAddress, now)
      {
        var tx := txs[i];
        assert txs[..i + 1] == txs[..i] + [tx];
        RecordDeposit(tx, now, tb, txs[..i]);
        i := i + 1;
      }
      assert txs[..|txs|] == txs;
    }

    method RecordDeposit(tx: RpcTx, now: int, ghost tb: T.Tables, ghost earlier: seq<RpcTx>)
      requires ReferencesUnique(tb) && store.State() == RecordedAll(tb, earlier, escrowAddress, now)
      modifies store
      ensures store.State() == RecordedAll(tb, earlier + [tx], escrowAddress, now)
    {
      var reference := ParseTradeReference(tx.Data());
      if Compact(tx.Recipient()) != Compact(escrowAddress) || reference == "" {
        RecordsNothing(tb, earlier, tx, escrowAddress, now);
        return;
      }
      var found := store.FindTradeByReference(reference);
      if found.None? {
        NobodyExpects(tb, earlier, escrowAddress, now, reference);
        RecordsNothing(tb, earlier, tx, escrowAddress, now);
        return;
      }
      var id, trade := found.value.id, found.value.trade;
      if trade.state != AwaitingDeposit || tx.value != trade.terms.price
        || Compact(Normalize(tx.Sender())) != Compact(trade.terms.buyer) {
        RecordsNothing(tb, earlier, tx, escrowAddress, now);
        return;
      }
      RecordsOne(tb, earlier, tx, escrowAddress, now, id);
      var moved := store.Transition(id, AwaitingDeposit, DepositFinalizing, SetDeposit(Deposit(tx.hash, tx.blockNumber)), now);
      assert moved.Ok?;
    }

    /** Second loop: recorded deposits at or below the macro block are final. */
    method FinalizeDeposits(macro: nat, now: int) returns (ghost final: set<string>)
      modifies store
      ensures forall id :: id in old(store.trades) ==> (id in final <==> IsFinal(old(store.trades[id]), macro))
      ensures store.State() == Moved(old(store.State()), final, DepositFinalizing, Funded, now)
    {
      ghost var tb := store.State();
      var rows := store.TradesInState(DepositFinalizing);
      final := {};
      MovesNone(tb, DepositFinalizing, Funded, now);
      var i := 0;
      while i < |rows|
        invariant 0 <= i <= |rows|
        invariant forall k :: 0 <= k < |rows| ==> (rows[k].id in final <==> k < i && IsFinal(rows[k].trade, macro))
        invariant final <= IdsOf(rows)
        invariant store.State() == Moved(tb, final, DepositFinalizing, Funded, now)
      {
        var row := rows[i];
        if row.trade.deposit.blockHeight <= macro {
          MovesOne(tb, final, row.id, DepositFinalizing, Funded, now);
          var moved := store.Transition(row.id, DepositFinalizing, Funded, NoMutation, now);
          assert moved.Ok?;
          final := final + {row.id};
        }
        i := i + 1;
      }
    }

    /** Third loop: a funded trade moves on at once. */
    method HealFunded(now: int) returns (ghost funded: set<string>)
      modifies store
      ensures forall id :: id in old(store.trades) && old(store.trades[id]).state.Funded? ==> id in funded
      ensures store.State() == Moved(old(store.State()), funded, Funded, AwaitingRelease, now)
    {
      ghost var tb := store.State();
      var rows := store.TradesInState(Funded);
      MovesNone(tb, Funded, AwaitingRelease, now);
      funded := {};
      var i := 0;
      while i < |rows|
        invariant 0 <= i <= |rows|
        invariant funded == IdsOf(rows[..i])
        invariant store.State() == Moved(tb, funded, Funded, AwaitingRelease, now)
      {
        var row := rows[i];
        MovesOne(tb, funded, row.id, Funded, AwaitingRelease, now);
        var moved := store.Transition(row.id, Funded, AwaitingRelease, NoMutation, now);
        assert moved.Ok?;
        assert rows[..i + 1] == rows[..i] + [row];
        IdsOfMore(rows[..i], row);
        funded := funded + {row.id};
        i := i + 1;
      }
      assert rows[..|rows|] == rows;
    }

    /** One sweep takes every trade to its fixpoint, within the cooldown or without the chain it does nothing. */
    method Sweep(fetched: Option<seq<RpcTx>>, macro: Option<nat>, now: int) returns (r: Outcome<(), WatchError>)
      requires ReferencesUnique(store.State())
      modifies this, store
      ensures now - old(lastSweep) < SWEEP_COOLDOWN_SECONDS || fetched.None? || macro.None? ==>
        store.State() == old(store.State()) && lastSweep == old(lastSweep)
      ensures now - old(lastSweep) >= SWEEP_COOLDOWN_SECONDS && fetched.Some? && macro.Some? ==>
        && store.State() == WatchedAll(old(store.State()), fetched.value, escrowAddress, macro.value, now)
        && lastSweep == now
      ensures r.Fail? <==> now - old(lastSweep) >= SWEEP_COOLDOWN_SECONDS && (fetched.None? || macro.None?)
    {
      if now - lastSweep < SWEEP_COOLDOWN_SECONDS {
        return Ok(());
      }
      if fetched.None? || macro.None? {
        return Fail(NoChain);
      }
      lastSweep := now;
      ghost var tb := store.State();
      RecordDeposits(fetched.value, now);
      ghost var final := FinalizeDeposits(macro.value, now);
      ghost var funded := HealFunded(now);
      LoopsCompose(tb, fetched.value, escrowAddress, macro.value, now, final, funded);
      r := Ok(());
    }
  }
}
