/** When a fetched history is safe to fold into the registry (backend/handles_sync.go). */
module HandleSyncing {
  import opened Wrappers
  import opened AddressText
  import opened ChainTypes
  import opened ClaimCodec
  import opened Grouping
  import opened HandleFold
  import opened HandleRegistries
  import opened HistoryPaging

  // ---- Ambiguity ----

  /** Only acting transactions are grouped. */
  function ActingBlock(r: Reading): RpcTx -> Option<nat> {
    (tx: RpcTx) => if r.act(tx).Some? then Some(tx.blockNumber) else None
  }

  const NO_INDEX: RpcTx -> bool := (tx: RpcTx) => tx.transactionIndex.None?

  lemma AmbiguousIsClash(r: Reading, txs: seq<RpcTx>)
    ensures IsAmbiguous(r, txs) <==> Clashes(ActingBlock(r), NO_INDEX, txs)
  {
    if IsAmbiguous(r, txs) {
      var i, j :| 0 <= i < j < |txs| && HandleFold.Clash(r, txs[i], txs[j]);
      assert Grouping.Clash(ActingBlock(r), NO_INDEX, txs[i], txs[j]);
    }
    if Clashes(ActingBlock(r), NO_INDEX, txs) {
      var i, j :| 0 <= i < j < |txs| && Grouping.Clash(ActingBlock(r), NO_INDEX, txs[i], txs[j]);
      assert HandleFold.Clash(r, txs[i], txs[j]);
    }
  }

  /** Groups the acting transactions by block in a map and looks for a group of two with a missing index. */
  method RegistryOrderingAmbiguous(r: Reading, txs: seq<RpcTx>) returns (ambiguous: bool)
    ensures ambiguous <==> IsAmbiguous(r, txs)
    ensures ambiguous <==> exists i, j ::
      && 0 <= i < j < |txs| && r.act(txs[i]).Some? && r.act(txs[j]).Some? && txs[i].blockNumber == txs[j].blockNumber
      && (txs[i].transactionIndex.None? || txs[j].transactionIndex.None?)
  {
    var byBlock: map<nat, seq<RpcTx>> := map[];
    var i := 0;
    while i < |txs|
      invariant 0 <= i <= |txs|
      invariant IsGrouped(byBlock, ActingBlock(r), txs[..i])
    {
      var tx := txs[i];
      assert txs[..i + 1] == txs[..i] + [tx];
      GroupsOneMore(byBlock, ActingBlock(r), txs[..i], tx);
      if r.act(tx).Some? {
        byBlock := byBlock[tx.blockNumber := At(byBlock, tx.blockNumber) + [tx]];
      }
      i := i + 1;
    }
    assert txs[..|txs|] == txs;
    ambiguous := AnyBadGroup(byBlock, NO_INDEX);
    BadGroupsClash(byBlock, ActingBlock(r), NO_INDEX, txs);
    AmbiguousIsClash(r, txs);
  }

  // ---- Sweeping ----

  function Inbound(txs: seq<RpcTx>, address: string): seq<RpcTx> {
    if |txs| == 0 then []
    else
      Inbound(txs[..|txs| - 1], address) +
      (if Compact(txs[|txs| - 1].Recipient()) == Compact(address) then [txs[|txs| - 1]] else [])
  }

  /** The filter keeps exactly the transactions addressed to the registry, each as often as it is there. */
  lemma {:induction false} InboundCounts(txs: seq<RpcTx>, address: string, tx: RpcTx)
    ensures multiset(Inbound(txs, address))[tx] == if Compact(tx.Recipient()) == Compact(address) then multiset(txs)[tx] else 0
    ensures tx in Inbound(txs, address) <==> tx in txs && Compact(tx.Recipient()) == Compact(address)
  {
    if |txs| > 0 {
      var init, last := txs[..|txs| - 1], txs[|txs| - 1];
      InboundCounts(init, address, tx);
      assert txs == init + [last];
      assert multiset(txs) == multiset(init) + multiset{last};
    }
  }

  lemma InboundOneMore(txs: seq<RpcTx>, tx: RpcTx, address: string)
    ensures Inbound(txs + [tx], address) == Inbound(txs, address) + (if Compact(tx.Recipient()) == Compact(address) then [tx] else [])
  {
    assert (txs + [tx])[..|txs|] == txs;
  }

  lemma InboundOne(tx: RpcTx, address: string)
    ensures Inbound([tx], address) == if Compact(tx.Recipient()) == Compact(address) then [tx] else []
  {
    assert Inbound([], address) == [];
    InboundOneMore([], tx, address);
    assert [] + [tx] == [tx];
  }

  lemma InboundGrows(a: seq<RpcTx>, init: seq<RpcTx>, last: RpcTx, address: string)
    requires Inbound(a + init, address) == Inbound(a, address) + Inbound(init, address)
    ensures Inbound(a + init + [last], address) == Inbound(a, address) + Inbound(init + [last], address)
  {
    var x, y := Inbound(a, address), Inbound(init, address);
    var kept := if Compact(last.Recipient()) == Compact(address) then [last] else [];
    InboundOneMore(a + init, last, address);
    InboundOneMore(init, last, address);
    assert x + y + kept == x + (y + kept);
  }

  /** And in their order: each part of the history leaves its own inbound part, in its place. */
  lemma {:induction false} InboundConcat(a: seq<RpcTx>, b: seq<RpcTx>, address: string)
    ensures Inbound(a + b, address) == Inbound(a, address) + Inbound(b, address)
  {
    if b == [] {
      assert a + b == a;
    } else {
      var init, last := b[..|b| - 1], b[|b| - 1];
      InboundConcat(a, init, address);
      InboundGrows(a, init, last, address);
      assert b == init + [last];
      assert a + b == a + init + [last];
    }
  }

  /** The entry was made by a claim of the history that is addressed to the registry. */
  ghost predicate IsMadeInbound(r: Reading, history: seq<RpcTx>, address: string, handle: string, entry: HandleClaim) {
    exists tx :: tx in history && Compact(tx.Recipient()) == Compact(address) && r.act(tx) == Some(Action(handle, false))
      && entry.txHash == tx.hash && entry.address == r.signer(tx) && entry.blockHeight == tx.blockNumber
  }

  /** What a sort of the inbound part holds. */
  lemma SortedMembers(history: seq<RpcTx>, ordered: seq<RpcTx>, address: string)
    requires IsOrderingOf(ordered, Inbound(history, address))
    ensures forall tx :: tx in ordered <==> tx in history && Compact(tx.Recipient()) == Compact(address)
  {
    var inbound := Inbound(history, address);
    forall tx
      ensures tx in ordered <==> tx in history && Compact(tx.Recipient()) == Compact(address)
    {
      InboundCounts(history, address, tx);
      assert tx in ordered <==> tx in multiset(ordered);
      assert tx in inbound <==> tx in multiset(inbound);
    }
  }

  /** And where the entries of its fold come from. */
  lemma SortedEntries(r: Reading, history: seq<RpcTx>, ordered: seq<RpcTx>, address: string)
    requires forall tx :: tx in ordered <==> tx in history && Compact(tx.Recipient()) == Compact(address)
    ensures forall h :: h in Fold(r, ordered) ==> IsMadeInbound(r, history, address, h, Fold(r, ordered)[h])
  {
    forall h | h in Fold(r, ordered)
      ensures IsMadeInbound(r, history, address, h, Fold(r, ordered)[h])
    {
      var i := EntryHasMaker(r, ordered, h);
      assert ordered[i] in ordered;
    }
  }

  datatype SyncError = FetchFailed | HistoryIncomplete | OrderingAmbiguous | NotPersisted

  const SWEEP_TX_PAGE_SIZE := 500
  const SWEEP_TX_MAX_PAGES := 100

  /** A page the sweep asks for cannot be fetched. */
  predicate FetchFails(history: seq<RpcTx>, failing: Option<nat>) {
    failing.Some? && IsAsked(failing.value, |history|, SWEEP_TX_PAGE_SIZE, SWEEP_TX_MAX_PAGES)
  }

  class HandleSyncer {
    const registry: HandleRegistry
    const registryAddress: string
    var lastSweep: int
    var complete: bool

    constructor (registry: HandleRegistry, registryAddress: string)
      ensures this.registry == registry && this.registryAddress == registryAddress && lastSweep == NEVER && !complete
    {
      this.registry, this.registryAddress := registry, registryAddress;
      lastSweep, complete := NEVER, false;
    }

    ghost function Part(history: seq<RpcTx>): seq<RpcTx> {
      Inbound(history, registryAddress)
    }

    /** One sweep against a node holding `history`, whose page `failing` cannot be fetched. `ordered` is what the
        sort makes of the inbound transactions. A sweep that fails before the rebuild leaves the registry as it
        was; one that ends well leaves it equal to the rebuild of the whole inbound history. */
    method Sweep(force: bool, history: seq<RpcTx>, failing: Option<nat>, ordered: seq<RpcTx>, persisted: bool, now: int)
      returns (r: Outcome<(), SyncError>)
      requires HashesDiffer(history) && IsOrderingOf(ordered, Part(history))
      modifies this, registry
      ensures !force && now - old(lastSweep) < SWEEP_COOLDOWN_SECONDS ==>
        r.Ok? && registry.handles == old(registry.handles) && complete == old(complete) && lastSweep == old(lastSweep)
      ensures force || now - old(lastSweep) >= SWEEP_COOLDOWN_SECONDS ==>
        && (r.Ok? <==> complete)
        && (r.Ok? <==> persisted && !FetchFails(history, failing)
                       && |history| < SWEEP_TX_MAX_PAGES * SWEEP_TX_PAGE_SIZE && !IsAmbiguous(registry.reading, Part(history)))
        && (r == Fail(HistoryIncomplete) ==> |history| >= SWEEP_TX_MAX_PAGES * SWEEP_TX_PAGE_SIZE)
        && (r == Fail(OrderingAmbiguous) ==> IsAmbiguous(registry.reading, Part(history)))
        && (r.Fail? && r != Fail(NotPersisted) ==> registry.handles == old(registry.handles))
        && (r.Ok? || r == Fail(NotPersisted) ==>
              && registry.handles == Fold(registry.reading, ordered)
              && |history| < SWEEP_TX_MAX_PAGES * SWEEP_TX_PAGE_SIZE && !IsAmbiguous(registry.reading, Part(history)))
        && lastSweep == (if r.Ok? then now else old(lastSweep))
        && (r.Ok? ==>
              && (forall tx :: tx in ordered <==> tx in history && Compact(tx.Recipient()) == Compact(registryAddress))
              && (forall h :: h in registry.handles ==> IsMadeInbound(registry.reading, history, registryAddress, h, registry.handles[h])))
    {
      if !force && now - lastSweep < SWEEP_COOLDOWN_SECONDS {
        return Ok(());
      }
      SortedMembers(history, ordered, registryAddress);
      SortedEntries(registry.reading, history, ordered, registryAddress);
      SpanIsProduct(SWEEP_TX_MAX_PAGES, SWEEP_TX_PAGE_SIZE);
      var fetched := GetAllTransactionsByAddress(history, SWEEP_TX_PAGE_SIZE, SWEEP_TX_MAX_PAGES, failing);
      if fetched.Fail? {
        complete := false;
        return Fail(FetchFailed);
      }
      if !fetched.value.complete {
        complete := false;
        return Fail(HistoryIncomplete);
      }
      assert fetched.value.txs == history[..|history|] == history;
      var inbound := InboundOnly(fetched.value.txs);
      var ambiguous := RegistryOrderingAmbiguous(registry.reading, inbound);
      if ambiguous {
        complete := false;
        return Fail(OrderingAmbiguous);
      }
      var saved := registry.Rebuild(inbound, ordered, persisted);
      if !saved {
        complete := false;
        return Fail(NotPersisted);
      }
      complete := true;
      lastSweep := now;
      r := Ok(());
    }

    method InboundOnly(txs: seq<RpcTx>) returns (inbound: seq<RpcTx>)
      ensures inbound == Part(txs)
    {
      inbound := [];
      var i := 0;
      while i < |txs|
        invariant 0 <= i <= |txs|
        invariant inbound == Inbound(txs[..i], registryAddress)
      {
        assert txs[..i + 1][..i] == txs[..i];
        if Compact(txs[i].Recipient()) == Compact(registryAddress) {
          inbound := inbound + [txs[i]];
        }
        i := i + 1;
      }
      assert txs[..|txs|] == txs;
    }
  }
}
