/** The client's own resolution of the registry, and its agreement with the backend
    (packages/profile-client/src/registry.ts, packages/profile-client/src/rpc.ts). */
module ProfileClient {
  import opened Wrappers
  import opened AddressText
  import opened ChainTypes
  import opened ClaimCodec
  import opened Grouping
  import opened HandleFold
  import opened HandleRegistries
  import opened HistoryPaging

  /** A transaction as the client keeps it; a missing index is NaN there, None here. */
  datatype RegistryTx = RegistryTx(hash: string, sender: string, data: string, blockHeight: nat, txIndex: Option<nat>, fromType: int)

  datatype ResolvedClaim = ResolvedClaim(handle: string, address: string, txHash: string, blockHeight: nat, txIndex: nat)

  type Registry = map<string, ResolvedClaim>

  /** How the client reads: its parser, its owner lookup ("" when it finds none), and its activation height, which
      is infinite unless given. */
  datatype ClientReading = ClientReading(parse: string -> Option<Action>, owner: string -> string, activation: Option<nat>)

  function FromRpc(tx: RpcTx): RegistryTx {
    RegistryTx(tx.hash, tx.Sender(), tx.Data(), tx.blockNumber, tx.transactionIndex, tx.fromType)
  }

  function FromRpcs(txs: seq<RpcTx>): seq<RegistryTx> {
    if |txs| == 0 then [] else FromRpcs(txs[..|txs| - 1]) + [FromRpc(txs[|txs| - 1])]
  }

  /** A missing index becomes zero. */
  function Coerced(tx: RegistryTx): RegistryTx {
    if tx.txIndex.None? then tx.(txIndex := Some(0)) else tx
  }

  function IndexOf(tx: RegistryTx): nat {
    match tx.txIndex case None => 0 case Some(i) => i
  }

  function Claimant(c: ClientReading, tx: RegistryTx): string {
    if tx.fromType != HTLC || c.owner(tx.sender) == "" then tx.sender else c.owner(tx.sender)
  }

  function Step(c: ClientReading, m: Registry, tx: RegistryTx): Registry {
    match c.parse(tx.data)
    case None => m
    case Some(a) =>
      var signer := Claimant(c, tx);
      if a.isRelease then
        if c.activation.None? || tx.blockHeight < c.activation.value then m
        else if a.handle in m && Compact(m[a.handle].address) == Compact(signer) then m - {a.handle}
        else m
      else if a.handle in m then m
      else m[a.handle := ResolvedClaim(a.handle, signer, tx.hash, tx.blockHeight, IndexOf(tx))]
  }

  function Resolved(c: ClientReading, txs: seq<RegistryTx>): Registry {
    if |txs| == 0 then map[] else Step(c, Resolved(c, txs[..|txs| - 1]), txs[|txs| - 1])
  }

  // ---- As the client computes it ----

  /** Fetches every page, or gives up: succeeds exactly when the history is shorter than the pages can hold. */
  method FetchAllTransactionsByAddress(history: seq<RpcTx>, pageSize: nat, maxPages: nat) returns (r: Option<seq<RpcTx>>)
    requires HashesDiffer(history) && pageSize > 0
    ensures r == if |history| < Span(maxPages, pageSize) then Some(history) else None
  {
    var all: seq<RpcTx>, startAt: Option<string> := [], None;
    var page := 0;
    while page < maxPages
      invariant 0 <= page <= maxPages
      invariant |all| == Span(page, pageSize) && IsPrefix(history, all, startAt)
    {
      var short;
      all, short, startAt := FetchPage(history, pageSize, all, startAt);
      if short {
        SpanGrows(page + 1, maxPages, pageSize);
        return Some(all);
      }
      page := page + 1;
    }
    r := None;
  }

  /** Overwrites the missing indexes in place. */
  method CoerceIndexes(txs: array<RegistryTx>)
    modifies txs
    ensures forall i :: 0 <= i < txs.Length ==> txs[i] == Coerced(old(txs[i]))
  {
    var i := 0;
    while i < txs.Length
      invariant 0 <= i <= txs.Length
      invariant forall k :: 0 <= k < i ==> txs[k] == Coerced(old(txs[k]))
      invariant forall k :: i <= k < txs.Length ==> txs[k] == old(txs[k])
    {
      if txs[i].txIndex.None? {
        txs[i] := txs[i].(txIndex := Some(0));
      }
      i := i + 1;
    }
  }

  /** Goes through the sorted transactions, looking each contract's owner up once; the cache never shows. */
  method ResolveHandleRegistry(c: ClientReading, ordered: seq<RegistryTx>) returns (registry: Registry)
    ensures registry == Resolved(c, ordered)
  {
    registry := map[];
    var ownerCache: map<string, string> := map[];
    var i := 0;
    while i < |ordered|
      invariant 0 <= i <= |ordered|
      invariant forall k :: k in ownerCache ==> ownerCache[k] == c.owner(k)
      invariant registry == Resolved(c, ordered[..i])
    {
      var tx := ordered[i];
      assert ordered[..i + 1][..i] == ordered[..i];
      var action := c.parse(tx.data);
      if action.Some? {
        var signer := tx.sender;
        if tx.fromType == HTLC {
          if tx.sender !in ownerCache {
            ownerCache := ownerCache[tx.sender := c.owner(tx.sender)];
          }
          signer := if ownerCache[tx.sender] != "" then ownerCache[tx.sender] else tx.sender;
        }
        var handle := action.value.handle;
        if action.value.isRelease {
          if c.activation.Some? && tx.blockHeight >= c.activation.value {
            if handle in registry && Compact(registry[handle].address) == Compact(signer) {
              registry := registry - {handle};
            }
          }
        } else if handle !in registry {
          registry := registry[handle := ResolvedClaim(handle, signer, tx.hash, tx.blockHeight, IndexOf(tx))];
        }
      }
      i := i + 1;
    }
    assert ordered[..|ordered|] == ordered;
  }

  // ---- Agreement with the backend ----

  /** The backend's reading with the same parser, owner lookup and activation height. */
  function SameReading(c: ClientReading): Reading
    requires c.activation.Some?
  {
    Reading((tx: RpcTx) => c.parse(tx.Data()), (tx: RpcTx) => Normalize(ClaimantAddress(tx, c.owner)), c.activation.value)
  }

  /** Every handle has the same winning transaction and the same owner, up to spacing and case. */
  ghost predicate Agree(backend: Handles, client: Registry) {
    && backend.Keys == client.Keys
    && forall h :: h in backend ==>
         && backend[h].txHash == client[h].txHash && backend[h].blockHeight == client[h].blockHeight
         && backend[h].txIndex == client[h].txIndex && Compact(backend[h].address) == Compact(client[h].address)
  }

  lemma ReadingsAgree(c: ClientReading, tx: RpcTx)
    requires c.activation.Some?
    ensures SameReading(c).act(tx) == c.parse(FromRpc(tx).data)
    ensures Compact(SameReading(c).signer(tx)) == Compact(Claimant(c, FromRpc(tx)))
  {
    CompactNormalize(ClaimantAddress(tx, c.owner));
  }

  lemma StepsAgree(c: ClientReading, backend: Handles, client: Registry, tx: RpcTx)
    requires c.activation.Some? && Agree(backend, client)
    ensures Agree(Apply(SameReading(c), backend, tx), Step(c, client, FromRpc(tx)))
  {
    ReadingsAgree(c, tx);
  }

  /** Overwriting the missing indexes changes nothing but the sort key. */
  lemma {:induction false} CoercionIsHarmless(c: ClientReading, txs: seq<RegistryTx>, coerced: seq<RegistryTx>)
    requires |coerced| == |txs| && forall i :: 0 <= i < |txs| ==> coerced[i] == Coerced(txs[i])
    ensures Resolved(c, coerced) == Resolved(c, txs)
  {
    if |txs| > 0 {
      CoercionIsHarmless(c, txs[..|txs| - 1], coerced[..|txs| - 1]);
    }
  }

  lemma {:induction false} FoldsAgree(c: ClientReading, txs: seq<RpcTx>)
    requires c.activation.Some?
    ensures Agree(Fold(SameReading(c), txs), Resolved(c, FromRpcs(txs)))
  {
    if |txs| > 0 {
      var init, last := txs[..|txs| - 1], txs[|txs| - 1];
      FoldsAgree(c, init);
      StepsAgree(c, Fold(SameReading(c), init), Resolved(c, FromRpcs(init)), last);
      assert FromRpcs(txs)[..|FromRpcs(init)|] == FromRpcs(init);
    }
  }

  lemma NoHeightStep(c: ClientReading, m: Registry, tx: RegistryTx, height: nat)
    requires c.activation.None? && tx.blockHeight < height
    ensures Step(c, m, tx) == Step(c.(activation := Some(height)), m, tx)
  {
  }

  /** Without an activation height no release counts, as if it lay above every block. */
  lemma {:induction false} NoHeightIsNever(c: ClientReading, txs: seq<RegistryTx>, height: nat)
    requires c.activation.None? && forall i :: 0 <= i < |txs| ==> txs[i].blockHeight < height
    ensures Resolved(c, txs) == Resolved(c.(activation := Some(height)), txs)
  {
    if |txs| > 0 {
      NoHeightIsNever(c, txs[..|txs| - 1], height);
      NoHeightStep(c, Resolved(c, txs[..|txs| - 1]), txs[|txs| - 1], height);
    }
  }

  /** So whoever claims a handle first keeps it. */
  lemma {:induction false} NoHeightKeeps(c: ClientReading, txs: seq<RegistryTx>, more: seq<RegistryTx>, handle: string)
    requires c.activation.None? && handle in Resolved(c, txs)
    ensures handle in Resolved(c, txs + more) && Resolved(c, txs + more)[handle] == Resolved(c, txs)[handle]
  {
    if |more| == 0 {
      assert txs + more == txs;
    } else {
      NoHeightKeeps(c, txs, more[..|more| - 1], handle);
      assert (txs + more)[..|txs + more| - 1] == txs + more[..|more| - 1];
    }
  }

  /** All transactions of a block are grouped, acting or not. */
  const BLOCK: RegistryTx -> Option<nat> := (tx: RegistryTx) => Some(tx.blockHeight)

  const NO_INDEX: RegistryTx -> bool := (tx: RegistryTx) => tx.txIndex.None?

  /** The client's check: two transactions of one block, one of them without an index. */
  ghost predicate IsClientAmbiguous(txs: seq<RegistryTx>) {
    Clashes(BLOCK, NO_INDEX, txs)
  }

  lemma ClientClash(txs: seq<RegistryTx>)
    ensures IsClientAmbiguous(txs) <==> exists i, j ::
      0 <= i < j < |txs| && txs[i].blockHeight == txs[j].blockHeight && (txs[i].txIndex.None? || txs[j].txIndex.None?)
  {
    forall i, j | 0 <= i < j < |txs|
      ensures Grouping.Clash(BLOCK, NO_INDEX, txs[i], txs[j]) <==>
        txs[i].blockHeight == txs[j].blockHeight && (txs[i].txIndex.None? || txs[j].txIndex.None?)
    {
    }
  }

  method RegistryOrderingAmbiguous(txs: seq<RegistryTx>) returns (ambiguous: bool)
    ensures ambiguous <==> IsClientAmbiguous(txs)
    ensures ambiguous <==> exists i, j ::
      0 <= i < j < |txs| && txs[i].blockHeight == txs[j].blockHeight && (txs[i].txIndex.None? || txs[j].txIndex.None?)
  {
    var byBlock: map<nat, seq<RegistryTx>> := map[];
    var i := 0;
    while i < |txs|
      invariant 0 <= i <= |txs|
      invariant IsGrouped(byBlock, BLOCK, txs[..i])
    {
      var tx := txs[i];
      assert txs[..i + 1] == txs[..i] + [tx];
      GroupsOneMore(byBlock, BLOCK, txs[..i], tx);
      byBlock := byBlock[tx.blockHeight := At(byBlock, tx.blockHeight) + [tx]];
      i := i + 1;
    }
    assert txs[..|txs|] == txs;
    ambiguous := AnyBadGroup(byBlock, NO_INDEX);
    BadGroupsClash(byBlock, BLOCK, NO_INDEX, txs);
    ClientClash(txs);
  }

  lemma {:induction false} FromRpcsAt(txs: seq<RpcTx>)
    ensures |FromRpcs(txs)| == |txs|
    ensures forall i :: 0 <= i < |txs| ==> FromRpcs(txs)[i] == FromRpc(txs[i])
  {
    if |txs| > 0 {
      FromRpcsAt(txs[..|txs| - 1]);
    }
  }

  lemma ClientIsStricter(r: Reading, txs: seq<RpcTx>)
    requires IsAmbiguous(r, txs)
    ensures IsClientAmbiguous(FromRpcs(txs))
  {
    FromRpcsAt(txs);
    var i, j :| 0 <= i < j < |txs| && HandleFold.Clash(r, txs[i], txs[j]);
    assert Grouping.Clash(BLOCK, NO_INDEX, FromRpcs(txs)[i], FromRpcs(txs)[j]);
  }

  /** Whatever list the client accepts the backend accepts, and both then agree on every handle, whichever way
      their sorts treat equal positions. */
  lemma PortAgrees(c: ClientReading, inbound: seq<RpcTx>, backendOrder: seq<RpcTx>, clientOrder: seq<RpcTx>)
    requires c.activation.Some? && !IsClientAmbiguous(FromRpcs(inbound)) && IndexesUnique(Acting(SameReading(c), inbound))
    requires IsOrderingOf(backendOrder, inbound) && IsOrderingOf(clientOrder, inbound)
    ensures !IsAmbiguous(SameReading(c), inbound)
    ensures Agree(Fold(SameReading(c), backendOrder), Resolved(c, FromRpcs(clientOrder)))
  {
    if IsAmbiguous(SameReading(c), inbound) {
      ClientIsStricter(SameReading(c), inbound);
    }
    RebuildIsOfTheSet(SameReading(c), inbound, inbound, backendOrder, clientOrder);
    FoldsAgree(c, clientOrder);
  }

  // ---- Reverse lookup ----

  function ClientHeldBy(registry: Registry, address: string): set<string> {
    set h | h in registry && Compact(registry[h].address) == Compact(address)
  }

  predicate ClientEarlier(a: ResolvedClaim, b: ResolvedClaim) {
    a.blockHeight < b.blockHeight || (a.blockHeight == b.blockHeight && a.txIndex < b.txIndex)
  }

  ghost predicate IsClientEarliestOf(registry: Registry, address: string, handle: string) {
    handle in ClientHeldBy(registry, address)
    && forall h :: h in ClientHeldBy(registry, address) ==> !ClientEarlier(registry[h], registry[handle])
  }

  /** An earliest claim of the address, null exactly if it has none. */
  method ResolveHandleByAddress(registry: Registry, address: string) returns (best: Option<ResolvedClaim>)
    ensures best.None? <==> ClientHeldBy(registry, address) == {}
    ensures best.None? <==> forall h :: h in registry ==> Compact(registry[h].address) != Compact(address)
    ensures best.Some? ==> exists h :: IsClientEarliestOf(registry, address, h) && registry[h] == best.value
    ensures best.Some? ==>
      && Compact(best.value.address) == Compact(address)
      && forall h :: h in registry && Compact(registry[h].address) == Compact(address) ==>
           || best.value.blockHeight < registry[h].blockHeight
           || (best.value.blockHeight == registry[h].blockHeight && best.value.txIndex <= registry[h].txIndex)
  {
    best := None;
    ghost var winner := "";
    var left := registry.Keys;
    while left != {}
      invariant left <= registry.Keys
      invariant best.None? ==> ClientHeldBy(registry, address) <= left
      invariant best.Some? ==> winner in ClientHeldBy(registry, address) && registry[winner] == best.value
      invariant best.Some? ==> forall h :: h in ClientHeldBy(registry, address) && h !in left ==> !ClientEarlier(registry[h], best.value)
      decreases left
    {
      var handle :| handle in left;
      var claim := registry[handle];
      if Compact(claim.address) == Compact(address) {
        if best.None? || ClientEarlier(claim, best.value) {
          best, winner := Some(claim), handle;
        }
      }
      left := left - {handle};
    }
    assert best.Some? ==> IsClientEarliestOf(registry, address, winner);
    assert forall h :: h in ClientHeldBy(registry, address) <==> h in registry && Compact(registry[h].address) == Compact(address);
  }

  /** Agreeing registries have the same earliest handle for every address. */
  lemma LookupsAgree(backend: Handles, client: Registry, address: string, handle: string)
    requires Agree(backend, client)
    ensures IsEarliestOf(backend, address, handle) <==> IsClientEarliestOf(client, address, handle)
  {
    assert HeldBy(backend, address) == ClientHeldBy(client, address);
  }
}
