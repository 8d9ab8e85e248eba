/** The handle registry object: rebuilding it, looking handles and addresses up (backend/handles_registry.go). */
module HandleRegistries {
  import opened Wrappers
  import opened AddressText
  import opened ChainTypes
  import opened ClaimCodec
  import opened HandleFold

  predicate Earlier(a: HandleClaim, b: HandleClaim) {
    a.blockHeight < b.blockHeight || (a.blockHeight == b.blockHeight && a.txIndex < b.txIndex)
  }

  /** The handles an address holds. */
  function HeldBy(m: Handles, address: string): set<string> {
    set h | h in m && Compact(m[h].address) == Compact(address)
  }

  /** No two entries come from one position. */
  ghost predicate EntriesDiffer(m: Handles) {
    forall g, h :: g in m && h in m && g != h ==> Earlier(m[g], m[h]) || Earlier(m[h], m[g])
  }

  /** A claim of the address, and none of its claims is earlier. */
  ghost predicate IsEarliestOf(m: Handles, address: string, handle: string) {
    handle in HeldBy(m, address) && forall h :: h in HeldBy(m, address) ==> !Earlier(m[h], m[handle])
  }

  class HandleRegistry {
    const reading: Reading
    var handles: Handles

    constructor (reading: Reading, cached: Handles)
      ensures this.reading == reading && handles == cached
    {
      this.reading, handles := reading, cached;
    }

    /** Replaces the registry by the fold of the history in the order the sort produced; `persisted` says whether
        the database took the copy, and is all the caller hears of it. */
    method Rebuild(txs: seq<RpcTx>, ordered: seq<RpcTx>, persisted: bool) returns (ok: bool)
      requires IsOrderingOf(ordered, txs)
      modifies this
      ensures handles == Fold(reading, ordered) && ok == persisted
    {
      var next: Handles := map[];
      var i := 0;
      while i < |ordered|
        invariant 0 <= i <= |ordered|
        invariant next == Fold(reading, ordered[..i])
      {
        var tx := ordered[i];
        assert ordered[..i + 1][..i] == ordered[..i];
        var action := reading.act(tx);
        if action.Some? {
          var handle, signer := action.value.handle, reading.signer(tx);
          if action.value.isRelease {
            if tx.blockNumber >= reading.activation && handle in next && Compact(next[handle].address) == Compact(signer) {
              next := next - {handle};
            }
          } else if handle !in next {
            next := next[handle := HandleClaim(handle, signer, tx.hash, tx.blockNumber, tx.TxIndexOrZero(), tx.timestamp)];
          }
        }
        i := i + 1;
      }
      assert ordered[..|ordered|] == ordered;
      handles := next;
      ok := persisted;
    }

    method Resolve(handle: string) returns (claim: Option<HandleClaim>)
      ensures claim == if handle in handles then Some(handles[handle]) else None
    {
      claim := if handle in handles then Some(handles[handle]) else None;
    }

    /** An earliest claim of the address, in whatever order the map is gone through; none exactly if it has none. */
    method ResolveAddress(address: string) returns (best: Option<HandleClaim>)
      ensures best.None? <==> HeldBy(handles, address) == {}
      ensures best.None? <==> forall h :: h in handles ==> Compact(handles[h].address) != Compact(address)
      ensures best.Some? ==> exists h :: IsEarliestOf(handles, address, h) && handles[h] == best.value
      ensures best.Some? ==>
        && Compact(best.value.address) == Compact(address)
        && forall h :: h in handles && Compact(handles[h].address) == Compact(address) ==>
             || best.value.blockHeight < handles[h].blockHeight
             || (best.value.blockHeight == handles[h].blockHeight && best.value.txIndex <= handles[h].txIndex)
    {
      best := None;
      ghost var winner := "";
      var left := handles.Keys;
      while left != {}
        invariant left <= handles.Keys
        invariant best.None? ==> HeldBy(handles, address) <= left
        invariant best.Some? ==> winner in HeldBy(handles, address) && handles[winner] == best.value
        invariant best.Some? ==> forall h :: h in HeldBy(handles, address) && h !in left ==> !Earlier(handles[h], best.value)
        decreases left
      {
        var handle :| handle in left;
        var claim := handles[handle];
        if Compact(claim.address) == Compact(address) {
          if best.None? || Earlier(claim, best.value) {
            best, winner := Some(claim), handle;
          }
        }
        left := left - {handle};
      }
      assert best.Some? ==> IsEarliestOf(handles, address, winner);
      assert forall h :: h in HeldBy(handles, address) <==> h in handles && Compact(handles[h].address) == Compact(address);
    }
  }

  /** With entries from different positions there is one earliest claim, so the lookup does not depend on the order
      of the map. */
  lemma EarliestIsUnique(m: Handles, address: string, g: string, h: string)
    requires EntriesDiffer(m) && IsEarliestOf(m, address, g) && IsEarliestOf(m, address, h)
    ensures g == h
  {
  }

  /** The transaction at `i` made the entry for a handle. */
  ghost predicate Made(r: Reading, m: Handles, txs: seq<RpcTx>, handle: string, i: nat)
    requires handle in m
  {
    i < |txs| && r.Claims(txs[i], handle) && m[handle] == ClaimOf(r, txs[i], handle)
  }

  /** Each entry was made by some transaction of the history. */
  lemma EntryHasMaker(r: Reading, txs: seq<RpcTx>, handle: string) returns (i: nat)
    requires handle in Fold(r, txs)
    ensures Made(r, Fold(r, txs), txs, handle, i)
  {
    assert txs[..|txs|] == txs;
    FoldFindsHolder(r, txs, handle, |txs|);
    i :| Holds(r, txs, handle, i, |txs|);
  }

  lemma MakersDiffer(r: Reading, m: Handles, txs: seq<RpcTx>, g: string, h: string, i: nat, j: nat)
    requires g in m && h in m && g != h && Made(r, m, txs, g, i) && Made(r, m, txs, h, j) && PositionsDiffer(Acting(r, txs))
    ensures Earlier(m[g], m[h]) || Earlier(m[h], m[g])
  {
    assert txs[i] in Acting(r, txs) && txs[j] in Acting(r, txs);
    assert Before(txs[i], txs[j]) || Before(txs[j], txs[i]);
  }

  /** A registry rebuilt from a history whose order is known has entries from different positions. */
  lemma RebuiltEntriesDiffer(r: Reading, txs: seq<RpcTx>, ordered: seq<RpcTx>)
    requires !IsAmbiguous(r, txs) && IndexesUnique(Acting(r, txs)) && IsOrderingOf(ordered, txs)
    ensures EntriesDiffer(Fold(r, ordered))
  {
    UnambiguousOrders(r, txs);
    OrderingActs(r, ordered, txs);
    var m := Fold(r, ordered);
    forall g, h | g in m && h in m && g != h
      ensures Earlier(m[g], m[h]) || Earlier(m[h], m[g])
    {
      var i := EntryHasMaker(r, ordered, g);
      var j := EntryHasMaker(r, ordered, h);
      MakersDiffer(r, m, ordered, g, h, i, j);
    }
  }
}
