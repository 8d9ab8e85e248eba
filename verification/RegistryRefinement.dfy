/** A registry sweep that goes through is an event of the escrow protocol (backend/handles_sync.go). */
module RegistryRefinement {
  import opened AddressText
  import opened ChainTypes
  import opened HandleFold
  import opened HandleSyncing
  import opened EscrowSystem

  lemma {:induction false} PlaceOf(txs: seq<RpcTx>, tx: RpcTx) returns (i: nat)
    requires tx in txs
    ensures i < |txs| && txs[i] == tx
    ensures multiset(txs)[tx] >= 2 ==> tx in txs[..i] + txs[i + 1..]
  {
    i :| 0 <= i < |txs| && txs[i] == tx;
    var rest := txs[..i] + txs[i + 1..];
    assert txs == txs[..i] + [tx] + txs[i + 1..];
    assert multiset(txs) == multiset(rest) + multiset{tx};
    assert tx in rest <==> tx in multiset(rest);
  }

  /** Two clashing members of a list clash in every ordering of it. */
  lemma ClashesAnywhere(r: Reading, txs: seq<RpcTx>, a: RpcTx, b: RpcTx)
    requires a in txs && b in txs && Clash(r, a, b) && (a == b ==> multiset(txs)[a] >= 2)
    ensures IsAmbiguous(r, txs)
  {
    var i := PlaceOf(txs, a);
    var j :| 0 <= j < |txs| && txs[j] == b && j != i;
    assert Clash(r, txs[if i < j then i else j], txs[if i < j then j else i]);
  }

  lemma OrderingIsAsClear(r: Reading, ordered: seq<RpcTx>, txs: seq<RpcTx>)
    requires IsOrderingOf(ordered, txs) && !IsAmbiguous(r, txs)
    ensures !IsAmbiguous(r, ordered)
  {
    forall i, j | 0 <= i < j < |ordered|
      ensures !Clash(r, ordered[i], ordered[j])
    {
      var a, b := ordered[i], ordered[j];
      if Clash(r, a, b) {
        assert a in multiset(ordered) && b in multiset(ordered);
        assert a in multiset(txs) && b in multiset(txs);
        if a == b {
          assert ordered == ordered[..i] + [a] + ordered[i + 1..j] + [b] + ordered[j + 1..];
        }
        ClashesAnywhere(r, txs, a, b);
      }
    }
  }

  /** When the fetched history holds what is on the chain for the registry, and nothing that is not on the chain, a
      sweep of it gives the protocol's registry exactly what it gives the registry object. */
  lemma SweepIsEvent(s: System, history: seq<RpcTx>, ordered: seq<RpcTx>)
    requires forall tx :: tx in history ==> tx in s.chain.live
    requires forall tx :: tx in s.chain.live && Compact(tx.Recipient()) == Compact(s.setup.registryAddress) ==> tx in history
    requires IsOrderingOf(ordered, Inbound(history, s.setup.registryAddress))
    requires !IsAmbiguous(s.setup.Rules(), Inbound(history, s.setup.registryAddress))
    ensures Next(s, RegistrySwept(ordered)) == s.(registry := Fold(s.setup.Rules(), ordered))
  {
    SortedMembers(history, ordered, s.setup.registryAddress);
    OrderingIsAsClear(s.setup.Rules(), ordered, Inbound(history, s.setup.registryAddress));
    SweepShape(s, ordered);
  }

  lemma SweepShape(s: System, ordered: seq<RpcTx>)
    requires IsSorted(ordered) && !IsAmbiguous(s.setup.Rules(), ordered)
    requires forall tx :: tx in ordered <==> tx in s.chain.live && Compact(tx.Recipient()) == Compact(s.setup.registryAddress)
    ensures Next(s, RegistrySwept(ordered)) == s.(registry := Fold(s.setup.Rules(), ordered))
  {
  }
}
