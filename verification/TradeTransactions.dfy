/** The release and claim transactions the handlers accept for a trade, and what the registry makes of them
    (backend/marketplace_handlers.go, backend/handles_registry.go). */
module TradeTransactions {
  import opened Wrappers
  import opened AddressText
  import opened Hex
  import opened ChainTypes
  import opened ClaimCodec
  import opened HandleFold
  import opened HandleSyncing
  import opened Trades

  /** `verifyReleaseTx`. */
  predicate IsReleaseOf(tx: RpcTx, terms: Terms, registryAddress: string) {
    && Compact(Normalize(tx.Sender())) == Compact(terms.seller)
    && Compact(tx.Recipient()) == Compact(registryAddress)
    && ParseClaimData(tx.Data()) == Some(Action(terms.handle, true))
  }

  /** `verifyClaimTx`. */
  predicate IsClaimOf(tx: RpcTx, terms: Terms, registryAddress: string) {
    && Compact(Normalize(tx.Sender())) == Compact(terms.buyer)
    && Compact(tx.Recipient()) == Compact(registryAddress)
    && ParseClaimData(tx.Data()) == Some(Action(terms.handle, false))
  }

  /** The wallet the registry attributes a transaction to. */
  predicate SignedFor(tx: RpcTx, creator: string -> string, address: string) {
    Compact(ClaimantAddress(tx, creator)) == Compact(address)
  }

  /** A transaction that does not come from a swap contract is attributed to the sender the handlers checked. */
  lemma CheckedSenderCounts(tx: RpcTx, creator: string -> string, address: string)
    requires Compact(Normalize(tx.Sender())) == Compact(address) && tx.fromType != HTLC
    ensures SignedFor(tx, creator, address)
  {
    CompactNormalize(tx.Sender());
  }

  /** The handlers accept exactly what the party sent and a registry sweep keeps and reads as a release, or a claim, of
      the trade's handle. */
  lemma AcceptedIff(tx: RpcTx, terms: Terms, registryAddress: string, creator: string -> string, activation: nat)
    ensures var act := BackendReading(creator, activation).act;
      && (IsReleaseOf(tx, terms, registryAddress) <==>
            Compact(tx.Sender()) == Compact(terms.seller) && Inbound([tx], registryAddress) == [tx] && act(tx) == Some(Action(terms.handle, true)))
      && (IsClaimOf(tx, terms, registryAddress) <==>
            Compact(tx.Sender()) == Compact(terms.buyer) && Inbound([tx], registryAddress) == [tx] && act(tx) == Some(Action(terms.handle, false)))
  {
    CompactNormalize(tx.Sender());
    InboundOne(tx, registryAddress);
  }

  // ---- Whether the handover works ----

  /** What the chain holds for a handle from the seller's claim to the buyer's. */
  function Handover(before: seq<RpcTx>, release: RpcTx, between: seq<RpcTx>, claim: RpcTx): seq<RpcTx> {
    before + [release] + between + [claim]
  }

  /** The release counts, or the seller signed another one that does. */
  ghost predicate SellerLetsGo(r: Reading, release: RpcTx, between: seq<RpcTx>, terms: Terms) {
    || release.blockNumber >= r.activation
    || exists k :: 0 <= k < |between| && r.Releases(between[k], terms.handle) && Compact(r.signer(between[k])) == Compact(terms.seller)
  }

  /** No claim made between the two transactions, except the buyer's own, has the handle when the buyer claims it. */
  ghost predicate NobodyForestalls(r: Reading, before: seq<RpcTx>, release: RpcTx, between: seq<RpcTx>, claim: RpcTx, terms: Terms) {
    var txs, n := Handover(before, release, between, claim), |before| + 1 + |between|;
    forall i :: |before| < i < n && Holds(r, txs, terms.handle, i, n) ==> Compact(r.signer(txs[i])) == Compact(terms.buyer)
  }

  /** The registry credits an accepted transaction to the party the handlers checked. */
  lemma AcceptedActs(creator: string -> string, activation: nat, tx: RpcTx, party: string)
    requires Compact(Normalize(tx.Sender())) == Compact(party) && tx.fromType != HTLC
    ensures var r := BackendReading(creator, activation); Compact(r.signer(tx)) == Compact(party)
  {
    CompactNormalize(ClaimantAddress(tx, creator));
    CheckedSenderCounts(tx, creator, party);
  }

  /** A claim leaves its signer the owner exactly if nobody else held the handle before it. */
  lemma ClaimTakesIff(r: Reading, txs: seq<RpcTx>, n: nat, claim: RpcTx, handle: string, address: string)
    requires n <= |txs| && r.Claims(claim, handle) && Compact(r.signer(claim)) == Compact(address)
    ensures Owns(Apply(r, Fold(r, txs[..n]), claim), handle, address) <==>
      forall i :: 0 <= i < n && Holds(r, txs, handle, i, n) ==> Compact(r.signer(txs[i])) == Compact(address)
  {
    FoldFindsHolder(r, txs, handle, n);
    if i: nat :| Holds(r, txs, handle, i, n) {
      forall j: nat | Holds(r, txs, handle, j, n)
        ensures j == i
      {
        OneHolder(r, txs, handle, i, j, n);
      }
    }
  }

  lemma GivenUpStays(r: Reading, txs: seq<RpcTx>, handle: string, j: nat, b: nat, n: nat)
    requires j < b <= n <= |txs| && !GivenUp(r, txs, handle, j, n)
    ensures !GivenUp(r, txs, handle, j, b)
  {
  }

  /** Who held a handle and did not sign it away still holds it; nobody else who claimed before does. */
  lemma HeldThrough(r: Reading, txs: seq<RpcTx>, handle: string, i: nat, b: nat, n: nat)
    requires b <= n <= |txs| && Holds(r, txs, handle, i, b)
    ensures Holds(r, txs, handle, i, n) <==> forall k :: b <= k < n ==> !SignedAway(r, txs, handle, i, k)
    ensures forall j :: 0 <= j < b && Holds(r, txs, handle, j, n) ==> j == i
  {
    HolderStays(r, txs, handle, i, b, n);
    forall k | b <= k < n && SignedAway(r, txs, handle, i, k)
      ensures GivenUp(r, txs, handle, i, n)
    {
    }
    forall j | 0 <= j < b && Holds(r, txs, handle, j, n)
      ensures j == i
    {
      GivenUpStays(r, txs, handle, j, b, n);
      OneHolder(r, txs, handle, i, j, b);
    }
  }

  /** An accepted release and an accepted claim, whatever the chain holds before and between them, make the buyer the
      owner of the seller's handle exactly if the release is high enough to count, or the seller signed another that
      does, and nobody else's claim in between has the handle. */
  lemma HandoverWorksIff(creator: string -> string, activation: nat, before: seq<RpcTx>, release: RpcTx, between: seq<RpcTx>,
                         claim: RpcTx, terms: Terms, registryAddress: string)
    requires var r := BackendReading(creator, activation); Owns(Fold(r, before), terms.handle, terms.seller)
    requires Compact(terms.buyer) != Compact(terms.seller) && release.fromType != HTLC && claim.fromType != HTLC
    requires IsReleaseOf(release, terms, registryAddress) && IsClaimOf(claim, terms, registryAddress)
    ensures var r := BackendReading(creator, activation);
      Owns(Fold(r, Handover(before, release, between, claim)), terms.handle, terms.buyer) <==>
        SellerLetsGo(r, release, between, terms) && NobodyForestalls(r, before, release, between, claim, terms)
  {
    var r := BackendReading(creator, activation);
    AcceptedActs(creator, activation, release, terms.seller);
    AcceptedActs(creator, activation, claim, terms.buyer);
    HandoverOf(r, before, release, between, claim, terms);
  }

  lemma HandoverShape(r: Reading, before: seq<RpcTx>, release: RpcTx, between: seq<RpcTx>, claim: RpcTx)
    ensures var txs, b, n := Handover(before, release, between, claim), |before|, |before| + 1 + |between|;
      && |txs| == n + 1 && txs[..b] == before && txs[b] == release && txs[b + 1..n] == between
      && Fold(r, txs) == Apply(r, Fold(r, txs[..n]), claim)
  {
    var txs, n := Handover(before, release, between, claim), |before| + 1 + |between|;
    assert txs[..|txs| - 1] == txs[..n] && txs[n] == claim;
  }

  lemma HandoverOf(r: Reading, before: seq<RpcTx>, release: RpcTx, between: seq<RpcTx>, claim: RpcTx, terms: Terms)
    requires Owns(Fold(r, before), terms.handle, terms.seller) && Compact(terms.buyer) != Compact(terms.seller)
    requires r.act(release) == Some(Action(terms.handle, true)) && Compact(r.signer(release)) == Compact(terms.seller)
    requires r.Claims(claim, terms.handle) && Compact(r.signer(claim)) == Compact(terms.buyer)
    ensures Owns(Fold(r, Handover(before, release, between, claim)), terms.handle, terms.buyer) <==>
      SellerLetsGo(r, release, between, terms) && NobodyForestalls(r, before, release, between, claim, terms)
  {
    var txs, b, n := Handover(before, release, between, claim), |before|, |before| + 1 + |between|;
    HandoverShape(r, before, release, between, claim);
    FoldFindsHolder(r, txs, terms.handle, b);
    var i: nat :| Holds(r, txs, terms.handle, i, b);
    HeldThrough(r, txs, terms.handle, i, b, n);
    ClaimTakesIff(r, txs, n, claim, terms.handle, terms.buyer);
    LetsGoIff(r, txs, i, b, n, release, between, terms);
    assert !r.Claims(txs[b], terms.handle);
  }

  lemma LetsGoIff(r: Reading, txs: seq<RpcTx>, i: nat, b: nat, n: nat, release: RpcTx, between: seq<RpcTx>, terms: Terms)
    requires i < b < n <= |txs| && n == b + 1 + |between| && txs[b] == release && txs[b + 1..n] == between
    requires r.act(release) == Some(Action(terms.handle, true)) && Compact(r.signer(release)) == Compact(terms.seller)
    requires Compact(r.signer(txs[i])) == Compact(terms.seller)
    ensures SellerLetsGo(r, release, between, terms) <==> exists k :: b <= k < n && SignedAway(r, txs, terms.handle, i, k)
  {
    if exists k :: b <= k < n && SignedAway(r, txs, terms.handle, i, k) {
      var k :| b <= k < n && SignedAway(r, txs, terms.handle, i, k);
      assert k == b || txs[k] == between[k - b - 1];
    }
    if SellerLetsGo(r, release, between, terms) {
      if release.blockNumber >= r.activation {
        assert SignedAway(r, txs, terms.handle, i, b);
      } else {
        var k :| 0 <= k < |between| && r.Releases(between[k], terms.handle) && Compact(r.signer(between[k])) == Compact(terms.seller);
        assert txs[b + 1 + k] == between[k];
        assert SignedAway(r, txs, terms.handle, i, b + 1 + k);
      }
    }
  }

  // ---- When it does not ----

  /** A transaction of an address, not sent by a swap contract, that claims or releases a handle. */
  lemma Written(creator: string -> string, activation: nat, hash: string, from: string, to: string, a: Action, block: nat) returns (tx: RpcTx)
    requires IsValidHandle(a.handle)
    ensures Compact(Normalize(tx.Sender())) == Compact(from) && tx.Recipient() == to && ParseClaimData(tx.Data()) == Some(a)
    ensures tx.hash == hash && tx.blockNumber == block && tx.transactionIndex == Some(0) && tx.fromType != HTLC
    ensures var r := BackendReading(creator, activation); r.act(tx) == Some(a) && Compact(r.signer(tx)) == Compact(from)
  {
    tx := Sent(hash, from, to, a, block, 0);
    CompactNormalize(from);
    AcceptedActs(creator, activation, tx, from);
  }

  lemma Sent(hash: string, from: string, to: string, a: Action, block: nat, fromType: int) returns (tx: RpcTx)
    requires IsValidHandle(a.handle)
    ensures tx.Sender() == from && tx.Recipient() == to && ParseClaimData(tx.Data()) == Some(a)
    ensures tx.hash == hash && tx.blockNumber == block && tx.transactionIndex == Some(0) && tx.fromType == fromType
  {
    PayloadBytes(a);
    BinaryRoundTrip(a, "");
    assert Payload(a) + "" == Payload(a);
    var data := Encode(Payload(a));
    tx := RpcTx(hash, from, from, to, to, data, data, 0, block, Some(0), 0, fromType, 0);
  }

  lemma ThreeInOrder(r: Reading, a: RpcTx, b: RpcTx, c: RpcTx)
    requires a.blockNumber < b.blockNumber < c.blockNumber
    ensures IsSorted([a, b, c]) && !IsAmbiguous(r, [a, b, c])
  {
  }

  lemma FourInOrder(r: Reading, a: RpcTx, b: RpcTx, c: RpcTx, d: RpcTx)
    requires a.blockNumber < b.blockNumber < c.blockNumber < d.blockNumber
    ensures IsSorted([a, b, c, d]) && !IsAmbiguous(r, [a, b, c, d])
  {
  }

  /** The failing input: a third party's claim in the block between an accepted release and an accepted claim. Every
      check passes and the release counts, and still the third party owns the handle. */
  lemma BuyerIsForestalled(creator: string -> string, activation: nat, terms: Terms, other: string, registryAddress: string)
    returns (first: RpcTx, release: RpcTx, theirs: RpcTx, claim: RpcTx)
    requires IsValidHandle(terms.handle) && Compact(terms.seller) != Compact(other) && Compact(terms.buyer) != Compact(other)
    ensures IsReleaseOf(release, terms, registryAddress) && IsClaimOf(claim, terms, registryAddress)
    ensures release.fromType != HTLC && claim.fromType != HTLC && release.blockNumber >= activation
    ensures IsSorted([first, release, theirs, claim]) && !IsAmbiguous(BackendReading(creator, activation), [first, release, theirs, claim])
    ensures var r := BackendReading(creator, activation);
      && Owns(Fold(r, [first]), terms.handle, terms.seller)
      && Owns(Fold(r, Handover([first], release, [theirs], claim)), terms.handle, other)
      && !Owns(Fold(r, Handover([first], release, [theirs], claim)), terms.handle, terms.buyer)
  {
    var r := BackendReading(creator, activation);
    first := Written(creator, activation, "1", terms.seller, registryAddress, Action(terms.handle, false), activation);
    release := Written(creator, activation, "2", terms.seller, registryAddress, Action(terms.handle, true), activation + 1);
    theirs := Written(creator, activation, "3", other, registryAddress, Action(terms.handle, false), activation + 2);
    claim := Written(creator, activation, "4", terms.buyer, registryAddress, Action(terms.handle, false), activation + 3);
    FourInOrder(r, first, release, theirs, claim);
    FourActions(r, first, release, theirs, claim, terms.handle);
  }

  lemma FourActions(r: Reading, first: RpcTx, release: RpcTx, theirs: RpcTx, claim: RpcTx, handle: string)
    requires r.Claims(first, handle) && r.Releases(release, handle) && r.SameSigner(release, first)
    requires r.Claims(theirs, handle) && r.Claims(claim, handle)
    ensures Fold(r, [first]) == map[handle := ClaimOf(r, first, handle)]
    ensures Fold(r, Handover([first], release, [theirs], claim)) == map[handle := ClaimOf(r, theirs, handle)]
  {
    var b, c, d := [first, release], [first, release, theirs], [first, release, theirs, claim];
    assert c[..2] == b && d[..3] == c && Handover([first], release, [theirs], claim) == d;
    TwoActions(r, first, release, handle);
    assert Fold(r, c) == Apply(r, Fold(r, b), theirs);
    assert Fold(r, d) == Apply(r, Fold(r, c), claim);
  }

  /** The handlers' look at the sender and the registry's look behind it name the same parties exactly for transactions
      that no swap contract made, or one whose creator is unknown or the contract itself. */
  lemma ChecksAgreeIff(creator: string -> string, activation: nat, tx: RpcTx)
    ensures var r := BackendReading(creator, activation);
      (forall party: string :: Compact(Normalize(tx.Sender())) == Compact(party) <==> Compact(r.signer(tx)) == Compact(party)) <==>
        tx.fromType != HTLC || creator(tx.Sender()) == "" || Compact(creator(tx.Sender())) == Compact(tx.Sender())
  {
    CompactNormalize(tx.Sender());
    CompactNormalize(ClaimantAddress(tx, creator));
  }

  /** An input on which they differ: the seller's release, made through a swap contract. The registry counts it and
      takes the handle from the seller; the release handler refuses it. */
  lemma SwapReleaseIsRefused(contract: string, activation: nat, terms: Terms, registryAddress: string)
    returns (creator: string -> string, first: RpcTx, release: RpcTx)
    requires IsValidHandle(terms.handle) && Compact(contract) != Compact(terms.seller) && terms.seller != ""
    ensures creator(contract) == terms.seller && release.Sender() == contract && release.fromType == HTLC
    ensures !IsReleaseOf(release, terms, registryAddress)
    ensures var r := BackendReading(creator, activation);
      Owns(Fold(r, [first]), terms.handle, terms.seller) && terms.handle !in Fold(r, [first, release])
  {
    creator := (address: string) => if address == contract then terms.seller else "";
    first := Written(creator, activation, "1", terms.seller, registryAddress, Action(terms.handle, false), activation);
    release := Sent("2", contract, registryAddress, Action(terms.handle, true), activation + 1, HTLC);
    CompactNormalize(contract);
    CompactNormalize(terms.seller);
    TwoActions(BackendReading(creator, activation), first, release, terms.handle);
  }

  lemma TwoActions(r: Reading, first: RpcTx, release: RpcTx, handle: string)
    requires r.Claims(first, handle) && r.Releases(release, handle) && r.SameSigner(release, first)
    ensures Fold(r, [first]) == map[handle := ClaimOf(r, first, handle)] && Fold(r, [first, release]) == map[]
  {
    var a, b := [first], [first, release];
    assert a[..0] == [] && b[..1] == a;
    assert Fold(r, []) == map[];
    assert Fold(r, a) == Apply(r, map[], first);
    assert Fold(r, b) == Apply(r, Fold(r, a), release);
  }
}
