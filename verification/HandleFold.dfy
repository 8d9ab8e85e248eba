/** The fold of a transaction history into the handle registry, and what it means to own a handle
    (backend/handles_registry.go). */
module HandleFold {
  import opened Wrappers
  import opened AddressText
  import opened ChainTypes
  import opened ClaimCodec

  /** How a transaction is read: its action, the address behind it, and the height from which releases count. */
  datatype Reading = Reading(act: RpcTx -> Option<Action>, signer: RpcTx -> string, activation: nat)
  {
    predicate Claims(tx: RpcTx, handle: string) {
      act(tx) == Some(Action(handle, false))
    }

    /** A release that counts, whoever signed it. */
    predicate Releases(tx: RpcTx, handle: string) {
      act(tx) == Some(Action(handle, true)) && tx.blockNumber >= activation
    }

    predicate SameSigner(a: RpcTx, b: RpcTx) {
      Compact(signer(a)) == Compact(signer(b))
    }
  }

  type Handles = map<string, HandleClaim>

  const HTLC := 2

  /** `claimantAddress`: a swap contract stands for the wallet that created it, when that is known. */
  function ClaimantAddress(tx: RpcTx, creator: string -> string): string {
    if tx.fromType == HTLC && creator(tx.Sender()) != "" then creator(tx.Sender()) else tx.Sender()
  }

  /** How the backend reads transactions. */
  function BackendReading(creator: string -> string, activation: nat): Reading {
    Reading((tx: RpcTx) => ParseClaimData(tx.Data()), (tx: RpcTx) => Normalize(ClaimantAddress(tx, creator)), activation)
  }

  function ClaimOf(r: Reading, tx: RpcTx, handle: string): HandleClaim {
    HandleClaim(handle, r.signer(tx), tx.hash, tx.blockNumber, tx.TxIndexOrZero(), tx.timestamp)
  }

  function Apply(r: Reading, m: Handles, tx: RpcTx): Handles {
    match r.act(tx)
    case None => m
    case Some(a) =>
      if a.isRelease then
        if tx.blockNumber >= r.activation && a.handle in m && Compact(m[a.handle].address) == Compact(r.signer(tx))
        then m - {a.handle} else m
      else if a.handle in m then m
      else m[a.handle := ClaimOf(r, tx, a.handle)]
  }

  function Fold(r: Reading, txs: seq<RpcTx>): Handles {
    if |txs| == 0 then map[] else Apply(r, Fold(r, txs[..|txs| - 1]), txs[|txs| - 1])
  }

  // ---- Who owns a handle ----

  /** The claim at `j` was given up by its own signer before position `n`. */
  ghost predicate GivenUp(r: Reading, txs: seq<RpcTx>, handle: string, j: nat, n: nat)
    requires j < n <= |txs|
  {
    exists k :: j < k < n && r.Releases(txs[k], handle) && r.SameSigner(txs[k], txs[j])
  }

  /** The claim at `i` took the handle: every claim that took it earlier was given up before. */
  ghost predicate Takes(r: Reading, txs: seq<RpcTx>, handle: string, i: nat)
    requires i < |txs|
    decreases i
  {
    r.Claims(txs[i], handle) && forall j :: 0 <= j < i && Takes(r, txs, handle, j) ==> GivenUp(r, txs, handle, j, i)
  }

  /** After the first `n` transactions the handle is held by the claim at `i`. */
  ghost predicate Holds(r: Reading, txs: seq<RpcTx>, handle: string, i: nat, n: nat)
    requires n <= |txs|
  {
    i < n && Takes(r, txs, handle, i) && !GivenUp(r, txs, handle, i, n)
  }

  /** A claim that a later one took over from has been given up. */
  lemma TakenOver(r: Reading, txs: seq<RpcTx>, handle: string, i: nat, j: nat, n: nat)
    requires i < j < n <= |txs| && Takes(r, txs, handle, i) && Takes(r, txs, handle, j)
    ensures GivenUp(r, txs, handle, i, n)
  {
    var k :| i < k < j && r.Releases(txs[k], handle) && r.SameSigner(txs[k], txs[i]);
  }

  lemma OneHolder(r: Reading, txs: seq<RpcTx>, handle: string, i: nat, j: nat, n: nat)
    requires n <= |txs| && Holds(r, txs, handle, i, n) && Holds(r, txs, handle, j, n)
    ensures i == j
  {
    if i < j {
      TakenOver(r, txs, handle, i, j, n);
    } else if j < i {
      TakenOver(r, txs, handle, j, i, n);
    }
  }

  lemma StillHolds(r: Reading, txs: seq<RpcTx>, handle: string, i: nat, n: nat)
    requires n < |txs| && i < n
    ensures Holds(r, txs, handle, i, n + 1) <==>
      Holds(r, txs, handle, i, n) && !(r.Releases(txs[n], handle) && r.SameSigner(txs[n], txs[i]))
  {
    if GivenUp(r, txs, handle, i, n + 1) {
      var k :| i < k < n + 1 && r.Releases(txs[k], handle) && r.SameSigner(txs[k], txs[i]);
      assert k == n || GivenUp(r, txs, handle, i, n);
    }
    if GivenUp(r, txs, handle, i, n) {
      var k :| i < k < n && r.Releases(txs[k], handle) && r.SameSigner(txs[k], txs[i]);
      assert GivenUp(r, txs, handle, i, n + 1);
    }
    if r.Releases(txs[n], handle) && r.SameSigner(txs[n], txs[i]) {
      assert GivenUp(r, txs, handle, i, n + 1);
    }
  }

  lemma NewHolder(r: Reading, txs: seq<RpcTx>, handle: string, n: nat)
    requires n < |txs|
    ensures Holds(r, txs, handle, n, n + 1) <==> r.Claims(txs[n], handle) && forall j :: 0 <= j < n ==> !Holds(r, txs, handle, j, n)
  {
    if r.Claims(txs[n], handle) && forall j :: 0 <= j < n ==> !Holds(r, txs, handle, j, n) {
      forall j | 0 <= j < n && Takes(r, txs, handle, j)
        ensures GivenUp(r, txs, handle, j, n)
      {
        assert !Holds(r, txs, handle, j, n);
      }
    }
  }

  /** The registry agrees with who holds the handle. */
  ghost predicate Registered(r: Reading, txs: seq<RpcTx>, handle: string, n: nat, m: Handles)
    requires n <= |txs|
  {
    && (handle in m <==> exists i: nat :: Holds(r, txs, handle, i, n))
    && (forall i: nat :: Holds(r, txs, handle, i, n) ==> handle in m && m[handle] == ClaimOf(r, txs[i], handle))
  }

  /** The fold gives a handle to the first claim since the last release that its holder signed. */
  lemma {:induction false} FoldFindsHolder(r: Reading, txs: seq<RpcTx>, handle: string, n: nat)
    requires n <= |txs|
    ensures Registered(r, txs, handle, n, Fold(r, txs[..n]))
  {
    if n > 0 {
      FoldFindsHolder(r, txs, handle, n - 1);
      assert txs[..n][..n - 1] == txs[..n - 1];
      HolderStep(r, txs, handle, n - 1, Fold(r, txs[..n - 1]));
      assert Fold(r, txs[..n]) == Apply(r, Fold(r, txs[..n - 1]), txs[n - 1]);
    }
  }

  lemma HolderStep(r: Reading, txs: seq<RpcTx>, handle: string, n: nat, m: Handles)
    requires n < |txs| && Registered(r, txs, handle, n, m)
    ensures Registered(r, txs, handle, n + 1, Apply(r, m, txs[n]))
  {
    NewHolder(r, txs, handle, n);
    forall i: nat | i < n
      ensures Holds(r, txs, handle, i, n + 1) <==>
        Holds(r, txs, handle, i, n) && !(r.Releases(txs[n], handle) && r.SameSigner(txs[n], txs[i]))
    {
      StillHolds(r, txs, handle, i, n);
    }
    var m' := Apply(r, m, txs[n]);
    if exists i: nat :: Holds(r, txs, handle, i, n) {
      var i: nat :| Holds(r, txs, handle, i, n);
      var next := n + 1;
      forall j: nat | Holds(r, txs, handle, j, next)
        ensures j == i
      {
        if j < n {
          OneHolder(r, txs, handle, i, j, n);
        }
      }
    }
  }

  // ---- What owners can rely on ----

  predicate Owns(m: Handles, handle: string, address: string) {
    handle in m && Compact(m[handle].address) == Compact(address)
  }

  /** A release at `k` by the signer of the claim at `i`. */
  ghost predicate SignedAway(r: Reading, txs: seq<RpcTx>, handle: string, i: nat, k: nat)
    requires i < |txs| && k < |txs|
  {
    r.Releases(txs[k], handle) && r.SameSigner(txs[k], txs[i])
  }

  lemma {:induction false} HolderStays(r: Reading, txs: seq<RpcTx>, handle: string, i: nat, n: nat, later: nat)
    requires n <= later <= |txs| && Holds(r, txs, handle, i, n)
    ensures Holds(r, txs, handle, i, later) || exists k: nat :: n <= k < later && SignedAway(r, txs, handle, i, k)
  {
    if n < later {
      HolderStays(r, txs, handle, i, n, later - 1);
      StillHolds(r, txs, handle, i, later - 1);
      assert SignedAway(r, txs, handle, i, later - 1) <==> r.Releases(txs[later - 1], handle) && r.SameSigner(txs[later - 1], txs[i]);
    }
  }

  lemma OwnersClaim(r: Reading, txs: seq<RpcTx>, handle: string, address: string, n: nat) returns (i: nat)
    requires n <= |txs| && Owns(Fold(r, txs[..n]), handle, address)
    ensures Holds(r, txs, handle, i, n) && Compact(r.signer(txs[i])) == Compact(address)
  {
    FoldFindsHolder(r, txs, handle, n);
    i :| Holds(r, txs, handle, i, n);
  }

  /** Ownership ends only by the owner's hand: whoever owns a handle and later does not has signed a release of it
      in between, at or above the activation height. */
  lemma OwnershipIsContinuous(r: Reading, before: seq<RpcTx>, after: seq<RpcTx>, handle: string, address: string)
    requires Owns(Fold(r, before), handle, address) && !Owns(Fold(r, before + after), handle, address)
    ensures exists k :: 0 <= k < |after| && r.Releases(after[k], handle) && Compact(r.signer(after[k])) == Compact(address)
  {
    var txs, n := before + after, |before|;
    assert txs[..n] == before && txs[..|txs|] == txs;
    var i := OwnersClaim(r, txs, handle, address, n);
    HolderStays(r, txs, handle, i, n, |txs|);
    FoldFindsHolder(r, txs, handle, |txs|);
    var k: nat :| n <= k < |txs| && SignedAway(r, txs, handle, i, k);
    assert after[k - n] == txs[k];
  }

  /** Without releases that count, the first claim of a handle has it for good. */
  lemma FirstClaimWins(r: Reading, txs: seq<RpcTx>, handle: string, i: nat)
    requires i < |txs| && r.Claims(txs[i], handle)
    requires forall j :: 0 <= j < i ==> !r.Claims(txs[j], handle)
    requires forall k :: 0 <= k < |txs| ==> !r.Releases(txs[k], handle)
    ensures handle in Fold(r, txs) && Fold(r, txs)[handle] == ClaimOf(r, txs[i], handle)
  {
    assert txs[..|txs|] == txs;
    FoldFindsHolder(r, txs, handle, |txs|);
    assert Holds(r, txs, handle, i, |txs|);
  }

  // ---- The order of transactions ----

  predicate Before(a: RpcTx, b: RpcTx) {
    a.blockNumber < b.blockNumber || (a.blockNumber == b.blockNumber && a.TxIndexOrZero() < b.TxIndexOrZero())
  }

  ghost predicate IsSorted(txs: seq<RpcTx>) {
    forall i, j :: 0 <= i < j < |txs| ==> !Before(txs[j], txs[i])
  }

  /** What any sort by position, stable or not, may make of a list. */
  ghost predicate IsOrderingOf(ordered: seq<RpcTx>, txs: seq<RpcTx>) {
    IsSorted(ordered) && multiset(ordered) == multiset(txs)
  }

  /** Without releases that count, the claim in the lowest block, and within it at the lowest index (a missing one is
      zero), owns the handle, in whatever order a sort puts the history. */
  lemma EarliestClaimWins(r: Reading, ordered: seq<RpcTx>, txs: seq<RpcTx>, handle: string, tx: RpcTx)
    requires IsOrderingOf(ordered, txs) && tx in txs && r.Claims(tx, handle)
    requires forall x :: x in txs && x != tx && r.Claims(x, handle) ==>
      tx.blockNumber < x.blockNumber || (tx.blockNumber == x.blockNumber && Index(tx.transactionIndex) < Index(x.transactionIndex))
    requires forall x :: x in txs ==> !r.Releases(x, handle)
    ensures handle in Fold(r, ordered) && Owns(Fold(r, ordered), handle, r.signer(tx))
    ensures Fold(r, ordered)[handle] ==
      HandleClaim(handle, r.signer(tx), tx.hash, tx.blockNumber, Index(tx.transactionIndex), tx.timestamp)
  {
    assert forall x :: x in ordered <==> x in multiset(ordered);
    assert forall x :: x in txs <==> x in multiset(txs);
    var i := FirstPlace(ordered, tx);
    forall j | 0 <= j < i
      ensures !r.Claims(ordered[j], handle)
    {
      assert ordered[j] in ordered && !Before(ordered[i], ordered[j]);
    }
    forall k | 0 <= k < |ordered|
      ensures !r.Releases(ordered[k], handle)
    {
      assert ordered[k] in ordered;
    }
    FirstClaimWins(r, ordered, handle, i);
  }

  /** An index as the sort reads it. */
  function Index(i: Option<nat>): nat {
    if i.Some? then i.value else 0
  }

  /** Two claims of one block: the one at the lower index has the handle, whatever the order they are fetched in. */
  lemma LowerIndexWins(r: Reading, a: RpcTx, b: RpcTx, handle: string, ordered: seq<RpcTx>)
    requires r.Claims(a, handle) && r.Claims(b, handle) && a.blockNumber == b.blockNumber
    requires a.transactionIndex.Some? && b.transactionIndex.Some? && a.transactionIndex.value < b.transactionIndex.value
    requires IsOrderingOf(ordered, [b, a]) || IsOrderingOf(ordered, [a, b])
    ensures Owns(Fold(r, ordered), handle, r.signer(a)) && Fold(r, ordered)[handle].txHash == a.hash
    ensures IsOrderingOf([a, b], [b, a])
  {
    var txs := [a, b];
    assert multiset([b, a]) == multiset(txs);
    EarliestClaimWins(r, ordered, txs, handle, a);
  }

  lemma {:induction false} FirstPlace(txs: seq<RpcTx>, tx: RpcTx) returns (i: nat)
    requires tx in txs
    ensures i < |txs| && txs[i] == tx && tx !in txs[..i]
  {
    if txs[0] == tx {
      i := 0;
    } else {
      i := FirstPlace(txs[1..], tx);
      assert txs[..i + 1] == [txs[0]] + txs[1..][..i];
      i := i + 1;
    }
  }

  /** The transactions that claim or release something. */
  ghost function Acting(r: Reading, txs: seq<RpcTx>): set<RpcTx> {
    set tx | tx in txs && r.act(tx).Some?
  }

  /** Different transactions of the set have different positions. */
  ghost predicate PositionsDiffer(s: set<RpcTx>) {
    forall a, b :: a in s && b in s && a != b ==> Before(a, b) || Before(b, a)
  }

  ghost predicate IsLast(s: set<RpcTx>, tx: RpcTx) {
    tx in s && forall other :: other in s ==> !Before(tx, other)
  }

  lemma ActsTwice(r: Reading, m: Handles, tx: RpcTx)
    ensures Apply(r, Apply(r, m, tx), tx) == Apply(r, m, tx)
  {
  }

  lemma ActingSplits(r: Reading, init: seq<RpcTx>, last: RpcTx)
    ensures Acting(r, init + [last]) == Acting(r, init) + if r.act(last).Some? then {last} else {}
  {
  }

  lemma LastIsLast(r: Reading, init: seq<RpcTx>, last: RpcTx)
    requires IsSorted(init + [last]) && r.act(last).Some?
    ensures IsLast(Acting(r, init + [last]), last) && IsSorted(init)
  {
    var all := init + [last];
    forall other | other in Acting(r, all)
      ensures !Before(last, other)
    {
      var i :| 0 <= i < |all| && all[i] == other;
      assert all[|init|] == last;
    }
    assert forall i :: 0 <= i < |init| ==> all[i] == init[i];
  }

  lemma OneLast(s: set<RpcTx>, x: RpcTx, y: RpcTx)
    requires PositionsDiffer(s) && IsLast(s, x) && IsLast(s, y)
    ensures x == y
  {
  }

  /** The last acting transaction of a sorted list may act again without effect. */
  lemma {:induction false} LastActsAgain(r: Reading, txs: seq<RpcTx>, x: RpcTx)
    requires IsSorted(txs) && PositionsDiffer(Acting(r, txs)) && IsLast(Acting(r, txs), x)
    ensures Apply(r, Fold(r, txs), x) == Fold(r, txs)
  {
    var init, y := txs[..|txs| - 1], txs[|txs| - 1];
    assert txs == init + [y];
    ActingSplits(r, init, y);
    if r.act(y).None? {
      LastActsAgain(r, init, x);
    } else {
      LastIsLast(r, init, y);
      OneLast(Acting(r, txs), x, y);
      ActsTwice(r, Fold(r, init), y);
    }
  }

  lemma DropLast(r: Reading, txs: seq<RpcTx>)
    requires |txs| > 0 && IsSorted(txs) && PositionsDiffer(Acting(r, txs))
    requires r.act(txs[|txs| - 1]).None? || txs[|txs| - 1] in Acting(r, txs[..|txs| - 1])
    ensures IsSorted(txs[..|txs| - 1]) && Acting(r, txs[..|txs| - 1]) == Acting(r, txs) && Fold(r, txs[..|txs| - 1]) == Fold(r, txs)
  {
    var init, x := txs[..|txs| - 1], txs[|txs| - 1];
    assert txs == init + [x];
    ActingSplits(r, init, x);
    if r.act(x).Some? {
      LastIsLast(r, init, x);
      LastActsAgain(r, init, x);
    }
  }

  lemma SameLast(r: Reading, a: seq<RpcTx>, b: seq<RpcTx>)
    requires |a| > 0 && |b| > 0 && IsSorted(a) && IsSorted(b) && Acting(r, a) == Acting(r, b) && PositionsDiffer(Acting(r, a))
    requires r.act(a[|a| - 1]).Some? && a[|a| - 1] !in Acting(r, a[..|a| - 1])
    requires r.act(b[|b| - 1]).Some? && b[|b| - 1] !in Acting(r, b[..|b| - 1])
    ensures a[|a| - 1] == b[|b| - 1] && IsSorted(a[..|a| - 1]) && IsSorted(b[..|b| - 1])
    ensures Acting(r, a[..|a| - 1]) == Acting(r, b[..|b| - 1]) && PositionsDiffer(Acting(r, a[..|a| - 1]))
  {
    var x, y := a[|a| - 1], b[|b| - 1];
    assert a == a[..|a| - 1] + [x] && b == b[..|b| - 1] + [y];
    LastIsLast(r, a[..|a| - 1], x);
    LastIsLast(r, b[..|b| - 1], y);
    OneLast(Acting(r, a), x, y);
    ActingSplits(r, a[..|a| - 1], x);
    ActingSplits(r, b[..|b| - 1], y);
    assert Acting(r, a[..|a| - 1]) == Acting(r, a) - {x} && Acting(r, b[..|b| - 1]) == Acting(r, b) - {y};
  }

  /** Two sorted lists with the same acting transactions, each any number of times, fold to the same registry. */
  lemma {:induction false} FoldIsOfTheSet(r: Reading, a: seq<RpcTx>, b: seq<RpcTx>)
    requires IsSorted(a) && IsSorted(b) && Acting(r, a) == Acting(r, b) && PositionsDiffer(Acting(r, a))
    ensures Fold(r, a) == Fold(r, b)
    decreases |a| + |b|
  {
    assert |a| == 0 ==> Acting(r, a) == {};
    assert |b| == 0 ==> Acting(r, b) == {};
    assert |a| > 0 && r.act(a[|a| - 1]).Some? ==> a[|a| - 1] in Acting(r, a);
    assert |b| > 0 && r.act(b[|b| - 1]).Some? ==> b[|b| - 1] in Acting(r, b);
    if |a| > 0 && (r.act(a[|a| - 1]).None? || a[|a| - 1] in Acting(r, a[..|a| - 1])) {
      DropLast(r, a);
      FoldIsOfTheSet(r, a[..|a| - 1], b);
    } else if |b| > 0 && (r.act(b[|b| - 1]).None? || b[|b| - 1] in Acting(r, b[..|b| - 1])) {
      DropLast(r, b);
      FoldIsOfTheSet(r, a, b[..|b| - 1]);
    } else if |a| > 0 && |b| > 0 {
      SameLast(r, a, b);
      FoldIsOfTheSet(r, a[..|a| - 1], b[..|b| - 1]);
    }
  }

  // ---- When the order is known ----

  /** Two acting transactions of one block, at least one of them without an index. */
  predicate Clash(r: Reading, a: RpcTx, b: RpcTx) {
    r.act(a).Some? && r.act(b).Some? && a.blockNumber == b.blockNumber && (a.transactionIndex.None? || b.transactionIndex.None?)
  }

  /** `registryOrderingAmbiguous`. */
  ghost predicate IsAmbiguous(r: Reading, txs: seq<RpcTx>) {
    exists i, j :: 0 <= i < j < |txs| && Clash(r, txs[i], txs[j])
  }

  /** The indexes that are there are unique within a block. */
  ghost predicate IndexesUnique(s: set<RpcTx>) {
    forall a, b :: a in s && b in s && a.blockNumber == b.blockNumber && a.transactionIndex.Some? && a.transactionIndex == b.transactionIndex
      ==> a == b
  }

  lemma UnambiguousOrders(r: Reading, txs: seq<RpcTx>)
    requires !IsAmbiguous(r, txs) && IndexesUnique(Acting(r, txs))
    ensures PositionsDiffer(Acting(r, txs))
  {
    forall a, b | a in Acting(r, txs) && b in Acting(r, txs) && a != b
      ensures Before(a, b) || Before(b, a)
    {
      var i :| 0 <= i < |txs| && txs[i] == a;
      var j :| 0 <= j < |txs| && txs[j] == b;
      assert !Clash(r, a, b) by {
        assert if i < j then !Clash(r, txs[i], txs[j]) else !Clash(r, txs[j], txs[i]);
      }
    }
  }

  lemma OrderingActs(r: Reading, ordered: seq<RpcTx>, txs: seq<RpcTx>)
    requires multiset(ordered) == multiset(txs)
    ensures Acting(r, ordered) == Acting(r, txs)
  {
    assert forall tx :: tx in ordered <==> tx in multiset(ordered);
    assert forall tx :: tx in txs <==> tx in multiset(txs);
  }

  /** The registry depends on the set of transactions only: not on the order in which they were fetched, on how
      often one was, or on what an unstable sort does with equal positions, as long as one of the lists is not
      ambiguous. */
  lemma RebuildIsOfTheSet(r: Reading, a: seq<RpcTx>, b: seq<RpcTx>, orderedA: seq<RpcTx>, orderedB: seq<RpcTx>)
    requires forall tx :: tx in a <==> tx in b
    requires !IsAmbiguous(r, a) && IndexesUnique(Acting(r, a))
    requires IsOrderingOf(orderedA, a) && IsOrderingOf(orderedB, b)
    ensures Fold(r, orderedA) == Fold(r, orderedB)
  {
    UnambiguousOrders(r, a);
    OrderingActs(r, orderedA, a);
    OrderingActs(r, orderedB, b);
    FoldIsOfTheSet(r, orderedA, orderedB);
  }

  /** Why the guard is there: with two claims at one position both orders are orderings, and they name different
      owners. */
  lemma TieHasTwoOutcomes(r: Reading, a: RpcTx, b: RpcTx, handle: string)
    requires r.Claims(a, handle) && r.Claims(b, handle) && !r.SameSigner(a, b) && !Before(a, b) && !Before(b, a)
    ensures IsOrderingOf([a, b], [a, b]) && IsOrderingOf([b, a], [a, b])
    ensures Owns(Fold(r, [a, b]), handle, r.signer(a)) && !Owns(Fold(r, [b, a]), handle, r.signer(a))
  {
    FirstClaim(r, a, b, handle);
    FirstClaim(r, b, a, handle);
    assert multiset([a, b]) == multiset([b, a]);
  }

  lemma FirstClaim(r: Reading, a: RpcTx, b: RpcTx, handle: string)
    requires r.Claims(a, handle) && r.Claims(b, handle)
    ensures handle in Fold(r, [a, b]) && Fold(r, [a, b])[handle] == ClaimOf(r, a, handle)
  {
    assert [a, b][..1] == [a] && [a][..0] == [];
    assert Fold(r, [a]) == Apply(r, map[], a);
  }
}
