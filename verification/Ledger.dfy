/** The append-only escrow ledger and sums over tables (backend/marketplace_ledger.go). */
module Ledger {

  datatype EntryKind = DepositEntry | PayoutEntry | RefundEntry | FeeEntry | NetworkFeeEntry

  /** One line; its sequence number is its position. Money leaving escrow is negative. */
  datatype Entry = Entry(tradeId: string, kind: EntryKind, amount: int, txHash: string, timestamp: int)

  function Balance(entries: seq<Entry>): int {
    if |entries| == 0 then 0 else Balance(entries[..|entries| - 1]) + entries[|entries| - 1].amount
  }

  function EntriesOf(entries: seq<Entry>, tradeId: string): seq<Entry> {
    if |entries| == 0 then []
    else
      EntriesOf(entries[..|entries| - 1], tradeId) +
      (if entries[|entries| - 1].tradeId == tradeId then [entries[|entries| - 1]] else [])
  }

  lemma Appended(entries: seq<Entry>, e: Entry, tradeId: string)
    ensures Balance(entries + [e]) == Balance(entries) + e.amount
    ensures EntriesOf(entries + [e], tradeId) == EntriesOf(entries, tradeId) + (if e.tradeId == tradeId then [e] else [])
  {
    assert (entries + [e])[..|entries|] == entries;
  }

  /** The sum of a column. */
  ghost function Total(m: map<string, int>): int
    decreases |m|
  {
    if m == map[] then 0
    else
      var k :| k in m;
      m[k] + Total(m - {k})
  }

  lemma {:induction false} TotalRemove(m: map<string, int>, k: string)
    requires k in m
    ensures Total(m) == m[k] + Total(m - {k})
    decreases |m|
  {
    var j :| j in m && Total(m) == m[j] + Total(m - {j});
    if j != k {
      TotalRemove(m - {j}, k);
      TotalRemove(m - {k}, j);
      assert m - {j} - {k} == m - {k} - {j};
    }
  }

  /** Two pairs of columns that agree row by row agree in sum. */
  lemma {:induction false} TotalAgree(a: map<string, int>, b: map<string, int>, c: map<string, int>, d: map<string, int>)
    requires a.Keys == b.Keys == c.Keys == d.Keys
    requires forall k :: k in a ==> a[k] + b[k] == c[k] + d[k]
    ensures Total(a) + Total(b) == Total(c) + Total(d)
    decreases |a|
  {
    if a == map[] {
      assert b == map[] && c == map[] && d == map[];
    } else {
      var k :| k in a;
      TotalAgree(a - {k}, b - {k}, c - {k}, d - {k});
      TotalRemove(a, k);
      TotalRemove(b, k);
      TotalRemove(c, k);
      TotalRemove(d, k);
    }
  }

  ghost function Plus(a: map<string, int>, b: map<string, int>): map<string, int>
    requires a.Keys == b.Keys
  {
    map k | k in a :: a[k] + b[k]
  }

  function Zeros(ids: set<string>): map<string, int> {
    map id | id in ids :: 0
  }

  lemma TotalPlus(a: map<string, int>, b: map<string, int>)
    requires a.Keys == b.Keys
    ensures Plus(a, b).Keys == a.Keys && Total(Plus(a, b)) == Total(a) + Total(b)
  {
    TotalZero(Zeros(a.Keys));
    TotalAgree(a, b, Plus(a, b), Zeros(a.Keys));
  }

  /** What the ledger says about each of the given trades. */
  ghost function PerTrade(entries: seq<Entry>, ids: set<string>): map<string, int> {
    map id | id in ids :: Balance(EntriesOf(entries, id))
  }

  lemma {:induction false} TotalZero(m: map<string, int>)
    requires forall k :: k in m ==> m[k] == 0
    ensures Total(m) == 0
    decreases |m|
  {
    if m != map[] {
      var k :| k in m;
      TotalRemove(m, k);
      TotalZero(m - {k});
    }
  }

  lemma BalanceOfAppended(entries: seq<Entry>, e: Entry, id: string)
    ensures Balance(EntriesOf(entries + [e], id)) == Balance(EntriesOf(entries, id)) + (if e.tradeId == id then e.amount else 0)
  {
    Appended(entries, e, id);
    if e.tradeId == id {
      Appended(EntriesOf(entries, id), e, id);
    } else {
      assert EntriesOf(entries + [e], id) == EntriesOf(entries, id);
    }
  }

  lemma PerTradeAppended(entries: seq<Entry>, e: Entry, ids: set<string>)
    requires e.tradeId in ids
    ensures Total(PerTrade(entries + [e], ids)) == Total(PerTrade(entries, ids)) + e.amount
  {
    var before, after := PerTrade(entries, ids), PerTrade(entries + [e], ids);
    forall id | id in ids
      ensures after[id] == before[id] + (if e.tradeId == id then e.amount else 0)
    {
      BalanceOfAppended(entries, e, id);
    }
    TotalRemove(before, e.tradeId);
    TotalRemove(after, e.tradeId);
    assert after - {e.tradeId} == before - {e.tradeId};
  }

  /** When every entry belongs to a known trade, the balance is the sum of the trades' balances. */
  lemma {:induction false} BalanceByTrade(entries: seq<Entry>, ids: set<string>)
    requires forall i :: 0 <= i < |entries| ==> entries[i].tradeId in ids
    ensures Balance(entries) == Total(PerTrade(entries, ids))
  {
    if |entries| == 0 {
      TotalZero(PerTrade(entries, ids));
    } else {
      var rest, last := entries[..|entries| - 1], entries[|entries| - 1];
      assert entries == rest + [last];
      assert last.tradeId in ids;
      BalanceByTrade(rest, ids);
      PerTradeAppended(rest, last, ids);
    }
  }

  class EscrowLedger {
    var entries: seq<Entry>

    constructor ()
      ensures entries == []
    {
      entries := [];
    }

    /** Adds one line, stamped with the clock when it carries no time, and never touches the others. */
    method Append(e: Entry, clock: int)
      modifies this
      ensures entries == old(entries) + [if e.timestamp == 0 then e.(timestamp := clock) else e]
    {
      var entry := e;
      if entry.timestamp == 0 {
        entry := entry.(timestamp := clock);
      }
      entries := entries + [entry];
    }

    /** The sum over all lines. */
    method CurrentBalance() returns (balance: int)
      ensures balance == Balance(entries)
    {
      balance := 0;
      var i := 0;
      while i < |entries|
        invariant 0 <= i <= |entries|
        invariant balance == Balance(entries[..i])
      {
        assert entries[..i + 1][..i] == entries[..i];
        balance := balance + entries[i].amount;
        i := i + 1;
      }
      assert entries[..|entries|] == entries;
    }
  }
}
