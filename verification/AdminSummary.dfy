/** The admin page's figures (backend/marketplace_admin.go). */
module AdminSummaries {
  import opened Trades
  import opened EscrowAccounts
  import opened MarketplaceStore
  import L = Ledger
  import T = MarketplaceTables

  datatype Summary = Summary(counts: map<TradeState, nat>, stuck: nat, expected: int, netOutflow: int)

  function CountOf(counts: map<TradeState, nat>, s: TradeState): nat {
    if s in counts then counts[s] else 0
  }

  ghost function StuckTrades(tb: T.Tables): set<string> {
    set id | id in tb.trades && tb.trades[id].IsStuck()
  }

  /** A payout or a refund was attempted, and no transaction came of it. */
  predicate IsStuckRow(t: Trade) {
    (t.payout.at != 0 && t.payout.txHash == "") || (t.refund.at != 0 && t.refund.txHash == "")
  }

  /** All rows of the trades table, each once. */
  ghost predicate AreAllRows(rows: seq<Row>, tb: T.Tables) {
    && (forall i :: 0 <= i < |rows| ==> rows[i].id in tb.trades && tb.trades[rows[i].id] == rows[i].trade)
    && (forall i, j :: 0 <= i < j < |rows| ==> rows[i].id != rows[j].id)
    && IdsOf(rows) == tb.trades.Keys
  }

  /** How many of the first `i` rows are in a set of ids. */
  function Counted(ids: set<string>, rows: seq<Row>, i: nat): nat
    requires i <= |rows|
  {
    if i == 0 then 0 else Counted(ids, rows, i - 1) + if rows[i - 1].id in ids then 1 else 0
  }

  /** The sum of a column over the first `i` rows. */
  function Summed(column: map<string, int>, rows: seq<Row>, i: nat): int
    requires i <= |rows|
  {
    if i == 0 then 0 else Summed(column, rows, i - 1) + if rows[i - 1].id in column then column[rows[i - 1].id] else 0
  }

  lemma OneMoreId(rows: seq<Row>, i: nat)
    requires i < |rows| && forall j, k :: 0 <= j < k < |rows| ==> rows[j].id != rows[k].id
    ensures IdsOf(rows[..i + 1]) == IdsOf(rows[..i]) + {rows[i].id} && rows[i].id !in IdsOf(rows[..i])
  {
    assert rows[..i + 1] == rows[..i] + [rows[i]];
    IdsOfMore(rows[..i], rows[i]);
  }

  lemma OneMoreMember(ids: set<string>, seen: set<string>, id: string)
    requires id !in seen
    ensures |ids * (seen + {id})| == |ids * seen| + if id in ids then 1 else 0
  {
    if id in ids {
      assert ids * (seen + {id}) == ids * seen + {id};
    } else {
      assert ids * (seen + {id}) == ids * seen;
    }
  }

  lemma {:induction false} CountedIsSize(ids: set<string>, rows: seq<Row>, i: nat)
    requires i <= |rows| && forall j, k :: 0 <= j < k < |rows| ==> rows[j].id != rows[k].id
    ensures Counted(ids, rows, i) == |ids * IdsOf(rows[..i])|
  {
    if i > 0 {
      CountedIsSize(ids, rows, i - 1);
      var seen := IdsOf(rows[..i - 1]);
      OneMoreId(rows, i - 1);
      assert rows[..i - 1 + 1] == rows[..i];
      OneMoreMember(ids, seen, rows[i - 1].id);
      assert ids * IdsOf(rows[..i]) == ids * (seen + {rows[i - 1].id});
    } else {
      assert ids * IdsOf(rows[..0]) == {};
    }
  }

  lemma {:induction false} SummedIsTotal(column: map<string, int>, rows: seq<Row>, i: nat)
    requires i <= |rows| && forall j, k :: 0 <= j < k < |rows| ==> rows[j].id != rows[k].id
    requires forall j :: 0 <= j < |rows| ==> rows[j].id in column
    ensures Summed(column, rows, i) + L.Total(column - IdsOf(rows[..i])) == L.Total(column)
  {
    if i > 0 {
      SummedIsTotal(column, rows, i - 1);
      OneMoreId(rows, i - 1);
      var left := column - IdsOf(rows[..i - 1]);
      L.TotalRemove(left, rows[i - 1].id);
      assert left - {rows[i - 1].id} == column - IdsOf(rows[..i]);
    } else {
      assert column - IdsOf(rows[..0]) == column;
    }
  }

  lemma AllCounted(ids: set<string>, rows: seq<Row>, tb: T.Tables)
    requires AreAllRows(rows, tb) && ids <= tb.trades.Keys
    ensures Counted(ids, rows, |rows|) == |ids|
  {
    CountedIsSize(ids, rows, |rows|);
    assert rows[..|rows|] == rows;
    assert ids * IdsOf(rows) == ids;
  }

  lemma AllSummed(rows: seq<Row>, tb: T.Tables)
    requires AreAllRows(rows, tb)
    ensures Summed(Held(tb), rows, |rows|) == L.Total(Held(tb))
  {
    SummedIsTotal(Held(tb), rows, |rows|);
    assert rows[..|rows|] == rows;
    assert Held(tb) - IdsOf(rows) == map[];
  }

  /** What one more row adds. */
  lemma NextRow(rows: seq<Row>, tb: T.Tables, i: nat)
    requires AreAllRows(rows, tb) && i < |rows|
    ensures forall s :: Counted(tb.InState(s), rows, i + 1) == Counted(tb.InState(s), rows, i) + if s == rows[i].trade.state then 1 else 0
    ensures Counted(StuckTrades(tb), rows, i + 1) == Counted(StuckTrades(tb), rows, i) + if rows[i].trade.IsStuck() then 1 else 0
    ensures Summed(Held(tb), rows, i + 1) == Summed(Held(tb), rows, i) + if rows[i].trade.IsHeld() then rows[i].trade.terms.price else 0
  {
  }

  /** One pass over all trades, in whatever order they were sorted: the counts are exact and the expected balance
      is the sum of the held column. */
  method Summarise(rows: seq<Row>, ghost tb: T.Tables, ledger: L.EscrowLedger) returns (r: Summary)
    requires AreAllRows(rows, tb)
    ensures forall s :: CountOf(r.counts, s) == |set id | id in tb.trades && tb.trades[id].state == s|
    ensures r.stuck == |set id | id in tb.trades && IsStuckRow(tb.trades[id])|
    ensures r.expected == L.Total(Held(tb))
    ensures r.netOutflow == L.Balance(ledger.entries)
  {
    var balance := ledger.CurrentBalance();
    var counts: map<TradeState, nat>, stuck, expected := map[], 0, 0;
    var i := 0;
    while i < |rows|
      invariant 0 <= i <= |rows|
      invariant forall s :: CountOf(counts, s) == Counted(tb.InState(s), rows, i)
      invariant stuck == Counted(StuckTrades(tb), rows, i)
      invariant expected == Summed(Held(tb), rows, i)
    {
      var t := rows[i].trade;
      NextRow(rows, tb, i);
      counts := counts[t.state := CountOf(counts, t.state) + 1];
      if t.IsStuck() {
        stuck := stuck + 1;
      }
      if t.IsHeld() {
        expected := expected + t.terms.price;
      }
      i := i + 1;
    }
    forall s
      ensures Counted(tb.InState(s), rows, |rows|) == |tb.InState(s)|
    {
      AllCounted(tb.InState(s), rows, tb);
      assert tb.InState(s) == set id | id in tb.trades && tb.trades[id].state == s;
    }
    AllCounted(StuckTrades(tb), rows, tb);
    assert StuckTrades(tb) == set id | id in tb.trades && IsStuckRow(tb.trades[id]);
    AllSummed(rows, tb);
    r := Summary(counts, stuck, expected, balance);
  }
}
