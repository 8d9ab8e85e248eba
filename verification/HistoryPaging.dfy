/** Fetching a whole address history page by page (backend/nimiq_rpc.go, packages/profile-client/src/rpc.ts). */
module HistoryPaging {
  import opened Wrappers
  import opened ChainTypes

  /** Transactions of one address, newest first; no hash appears twice. */
  ghost predicate HashesDiffer(history: seq<RpcTx>) {
    forall i, j :: 0 <= i < j < |history| ==> history[i].hash != history[j].hash
  }

  /** The position after the transaction with a hash; past the end when there is none. */
  function AfterHash(history: seq<RpcTx>, hash: string): nat {
    if |history| == 0 then 0
    else if history[0].hash == hash then 1
    else 1 + AfterHash(history[1..], hash)
  }

  function Min(a: nat, b: nat): nat { if a <= b then a else b }

  /** The node's answer: at most `max` transactions following the cursor, which is not among them. */
  function Page(history: seq<RpcTx>, max: nat, startAt: Option<string>): (page: seq<RpcTx>)
    ensures |page| <= max
  {
    var from := match startAt case None => 0 case Some(hash) => Min(AfterHash(history, hash), |history|);
    history[from..Min(from + max, |history|)]
  }

  lemma {:induction false} AfterHashFinds(history: seq<RpcTx>, k: nat)
    requires HashesDiffer(history) && k < |history|
    ensures AfterHash(history, history[k].hash) == k + 1
  {
    if k > 0 {
      assert history[1..][k - 1] == history[k];
      assert forall i :: 0 <= i < |history| - 1 ==> history[1..][i] == history[i + 1];
      AfterHashFinds(history[1..], k - 1);
    }
  }

  /** The page after the first `k` transactions is the next stretch of the history. */
  lemma NextPage(history: seq<RpcTx>, max: nat, k: nat)
    requires HashesDiffer(history) && 0 < k <= |history|
    ensures Page(history, max, Some(history[k - 1].hash)) == history[k..Min(k + max, |history|)]
  {
    AfterHashFinds(history, k - 1);
  }

  /** What a fetching loop has, and where it goes on. */
  ghost predicate IsPrefix(history: seq<RpcTx>, all: seq<RpcTx>, startAt: Option<string>) {
    all <= history && startAt == if |all| == 0 then None else Some(history[|all| - 1].hash)
  }

  /** One turn of the loop: the node's answer is appended and the cursor moved to its end, unless it is short. */
  method FetchPage(history: seq<RpcTx>, size: nat, all: seq<RpcTx>, startAt: Option<string>)
    returns (more: seq<RpcTx>, short: bool, cursor: Option<string>)
    requires HashesDiffer(history) && size > 0 && IsPrefix(history, all, startAt)
    ensures short <==> |history| < |all| + size
    ensures short ==> more == history
    ensures !short ==> IsPrefix(history, more, cursor) && |more| == |all| + size
  {
    if |all| > 0 {
      NextPage(history, size, |all|);
    }
    var txs := Page(history, size, startAt);
    more, short, cursor := all + txs, |txs| < size, startAt;
    if !short {
      cursor := Some(txs[|txs| - 1].hash);
    }
  }

  const DEFAULT_PAGE_SIZE := 500
  const DEFAULT_MAX_PAGES := 100

  function Or(n: int, fallback: nat): nat {
    if n <= 0 then fallback else n
  }

  datatype TxHistory = TxHistory(txs: seq<RpcTx>, complete: bool)

  datatype RpcError = Unreachable

  /** How many transactions so many pages hold. */
  function Span(pages: nat, pageSize: nat): nat {
    if pages == 0 then 0 else Span(pages - 1, pageSize) + pageSize
  }

  lemma {:induction false} SpanIsProduct(pages: nat, pageSize: nat)
    ensures Span(pages, pageSize) == pages * pageSize
  {
    if pages > 0 {
      SpanIsProduct(pages - 1, pageSize);
    }
  }

  lemma {:induction false} SpanGrows(a: nat, b: nat, pageSize: nat)
    requires a <= b
    ensures Span(a, pageSize) <= Span(b, pageSize)
  {
    if a < b {
      SpanGrows(a, b - 1, pageSize);
    }
  }

  /** The page is asked for: all before it were full, and the ceiling is not reached. */
  predicate IsAsked(page: nat, size: nat, pageSize: nat, maxPages: nat) {
    page < maxPages && Span(page, pageSize) <= size
  }

  /** What a fetch reports, with the page sizes already fixed. */
  ghost predicate IsFetched(r: Outcome<TxHistory, RpcError>, history: seq<RpcTx>, size: nat, pages: nat, failing: Option<nat>) {
    && (r.Fail? <==> failing.Some? && IsAsked(failing.value, |history|, size, pages))
    && (r.Ok? ==> (r.value.complete <==> |history| < Span(pages, size)))
    && (r.Ok? ==> r.value.txs == history[..Min(Span(pages, size), |history|)])
  }

  /** A short page ends the fetch with the whole history. */
  lemma ShortPage(history: seq<RpcTx>, size: nat, pages: nat, failing: Option<nat>, page: nat)
    requires page < pages && Span(page, size) <= |history| < Span(page + 1, size)
    requires failing.Some? ==> page < failing.value
    ensures IsFetched(Ok(TxHistory(history, true)), history, size, pages, failing)
  {
    SpanGrows(page + 1, pages, size);
    if failing.Some? {
      SpanGrows(page + 1, failing.value, size);
    }
    assert history[..|history|] == history;
  }

  /** Otherwise the fetch ends with the page that fails, or at the ceiling. */
  lemma OtherEnds(history: seq<RpcTx>, size: nat, pages: nat, failing: Option<nat>, page: nat)
    requires page <= pages && Span(page, size) <= |history|
    requires failing.Some? ==> page <= failing.value
    ensures page < pages && failing == Some(page) ==> IsFetched(Fail(Unreachable), history, size, pages, failing)
    ensures page == pages ==> IsFetched(Ok(TxHistory(history[..Span(page, size)], false)), history, size, pages, failing)
  {
  }

  /** Follows the cursor until a short page or the ceiling. Against a node that holds a fixed history, the result is
      complete exactly when the history is shorter than the pages can hold, and it is then the whole history;
      otherwise it is its newest part. A page that fails fails the fetch, if it is asked for. */
  method GetAllTransactionsByAddress(history: seq<RpcTx>, pageSize: int, maxPages: int, failing: Option<nat>)
    returns (r: Outcome<TxHistory, RpcError>)
    requires HashesDiffer(history)
    ensures IsFetched(r, history, Or(pageSize, DEFAULT_PAGE_SIZE), Or(maxPages, DEFAULT_MAX_PAGES), failing)
  {
    var size, pages := Or(pageSize, DEFAULT_PAGE_SIZE), Or(maxPages, DEFAULT_MAX_PAGES);
    var all: seq<RpcTx>, startAt: Option<string> := [], None;
    var page := 0;
    while page < pages
      invariant 0 <= page <= pages
      invariant |all| == Span(page, size) && IsPrefix(history, all, startAt)
      invariant failing.Some? ==> page <= failing.value
    {
      if failing == Some(page) {
        OtherEnds(history, size, pages, failing, page);
        return Fail(Unreachable);
      }
      var short;
      all, short, startAt := FetchPage(history, size, all, startAt);
      if short {
        ShortPage(history, size, pages, failing, page);
        return Ok(TxHistory(all, true));
      }
      page := page + 1;
    }
    OtherEnds(history, size, pages, failing, page);
    r := Ok(TxHistory(all, false));
  }
}
