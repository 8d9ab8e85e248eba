/** The ownership watcher and the walks along the settlement chain, over the mutable store
    (backend/marketplace_ownership_watcher.go). */
module OwnershipWatching {
  import opened Wrappers
  import opened Trades
  import opened AddressText
  import opened ChainTypes
  import opened EscrowSystem
  import opened EscrowInvariant
  import opened MarketplaceStore
  import opened SettlementWorkers
  import Addresses
  import L = Ledger
  import T = MarketplaceTables

  const SETTLEMENT_CHAIN: seq<TradeState> := [AwaitingRelease, ReleaseConfirming, AwaitingClaim, ClaimConfirming, SettlementPending]

  function ChainIndex(s: TradeState): int {
    match s
    case AwaitingRelease => 0
    case ReleaseConfirming => 1
    case AwaitingClaim => 2
    case ClaimConfirming => 3
    case SettlementPending => 4
    case _ => -1
  }

  datatype WalkError = NoTrade | CannotReach(found: TradeState) | Refused(error: T.StoreError)

  type WalkResult = Outcome<(), WalkError>

  // ---- Specifications ----

  /** The row after `hops` steps along the chain, none of them with a mutation. */
  function Hopped(t: Trade, hops: nat, clock: int): Trade
    requires 0 <= ChainIndex(t.state) && ChainIndex(t.state) + hops < 5
  {
    if hops == 0 then t
    else t.(state := SETTLEMENT_CHAIN[ChainIndex(t.state) + hops], version := t.version + hops, updatedAt := clock)
  }

  predicate IsAhead(s: TradeState, target: TradeState) {
    0 <= ChainIndex(s) < ChainIndex(target)
  }

  /** Where a walk ends: at the target, with the mutation made once on the last hop; at the end of the chain when
      the target is not ahead; and where it stands when the trade is not on the chain. */
  function Walked(t: Trade, target: TradeState, m: Mutation, clock: int): Trade {
    if t.state == target || ChainIndex(t.state) < 0 then t
    else if IsAhead(t.state, target) then
      Mutate(t, m).(state := target, version := t.version + (ChainIndex(target) - ChainIndex(t.state)), updatedAt := clock)
    else Hopped(t, 4 - ChainIndex(t.state), clock)
  }

  predicate CanFail(s: TradeState) {
    s.FailedAfterRelease? || 0 <= ChainIndex(s) < 4
  }

  function FailedRow(t: Trade, clock: int): Trade {
    if CanFail(t.state) then
      t.(state := FailedAfterRelease, version := t.version + (if t.state.AwaitingRelease? then 2 else 1), updatedAt := clock)
    else t
  }

  // ---- Stages of a walk ----

  predicate IsUnderway(t: Trade, target: TradeState, hops: nat) {
    hops > 0 ==>
      && 0 <= ChainIndex(t.state) && ChainIndex(t.state) + hops < 5 && t.state != target
      && (IsAhead(t.state, target) ==> hops <= ChainIndex(target) - ChainIndex(t.state))
  }

  /** The row after some hops of a walk that stops at the target. */
  function Stage(t: Trade, target: TradeState, m: Mutation, clock: int, hops: nat): Trade
    requires IsUnderway(t, target, hops)
  {
    if hops > 0 && ChainIndex(target) == ChainIndex(t.state) + hops then Walked(t, target, m, clock)
    else if hops > 0 then Hopped(t, hops, clock)
    else t
  }

  /** The walk stops where Walked says. */
  lemma StageEnds(t: Trade, target: TradeState, m: Mutation, clock: int, hops: nat)
    requires IsUnderway(t, target, hops)
    ensures var here := Stage(t, target, m, clock, hops);
            here.state == target || ChainIndex(here.state) < 0 || ChainIndex(here.state) == 4 ==> here == Walked(t, target, m, clock)
    ensures Walked(t, target, m, clock).state == target ==> t.state == target || IsAhead(t.state, target)
  {
  }

  lemma ChainNext(s: TradeState, target: TradeState)
    requires 0 <= ChainIndex(s) < 4
    ensures var next := SETTLEMENT_CHAIN[ChainIndex(s) + 1];
            Allowed(s, next) && ChainIndex(next) == ChainIndex(s) + 1 && (next == target <==> ChainIndex(target) == ChainIndex(next))
  {
  }

  lemma StageIndex(t: Trade, target: TradeState, m: Mutation, clock: int, hops: nat)
    requires IsUnderway(t, target, hops)
    ensures var here := Stage(t, target, m, clock, hops);
            here.state != target && 0 <= ChainIndex(here.state) < 4 ==>
              here == Hopped(t, hops, clock) && ChainIndex(here.state) == ChainIndex(t.state) + hops
  {
  }

  /** Each hop is legal, and carries the mutation exactly when it reaches the target. */
  lemma StageMoves(t: Trade, target: TradeState, m: Mutation, clock: int, hops: nat)
    requires IsUnderway(t, target, hops)
    requires var here := Stage(t, target, m, clock, hops); here.state != target && 0 <= ChainIndex(here.state) < 4
    ensures IsUnderway(t, target, hops + 1)
    ensures var here := Stage(t, target, m, clock, hops); var next := SETTLEMENT_CHAIN[ChainIndex(here.state) + 1];
            Allowed(here.state, next)
            && T.Moved(here, next, if next == target then m else NoMutation, clock) == Stage(t, target, m, clock, hops + 1)
  {
    StageIndex(t, target, m, clock, hops);
    ChainNext(Stage(t, target, m, clock, hops).state, target);
  }

  /** A legal transition of a row that stands as described. */
  lemma Transitions(tb: T.Tables, id: string, t: Trade, to: TradeState, m: Mutation, clock: int)
    requires CanTransitionTo(t.state, to)
    ensures T.Transition(WithTrade(tb, id, t), id, t.state, to, m, clock) == Ok(WithTrade(tb, id, T.Moved(t, to, m, clock)))
  {
    var moved := T.Moved(t, to, m, clock);
    assert tb.trades[id := t][id := moved] == tb.trades[id := moved];
  }

  // ---- Walks ----

  /** Ends where Walked says, and succeeds exactly when that is the target, which then lay ahead. */
  method WalkChainTo(store: Store, id: string, target: TradeState, m: Mutation, clock: int) returns (r: WalkResult)
    modifies store
    ensures id !in old(store.trades) ==> store.State() == old(store.State())
    ensures id in old(store.trades) ==>
      store.State() == WithTrade(old(store.State()), id, Walked(old(store.trades[id]), target, m, clock))
    ensures r.Ok? <==> id in store.trades && store.trades[id].state == target
    ensures r.Ok? ==> old(store.trades[id].state) == target || IsAhead(old(store.trades[id].state), target)
  {
    if id !in store.trades {
      return Fail(NoTrade);
    }
    ghost var tb, hops := store.State(), 0;
    ghost var t := tb.trades[id];
    assert tb.trades[id := t] == tb.trades;
    while true
      invariant IsUnderway(t, target, hops)
      invariant store.State() == WithTrade(tb, id, Stage(t, target, m, clock, hops))
      decreases 5 - hops
    {
      var found := store.Resolve(id);
      var trade := found.value;
      StageEnds(t, target, m, clock, hops);
      if trade.state == target {
        return Ok(());
      }
      var index := ChainIndex(trade.state);
      if index < 0 || index + 1 >= |SETTLEMENT_CHAIN| {
        return Fail(CannotReach(trade.state));
      }
      var next := SETTLEMENT_CHAIN[index + 1];
      StageMoves(t, target, m, clock, hops);
      Transitions(tb, id, trade, next, if next == target then m else NoMutation, clock);
      var moved := store.Transition(id, trade.state, next, if next == target then m else NoMutation, clock);
      assert moved.Ok?;
      hops := hops + 1;
    }
  }

  /** Moves a trade to FailedAfterRelease where CanFail says so, by way of ReleaseConfirming if need be. */
  method WalkChainToFailure(store: Store, id: string, clock: int) returns (r: WalkResult)
    modifies store
    ensures id !in old(store.trades) ==> store.State() == old(store.State())
    ensures id in old(store.trades) ==> store.State() == WithTrade(old(store.State()), id, FailedRow(old(store.trades[id]), clock))
    ensures r.Ok? <==> id in store.trades && CanFail(old(store.trades[id].state))
  {
    var found := store.Resolve(id);
    if found.None? {
      return Fail(NoTrade);
    }
    var trade := found.value;
    ghost var tb := store.State();
    assert tb.trades[id := trade] == tb.trades;
    if trade.state == AwaitingRelease {
      Transitions(tb, id, trade, ReleaseConfirming, NoMutation, clock);
      var hopped := store.Transition(id, AwaitingRelease, ReleaseConfirming, NoMutation, clock);
      assert hopped.Ok?;
      found := store.Resolve(id);
      trade := found.value;
    }
    if CanTransitionTo(trade.state, FailedAfterRelease) {
      Transitions(tb, id, trade, FailedAfterRelease, NoMutation, clock);
    }
    var failed := store.Transition(id, trade.state, FailedAfterRelease, NoMutation, clock);
    if failed.Fail? {
      return Fail(Refused(failed.error));
    }
    r := Ok(());
  }

  // ---- What a sweep decides ----

  /** What one sweep sees: the registry, the last macro block, the time, and the signer's reply for each trade it
      answers. */
  datatype View = View(registry: map<string, HandleClaim>, macro: nat, now: UnixTime, answers: map<string, string>) {
    function Answer(id: string): Option<string> {
      if id in answers then Some(answers[id]) else None
    }
  }

  datatype Verdict = Pay(claim: HandleClaim) | Repay | Leave

  function VerdictOf(t: Trade, v: View): Verdict {
    if !(0 <= ChainIndex(t.state) < 4) || t.terms.handle !in v.registry then Leave
    else
      var claim := v.registry[t.terms.handle];
      if claim.blockHeight > v.macro then Leave
      else if OwnedByBuyer(t.terms, claim) then Pay(claim)
      else if OwnedByStranger(t.terms, claim) then Repay
      else Leave
  }

  function ToSettlement(t: Trade, claim: HandleClaim, now: int): Trade {
    Walked(t, SettlementPending, SetClaim(claim.txHash), now)
  }

  function ToRefund(t: Trade, now: int): Trade {
    T.Moved(FailedRow(t, now), RefundPending, NoMutation, now)
  }

  /** The world after one trade has been dealt with. */
  function Handled(w: World, id: string, v: View): World
    requires id in w.tables.trades
  {
    var t := w.tables.trades[id];
    match VerdictOf(t, v)
    case Leave => w
    case Pay(claim) => Paid(w.(tables := WithTrade(w.tables, id, ToSettlement(t, claim, v.now))), id, v.now, v.Answer(id))
    case Repay => Repaid(w.(tables := WithTrade(w.tables, id, ToRefund(t, v.now))), id, v.now, v.Answer(id))
  }

  /** The world after these trades have been dealt with, one after the other. */
  function HandledAll(w: World, ids: seq<string>, v: View): World {
    if |ids| == 0 then w
    else
      var prior, id := HandledAll(w, ids[..|ids| - 1], v), ids[|ids| - 1];
      if id in prior.tables.trades then Handled(prior, id, v) else prior
  }

  lemma HandlesOneMore(w: World, ids: seq<string>, id: string, v: View)
    requires id in HandledAll(w, ids, v).tables.trades
    ensures HandledAll(w, ids + [id], v) == Handled(HandledAll(w, ids, v), id, v)
  {
    assert (ids + [id])[..|ids|] == ids;
  }

  /** The states the sweep looks for. */
  predicate IsBeforeSettlement(s: TradeState) {
    s.AwaitingRelease? || s.ReleaseConfirming? || s.AwaitingClaim? || s.ClaimConfirming?
  }

  /** Settled against one send of the price less the fee to the seller, both booked. */
  ghost predicate PaysSellerOnce(before: World, after: World, id: string, claim: HandleClaim, now: int)
    requires id in before.tables.trades && id in after.tables.trades
  {
    var t, t' := before.tables.trades[id], after.tables.trades[id];
    && t'.state == Settled && t'.terms == t.terms && t'.claimTxHash == claim.txHash && t.terms.fee <= t.terms.price
    && exists to: string ::
         && Compact(to) == Compact(t.terms.seller)
         && NewBooks(before, after, id, [Send(id, Payout, to, t.terms.price - t.terms.fee)],
                     [L.Entry(id, L.PayoutEntry, t.terms.fee - t.terms.price, t'.payout.txHash, now), L.Entry(id, L.FeeEntry, 0 - t.terms.fee, "", now)])
  }

  /** Refunded against one send of the price to the buyer, booked. */
  ghost predicate RepaysBuyerOnce(before: World, after: World, id: string, now: int)
    requires id in before.tables.trades && id in after.tables.trades
  {
    var t, t' := before.tables.trades[id], after.tables.trades[id];
    && t'.state == Refunded && t'.terms == t.terms
    && exists to: string ::
         && Compact(to) == Compact(t.terms.buyer)
         && NewBooks(before, after, id, [Send(id, Refund, to, t.terms.price)],
                     [L.Entry(id, L.RefundEntry, 0 - t.terms.price, t'.refund.txHash, now)])
  }

  /** What a sweep without errors makes of a trade, by the owner of its handle: a trade before settlement is paid out
      if a final claim makes the buyer the owner and refunded if it makes a third party the owner. Everything else
      stays as it was. */
  ghost predicate EndsByOwner(before: World, after: World, id: string, v: View)
    requires id in before.tables.trades && id in after.tables.trades
  {
    var t := before.tables.trades[id];
    if IsBeforeSettlement(t.state) && t.terms.handle in v.registry && v.registry[t.terms.handle].blockHeight <= v.macro then
      var claim := v.registry[t.terms.handle];
      if Compact(claim.address) == Compact(t.terms.buyer) then
        PaysSellerOnce(before, after, id, claim, v.now) && id in v.answers && after.tables.trades[id].payout.txHash == v.answers[id]
      else if Compact(claim.address) != Compact(t.terms.seller) then
        RepaysBuyerOnce(before, after, id, v.now) && id in v.answers && after.tables.trades[id].refund.txHash == v.answers[id]
      else IsUntouched(before, after, id)
    else IsUntouched(before, after, id)
  }

  lemma DealtByOwner(before: World, after: World, id: string, v: View)
    requires id in before.tables.trades && id in after.tables.trades && IsDealtWith(before, after, id, v)
    ensures EndsByOwner(before, after, id, v)
  {
    var t := before.tables.trades[id];
    Addresses.ForRPCKeepsAddress(t.terms.seller);
    Addresses.ForRPCKeepsAddress(t.terms.buyer);
  }

  /** One trade before and after a sweep that dealt with it without an error. */
  ghost predicate IsDealtWith(before: World, after: World, id: string, v: View)
    requires id in before.tables.trades && id in after.tables.trades
  {
    var t, t' := before.tables.trades[id], after.tables.trades[id];
    match VerdictOf(t, v)
    case Leave => t' == t && NewBooks(before, after, id, [], [])
    case Pay(claim) =>
      && id in v.answers && t.terms.fee <= t.terms.price
      && t'.state == Settled && t'.terms == t.terms && t'.deposit == t.deposit && t'.claimTxHash == claim.txHash
      && t'.payout == Attempt(v.now, v.answers[id]) && t'.refund == t.refund
      && NewBooks(before, after, id, [PayoutSend(id, t.terms)],
                  [PayoutLine(id, t.terms, v.now, v.answers[id]), FeeLine(id, t.terms, v.now)])
    case Repay =>
      && id in v.answers
      && t'.state == Refunded && t'.terms == t.terms && t'.deposit == t.deposit
      && t'.refund == Attempt(v.now, v.answers[id]) && t'.payout == t.payout
      && NewBooks(before, after, id, [RefundSendOf(id, t.terms)], [RefundLine(id, t.terms, v.now, v.answers[id])])
  }

  /** What the signer and the ledger have seen of a trade since. */
  ghost predicate NewBooks(before: World, after: World, id: string, sent: seq<Send>, lines: seq<L.Entry>) {
    && SendsOf(after.sends, id) == SendsOf(before.sends, id) + sent
    && L.EntriesOf(after.ledger, id) == L.EntriesOf(before.ledger, id) + lines
  }

  ghost predicate IsUntouched(before: World, after: World, id: string)
    requires id in before.tables.trades && id in after.tables.trades
  {
    after.tables.trades[id] == before.tables.trades[id] && NewBooks(before, after, id, [], [])
  }

  ghost predicate IsAccountedFor(before: World, after: World, id: string, isDone: bool, v: View)
    requires id in before.tables.trades && id in after.tables.trades
  {
    if isDone then IsDealtWith(before, after, id, v) else IsUntouched(before, after, id)
  }

  /** A sweep in progress: the trades it is done with, and all others. */
  ghost predicate IsSwept(before: World, after: World, done: set<string>, v: View) {
    && after.tables.trades.Keys == before.tables.trades.Keys
    && after.tables.listings == before.tables.listings && after.tables.nonces == before.tables.nonces
    && forall id :: id in before.tables.trades ==> IsAccountedFor(before, after, id, id in done, v)
  }

  /** Every trade of a swept world has ended by its handle's owner. */
  lemma SweptByOwner(before: World, after: World, v: View)
    requires IsSwept(before, after, Early(before.tables, 4), v)
    ensures forall id :: id in before.tables.trades ==> EndsByOwner(before, after, id, v)
  {
    forall id | id in before.tables.trades
      ensures EndsByOwner(before, after, id, v)
    {
      assert IsAccountedFor(before, after, id, id in Early(before.tables, 4), v);
      if id in Early(before.tables, 4) {
        DealtByOwner(before, after, id, v);
      }
    }
  }

  // ---- One trade at a time ----

  ghost predicate OnlyTouches(w: World, w': World, id: string) {
    && w'.tables.trades.Keys == w.tables.trades.Keys
    && w'.tables.listings == w.tables.listings && w'.tables.nonces == w.tables.nonces
    && (forall k :: k in w.tables.trades && k != id ==> w'.tables.trades[k] == w.tables.trades[k])
    && (forall k :: k != id ==> NewBooks(w, w', k, [], []))
  }

  predicate BooksOf(id: string, sent: seq<Send>, lines: seq<L.Entry>) {
    && |sent| <= 1 && (|sent| == 1 ==> sent[0].tradeId == id)
    && |lines| <= 2 && (|lines| > 0 ==> lines[0].tradeId == id) && (|lines| == 2 ==> lines[1].tradeId == id)
  }

  lemma SendsGrow(sends: seq<Send>, sent: seq<Send>, id: string, k: string)
    requires |sent| <= 1 && (|sent| == 1 ==> sent[0].tradeId == id)
    ensures SendsOf(sends + sent, k) == SendsOf(sends, k) + (if k == id then sent else [])
  {
    if |sent| == 1 {
      assert sent == [sent[0]];
      SentOnce(sends, sent[0], k);
    } else {
      assert sends + sent == sends && SendsOf(sends, k) + [] == SendsOf(sends, k);
    }
  }

  lemma {:induction false} LinesGrow(ledger: seq<L.Entry>, lines: seq<L.Entry>, id: string, k: string)
    requires forall i :: 0 <= i < |lines| ==> lines[i].tradeId == id
    ensures L.EntriesOf(ledger + lines, k) == L.EntriesOf(ledger, k) + (if k == id then lines else [])
  {
    if |lines| == 0 {
      assert ledger + lines == ledger && L.EntriesOf(ledger, k) + [] == L.EntriesOf(ledger, k);
    } else {
      var init, last := lines[..|lines| - 1], lines[|lines| - 1];
      LinesGrow(ledger, init, id, k);
      L.Appended(ledger + init, last, k);
      assert ledger + lines == (ledger + init) + [last] && lines == init + [last];
    }
  }

  lemma RowOnly(w: World, id: string, t: Trade, sent: seq<Send>, lines: seq<L.Entry>)
    requires id in w.tables.trades && BooksOf(id, sent, lines)
    ensures var w' := w.(tables := WithTrade(w.tables, id, t), sends := w.sends + sent, ledger := w.ledger + lines);
            OnlyTouches(w, w', id) && NewBooks(w, w', id, sent, lines)
  {
    var w' := w.(tables := WithTrade(w.tables, id, t), sends := w.sends + sent, ledger := w.ledger + lines);
    SendsGrow(w.sends, sent, id, id);
    LinesGrow(w.ledger, lines, id, id);
    forall k | k != id
      ensures NewBooks(w, w', k, [], [])
    {
      SendsGrow(w.sends, sent, id, k);
      LinesGrow(w.ledger, lines, id, k);
    }
  }

  function PayoutLines(id: string, terms: Terms, v: View): seq<L.Entry> {
    match v.Answer(id) case None => [] case Some(h) => [PayoutLine(id, terms, v.now, h), FeeLine(id, terms, v.now)]
  }

  function RefundLines(id: string, terms: Terms, v: View): seq<L.Entry> {
    match v.Answer(id) case None => [] case Some(h) => [RefundLine(id, terms, v.now, h)]
  }

  lemma PaysOutShape(w: World, id: string, claim: HandleClaim, v: View)
    requires id in w.tables.trades && VerdictOf(w.tables.trades[id], v) == Pay(claim)
    ensures var t := w.tables.trades[id]; var walked := ToSettlement(t, claim, v.now);
            Handled(w, id, v) ==
              if IsPayable(walked)
              then w.(tables := WithTrade(w.tables, id, PaidRow(walked, v.now, v.Answer(id))),
                      sends := w.sends + [PayoutSend(id, t.terms)], ledger := w.ledger + PayoutLines(id, t.terms, v))
              else w.(tables := WithTrade(w.tables, id, walked))
  {
    var walked := ToSettlement(w.tables.trades[id], claim, v.now);
    var paid := PaidRow(walked, v.now, v.Answer(id));
    assert w.tables.trades[id := walked][id := paid] == w.tables.trades[id := paid];
  }

  lemma PaysBackShape(w: World, id: string, v: View)
    requires id in w.tables.trades && VerdictOf(w.tables.trades[id], v) == Repay
    ensures var t := w.tables.trades[id]; var failed := ToRefund(t, v.now);
            Handled(w, id, v) ==
              if IsRefundable(failed)
              then w.(tables := WithTrade(w.tables, id, RepaidRow(failed, v.now, v.Answer(id))),
                      sends := w.sends + [RefundSendOf(id, t.terms)], ledger := w.ledger + RefundLines(id, t.terms, v))
              else w.(tables := WithTrade(w.tables, id, failed))
  {
    var failed := ToRefund(w.tables.trades[id], v.now);
    var repaid := RepaidRow(failed, v.now, v.Answer(id));
    assert w.tables.trades[id := failed][id := repaid] == w.tables.trades[id := repaid];
  }

  lemma RowChanged(w: World, id: string, t: Trade)
    requires id in w.tables.trades
    ensures OnlyTouches(w, w.(tables := WithTrade(w.tables, id, t)), id)
  {
    RowOnly(w, id, t, [], []);
    assert w.sends + [] == w.sends && w.ledger + [] == w.ledger;
  }

  /** How a payout of a trade just walked to settlement ends. */
  lemma PaysOut(w: World, id: string, claim: HandleClaim, v: View)
    requires id in w.tables.trades && VerdictOf(w.tables.trades[id], v) == Pay(claim)
    ensures OnlyTouches(w, Handled(w, id, v), id)
    ensures Handled(w, id, v).tables.trades[id].state == Settled ==> IsDealtWith(w, Handled(w, id, v), id, v)
  {
    var t := w.tables.trades[id];
    var walked := ToSettlement(t, claim, v.now);
    PaysOutShape(w, id, claim, v);
    if IsPayable(walked) {
      RowOnly(w, id, PaidRow(walked, v.now, v.Answer(id)), [PayoutSend(id, t.terms)], PayoutLines(id, t.terms, v));
    } else {
      RowChanged(w, id, walked);
    }
  }

  lemma PaysBack(w: World, id: string, v: View)
    requires id in w.tables.trades && VerdictOf(w.tables.trades[id], v) == Repay
    ensures OnlyTouches(w, Handled(w, id, v), id)
    ensures Handled(w, id, v).tables.trades[id].state == Refunded ==> IsDealtWith(w, Handled(w, id, v), id, v)
  {
    var t := w.tables.trades[id];
    var failed := ToRefund(t, v.now);
    PaysBackShape(w, id, v);
    if IsRefundable(failed) {
      RowOnly(w, id, RepaidRow(failed, v.now, v.Answer(id)), [RefundSendOf(id, t.terms)], RefundLines(id, t.terms, v));
    } else {
      RowChanged(w, id, failed);
    }
  }

  /** No error was reported for a trade. */
  predicate WentWell(w: World, id: string, v: View)
    requires id in w.tables.trades
  {
    match VerdictOf(w.tables.trades[id], v)
    case Leave => true
    case Pay(_) => Handled(w, id, v).tables.trades[id].state == Settled
    case Repay => Handled(w, id, v).tables.trades[id].state == Refunded
  }

  /** A trade whose row is in order goes well exactly when the signer answers for it if its handle's owner is known,
      final and not the seller, and, if that owner is the buyer, its fee does not exceed its price. */
  lemma WellWhenAnswered(w: World, id: string, v: View)
    requires id in w.tables.trades && MarksOk(w.tables.trades[id])
    ensures var t := w.tables.trades[id];
      WentWell(w, id, v) <==>
        (IsBeforeSettlement(t.state) && t.terms.handle in v.registry && v.registry[t.terms.handle].blockHeight <= v.macro ==>
          var owner := Compact(v.registry[t.terms.handle].address);
          && (owner == Compact(t.terms.buyer) ==> id in v.answers && t.terms.fee <= t.terms.price)
          && (owner != Compact(t.terms.buyer) && owner != Compact(t.terms.seller) ==> id in v.answers))
  {
    var t := w.tables.trades[id];
    match VerdictOf(t, v)
    case Leave =>
    case Pay(claim) => assert ToSettlement(t, claim, v.now).state.SettlementPending? && ToSettlement(t, claim, v.now).payout == t.payout;
    case Repay => assert ToRefund(t, v.now).state.RefundPending? && ToRefund(t, v.now).refund == t.refund;
  }

  lemma SameBooks(w: World, w': World)
    requires w'.sends == w.sends && w'.ledger == w.ledger
    ensures forall k :: NewBooks(w, w', k, [], [])
  {
    assert forall k :: SendsOf(w.sends, k) + [] == SendsOf(w.sends, k) && L.EntriesOf(w.ledger, k) + [] == L.EntriesOf(w.ledger, k);
  }

  lemma HandledDeals(w: World, id: string, v: View)
    requires id in w.tables.trades
    ensures OnlyTouches(w, Handled(w, id, v), id)
    ensures WentWell(w, id, v) ==> IsDealtWith(w, Handled(w, id, v), id, v)
  {
    match VerdictOf(w.tables.trades[id], v)
    case Leave => SameBooks(w, w);
    case Pay(claim) => PaysOut(w, id, claim, v);
    case Repay => PaysBack(w, id, v);
  }

  lemma OtherKept(before: World, w: World, w': World, k: string, isDone: bool, v: View)
    requires k in before.tables.trades && k in w.tables.trades && k in w'.tables.trades
    requires w'.tables.trades[k] == w.tables.trades[k] && NewBooks(w, w', k, [], [])
    requires IsAccountedFor(before, w, k, isDone, v)
    ensures IsAccountedFor(before, w', k, isDone, v)
  {
    assert SendsOf(w.sends, k) + [] == SendsOf(w.sends, k) && L.EntriesOf(w.ledger, k) + [] == L.EntriesOf(w.ledger, k);
  }

  lemma JustDealt(before: World, w: World, w': World, id: string, v: View)
    requires id in before.tables.trades && id in w.tables.trades && id in w'.tables.trades
    requires IsUntouched(before, w, id) && IsDealtWith(w, w', id, v)
    ensures IsAccountedFor(before, w', id, true, v)
  {
    assert SendsOf(before.sends, id) + [] == SendsOf(before.sends, id) && L.EntriesOf(before.ledger, id) + [] == L.EntriesOf(before.ledger, id);
  }

  lemma SweepsOne(before: World, w: World, done: set<string>, id: string, v: View)
    requires IsSwept(before, w, done, v) && id in before.tables.trades && id !in done && WentWell(w, id, v)
    ensures IsSwept(before, Handled(w, id, v), done + {id}, v)
  {
    var w' := Handled(w, id, v);
    HandledDeals(w, id, v);
    assert IsAccountedFor(before, w, id, false, v);
    JustDealt(before, w, w', id, v);
    forall k | k in before.tables.trades
      ensures IsAccountedFor(before, w', k, k in done + {id}, v)
    {
      if k != id {
        assert IsAccountedFor(before, w, k, k in done, v);
        OtherKept(before, w, w', k, k in done, v);
      }
    }
  }

  // ---- The whole sweep ----

  /** The trades whose state is among the first `n` of the chain. */
  ghost function Early(tb: T.Tables, n: nat): set<string> {
    set id | id in tb.trades && 0 <= ChainIndex(tb.trades[id].state) < n
  }

  /** The trades found in the next state are those that were in it when the sweep began, untouched since. */
  lemma FoundAsBefore(before: World, w: World, i: nat, v: View, id: string)
    requires i < 4 && IsSwept(before, w, Early(before.tables, i), v) && id in before.tables.trades
    ensures w.tables.trades[id].state == SETTLEMENT_CHAIN[i] <==> before.tables.trades[id].state == SETTLEMENT_CHAIN[i]
    ensures before.tables.trades[id].state == SETTLEMENT_CHAIN[i] ==> w.tables.trades[id] == before.tables.trades[id]
  {
    assert IsAccountedFor(before, w, id, id in Early(before.tables, i), v);
  }

  lemma StateDone(rows: seq<Row>, tb: T.Tables, i: nat)
    requires i < 4 && AreRowsOf(rows, tb, SETTLEMENT_CHAIN[i])
    ensures Early(tb, i) + IdsOf(rows) == Early(tb, i + 1)
  {
  }

  lemma OneMoreRow(rows: seq<Row>, j: nat, tb: T.Tables, i: nat)
    requires i < 4 && AreRowsOf(rows, tb, SETTLEMENT_CHAIN[i]) && j < |rows|
    ensures rows[j].id !in Early(tb, i) + IdsOf(rows[..j])
    ensures Early(tb, i) + IdsOf(rows[..j]) + {rows[j].id} == Early(tb, i) + IdsOf(rows[..j + 1])
  {
    IdsOfNext(rows, j);
  }

  /** The sweep ended with the trade whose payment failed, in the order it went through them. */
  ghost predicate BrokeOff(before: World, after: World, v: View) {
    exists w, done, id ::
      && IsSwept(before, w, done, v) && id in w.tables.trades && id !in done
      && !WentWell(w, id, v) && after == Handled(w, id, v)
  }

  lemma Breaks(before: World, w: World, done: set<string>, id: string, v: View)
    requires IsSwept(before, w, done, v) && id in w.tables.trades && id !in done && !WentWell(w, id, v)
    ensures BrokeOff(before, Handled(w, id, v), v)
  {
  }

  /** All these trades would go well if they were dealt with now. */
  ghost predicate AllWell(w: World, ids: set<string>, v: View) {
    forall id :: id in ids && id in w.tables.trades ==> WentWell(w, id, v)
  }

  /** Whether a trade goes well depends on its row only. */
  lemma WellOfRow(w: World, w': World, id: string, v: View)
    requires id in w.tables.trades && id in w'.tables.trades && w'.tables.trades[id] == w.tables.trades[id]
    ensures WentWell(w', id, v) <==> WentWell(w, id, v)
  {
    match VerdictOf(w.tables.trades[id], v)
    case Leave =>
    case Pay(claim) =>
      PaysOutShape(w, id, claim, v);
      PaysOutShape(w', id, claim, v);
    case Repay =>
      PaysBackShape(w, id, v);
      PaysBackShape(w', id, v);
  }

  lemma StillAsFound(before: World, w: World, done: set<string>, v: View, id: string)
    requires IsSwept(before, w, done, v) && id in before.tables.trades && id !in done
    ensures id in w.tables.trades && w.tables.trades[id] == before.tables.trades[id]
  {
    assert IsAccountedFor(before, w, id, false, v);
  }

  /** A sweep in progress: the states it is done with, and the rows of the one it is at. */
  ghost predicate IsGoing(before: World, w: World, states: set<string>, rows: set<string>, order: seq<string>, v: View) {
    IsSwept(before, w, states + rows, v) && AllWell(before, rows, v) && w == HandledAll(before, order, v)
  }

  lemma RowFound(before: World, i: nat, rows: seq<Row>, j: nat)
    requires i < 4 && AreRowsOf(rows, before.tables, SETTLEMENT_CHAIN[i]) && j < |rows|
    ensures rows[j].id in Early(before.tables, 4)
    ensures rows[j].id in before.tables.trades && before.tables.trades[rows[j].id] == rows[j].trade
    ensures 0 <= ChainIndex(rows[j].trade.state) < 4
  {
    ChainNext(SETTLEMENT_CHAIN[i], SETTLEMENT_CHAIN[i]);
  }

  /** The next row of a state is as it was found, and not done yet. */
  lemma RowReady(before: World, w: World, i: nat, rows: seq<Row>, j: nat, order: seq<string>, v: View)
    requires i < 4 && AreRowsOf(rows, before.tables, SETTLEMENT_CHAIN[i]) && j < |rows|
    requires IsGoing(before, w, Early(before.tables, i), IdsOf(rows[..j]), order, v)
    ensures rows[j].id in Early(before.tables, 4) && rows[j].id !in Early(before.tables, i) + IdsOf(rows[..j])
    ensures rows[j].id in before.tables.trades && rows[j].id in w.tables.trades && w.tables.trades[rows[j].id] == rows[j].trade
    ensures 0 <= ChainIndex(rows[j].trade.state) < 4
    ensures WentWell(w, rows[j].id, v) <==> WentWell(before, rows[j].id, v)
    ensures HandledAll(before, order + [rows[j].id], v) == Handled(w, rows[j].id, v)
  {
    RowFound(before, i, rows, j);
    OneMoreRow(rows, j, before.tables, i);
    StillAsFound(before, w, Early(before.tables, i) + IdsOf(rows[..j]), v, rows[j].id);
    WellOfRow(before, w, rows[j].id, v);
    HandlesOneMore(before, order, rows[j].id, v);
  }

  lemma RowDone(before: World, w: World, i: nat, rows: seq<Row>, j: nat, order: seq<string>, v: View)
    requires i < 4 && AreRowsOf(rows, before.tables, SETTLEMENT_CHAIN[i]) && j < |rows|
    requires IsGoing(before, w, Early(before.tables, i), IdsOf(rows[..j]), order, v)
    requires rows[j].id in w.tables.trades && WentWell(w, rows[j].id, v)
    ensures IsGoing(before, Handled(w, rows[j].id, v), Early(before.tables, i), IdsOf(rows[..j + 1]), order + [rows[j].id], v)
  {
    RowReady(before, w, i, rows, j, order, v);
    OneMoreRow(rows, j, before.tables, i);
    IdsOfNext(rows, j);
    SweepsOne(before, w, Early(before.tables, i) + IdsOf(rows[..j]), rows[j].id, v);
  }

  lemma RowFails(before: World, w: World, i: nat, rows: seq<Row>, j: nat, order: seq<string>, v: View)
    requires i < 4 && AreRowsOf(rows, before.tables, SETTLEMENT_CHAIN[i]) && j < |rows|
    requires IsGoing(before, w, Early(before.tables, i), IdsOf(rows[..j]), order, v)
    requires rows[j].id in w.tables.trades && !WentWell(w, rows[j].id, v)
    ensures BrokeOff(before, Handled(w, rows[j].id, v), v) && !AllWell(before, Early(before.tables, 4), v)
    ensures HandledAll(before, order + [rows[j].id], v) == Handled(w, rows[j].id, v)
  {
    RowReady(before, w, i, rows, j, order, v);
    Breaks(before, w, Early(before.tables, i) + IdsOf(rows[..j]), rows[j].id, v);
  }

  datatype SweepError = Rpc | Worker(error: WorkerError)

  type SweepResult = Outcome<(), SweepError>

  class OwnershipWatcher {
    const settlement: SettlementWorker
    var lastSweep: int

    constructor (settlement: SettlementWorker)
      ensures this.settlement == settlement && lastSweep == NEVER
    {
      this.settlement := settlement;
      lastSweep := NEVER;
    }

    ghost function State(): World
      reads settlement.store, settlement.ledger, settlement.signer
    {
      settlement.State()
    }

    /** Deals with one row found on the chain; only the worker's errors are reported. */
    method HandleTrade(row: Row, v: View) returns (r: SweepResult)
      requires row.id in settlement.store.trades && settlement.store.trades[row.id] == row.trade
      requires 0 <= ChainIndex(row.trade.state) < 4
      modifies settlement.store, settlement.ledger, settlement.signer
      ensures State() == Handled(old(State()), row.id, v)
      ensures r.Ok? <==> WentWell(old(State()), row.id, v)
    {
      var store, id, trade := settlement.store, row.id, row.trade;
      if trade.terms.handle !in v.registry {
        return Ok(());
      }
      var claim := v.registry[trade.terms.handle];
      if claim.blockHeight > v.macro {
        return Ok(());
      }
      if Compact(claim.address) == Compact(trade.terms.buyer) {
        var walked := WalkChainTo(store, id, SettlementPending, SetClaim(claim.txHash), v.now);
        assert walked.Ok?;
        var settled := settlement.Settle(id, v.now, v.Answer(id));
        if settled.Fail? {
          return Fail(Worker(settled.error));
        }
      } else if Compact(claim.address) == Compact(trade.terms.seller) {
        return Ok(());
      } else {
        var failed := WalkChainToFailure(store, id, v.now);
        assert failed.Ok?;
        Transitions(old(store.State()), id, FailedRow(trade, v.now), RefundPending, NoMutation, v.now);
        var pending := store.Transition(id, FailedAfterRelease, RefundPending, NoMutation, v.now);
        assert pending.Ok?;
        var refunded := settlement.Refund(id, v.now, v.Answer(id));
        if refunded.Fail? {
          return Fail(Worker(refunded.error));
        }
      }
      r := Ok(());
    }

    /** The inner loop: all rows of one state. */
    method SweepRows(rows: seq<Row>, i: nat, v: View, ghost before: World, ghost first: seq<string>)
      returns (r: SweepResult, ghost order: seq<string>)
      requires i < 4 && AreRowsOf(rows, before.tables, SETTLEMENT_CHAIN[i])
      requires IsGoing(before, State(), Early(before.tables, i), {}, first, v)
      modifies settlement.store, settlement.ledger, settlement.signer
      ensures r.Ok? ==> IsGoing(before, State(), Early(before.tables, i), IdsOf(rows), order, v)
      ensures r.Fail? ==> BrokeOff(before, State(), v) && !AllWell(before, Early(before.tables, 4), v)
      ensures r.Fail? ==> State() == HandledAll(before, order, v)
    {
      var j := 0;
      order := first;
      while j < |rows|
        invariant 0 <= j <= |rows|
        invariant IsGoing(before, State(), Early(before.tables, i), IdsOf(rows[..j]), order, v)
      {
        ghost var w := State();
        RowReady(before, w, i, rows, j, order, v);
        r := HandleTrade(rows[j], v);
        if r.Fail? {
          RowFails(before, w, i, rows, j, order, v);
          order := order + [rows[j].id];
          return;
        }
        RowDone(before, w, i, rows, j, order, v);
        order := order + [rows[j].id];
        j := j + 1;
      }
      assert rows[..|rows|] == rows;
      r := Ok(());
    }

    /** The outer loop: all states of the chain but the last. */
    method SweepChain(v: View, ghost before: World) returns (r: SweepResult, ghost order: seq<string>)
      requires before == State()
      modifies settlement.store, settlement.ledger, settlement.signer
      ensures r.Ok? ==> IsSwept(before, State(), Early(before.tables, 4), v)
      ensures r.Fail? ==> BrokeOff(before, State(), v)
      ensures r.Ok? <==> AllWell(before, Early(before.tables, 4), v)
      ensures State() == HandledAll(before, order, v)
    {
      NothingSwept(before, v);
      var i := 0;
      order := [];
      while i < |SETTLEMENT_CHAIN| - 1
        invariant 0 <= i <= 4
        invariant IsGoing(before, State(), Early(before.tables, i), {}, order, v)
        invariant AllWell(before, Early(before.tables, i), v)
      {
        var rows := settlement.store.TradesInState(SETTLEMENT_CHAIN[i]);
        FoundRows(before, State(), i, v, rows, settlement.store);
        r, order := SweepRows(rows, i, v, before, order);
        if r.Fail? {
          return;
        }
        StateGoes(before, State(), rows, i, order, v);
        i := i + 1;
      }
      r := Ok(());
    }

    /** Goes once over the trades of each state of the chain. Without an error every trade that was on the chain
        is dealt with exactly once; a worker's error ends the sweep right after the trade it concerns. There is
        none exactly if each of those trades would have gone well by itself. The trades are dealt with in some
        order, one after the other. */
    method Sweep(v: View, macro: Option<nat>) returns (r: SweepResult, ghost order: seq<string>)
      requires macro.Some? ==> macro.value == v.macro
      modifies this, settlement.store, settlement.ledger, settlement.signer
      ensures v.now - old(lastSweep) < SWEEP_COOLDOWN_SECONDS || macro.None? ==>
        && State() == old(State()) && lastSweep == old(lastSweep)
        && (r.Ok? <==> v.now - old(lastSweep) < SWEEP_COOLDOWN_SECONDS)
      ensures v.now - old(lastSweep) >= SWEEP_COOLDOWN_SECONDS && macro.Some? ==>
        && lastSweep == v.now
        && (r.Ok? <==> AllWell(old(State()), Early(old(State()).tables, 4), v))
        && (r.Ok? ==> IsSwept(old(State()), State(), Early(old(State()).tables, 4), v))
        && (r.Ok? ==> forall id :: id in old(State()).tables.trades ==> EndsByOwner(old(State()), State(), id, v))
        && (r.Fail? ==> BrokeOff(old(State()), State(), v))
      ensures State() == HandledAll(old(State()), order, v)
    {
      order := [];
      if v.now - lastSweep < SWEEP_COOLDOWN_SECONDS {
        r := Ok(());
        return;
      }
      if macro.None? {
        r := Fail(Rpc);
        return;
      }
      lastSweep := v.now;
      ghost var before := State();
      r, order := SweepChain(v, before);
      if r.Ok? {
        SweptByOwner(before, State(), v);
      }
    }
  }

  lemma IdsOfNext(rows: seq<Row>, j: nat)
    requires j < |rows|
    ensures IdsOf(rows[..j + 1]) == IdsOf(rows[..j]) + {rows[j].id}
  {
    assert rows[..j + 1] == rows[..j] + [rows[j]];
    IdsOfMore(rows[..j], rows[j]);
  }

  lemma NothingSwept(before: World, v: View)
    ensures IsGoing(before, before, Early(before.tables, 0), {}, [], v)
  {
    SameBooks(before, before);
  }

  lemma StateGoes(before: World, w: World, rows: seq<Row>, i: nat, order: seq<string>, v: View)
    requires i < 4 && AreRowsOf(rows, before.tables, SETTLEMENT_CHAIN[i]) && AllWell(before, Early(before.tables, i), v)
    requires IsGoing(before, w, Early(before.tables, i), IdsOf(rows), order, v)
    ensures IsGoing(before, w, Early(before.tables, i + 1), {}, order, v) && AllWell(before, Early(before.tables, i + 1), v)
  {
    StateDone(rows, before.tables, i);
    assert Early(before.tables, i + 1) + {} == Early(before.tables, i + 1);
  }

  lemma FoundRows(before: World, w: World, i: nat, v: View, rows: seq<Row>, store: Store)
    requires i < 4 && IsSwept(before, w, Early(before.tables, i) + {}, v)
    requires w.tables == store.State() && AreRowsOf(rows, w.tables, SETTLEMENT_CHAIN[i])
    ensures AreRowsOf(rows, before.tables, SETTLEMENT_CHAIN[i])
  {
    assert Early(before.tables, i) + {} == Early(before.tables, i);
    forall id | id in before.tables.trades
      ensures w.tables.trades[id].state == SETTLEMENT_CHAIN[i] <==> before.tables.trades[id].state == SETTLEMENT_CHAIN[i]
      ensures before.tables.trades[id].state == SETTLEMENT_CHAIN[i] ==> w.tables.trades[id] == before.tables.trades[id]
    {
      FoundAsBefore(before, w, i, v, id);
    }
  }
}
