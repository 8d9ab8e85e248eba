/** What the ownership watcher does with one trade is a run of the protocol: its walk, step by step, and then the
    settlement worker's task. */
module OwnershipRefinement {
  import opened Wrappers
  import opened Trades
  import opened AddressText
  import opened ChainTypes
  import opened EscrowSystem
  import opened EscrowInvariant
  import opened EscrowSteps
  import opened EscrowRuns
  import opened EscrowHistory
  import opened SettlementWorkers
  import opened SettlementRefinement
  import opened OwnershipWatching
  import T = MarketplaceTables

  lemma Prepended(a: Point, points: seq<Point>, io: Io, last: World)
    requires IsExecution(points, io, last) && Goes(a, io, points[0])
    ensures IsExecution([a] + points, io, last)
  {
    var all := [a] + points;
    forall i | 0 <= i < |all| - 1
      ensures Goes(all[i], io, all[i + 1])
    {
      if i > 0 {
        assert all[i] == points[i - 1] && all[i + 1] == points[i];
      }
    }
  }

  function WorldWith(w: World, id: string, t: Trade): World {
    w.(tables := WithTrade(w.tables, id, t))
  }

  // ---- The buyer owns the handle ----

  lemma WalkLooks(w: World, id: string, claim: HandleClaim, io: Io)
    requires id in w.tables.trades && 0 <= ChainIndex(w.tables.trades[id].state)
    ensures var state := w.tables.trades[id].state;
            Goes(Point(w, WalkRead(id, claim)), io, Point(w, if state.SettlementPending? then SettleRead(id) else WalkHop(id, state, claim)))
  {
  }

  /** One hop of the walk to settlement. */
  function Hop(t: Trade, claim: HandleClaim, now: int): Trade
    requires 0 <= ChainIndex(t.state) < 4
  {
    var next := SETTLEMENT_CHAIN[ChainIndex(t.state) + 1];
    T.Moved(t, next, if next.SettlementPending? then SetClaim(claim.txHash) else NoMutation, now)
  }

  lemma WalkHops(w: World, id: string, claim: HandleClaim, io: Io)
    requires id in w.tables.trades && 0 <= ChainIndex(w.tables.trades[id].state) < 4
    ensures var t := w.tables.trades[id];
            Goes(Point(w, WalkHop(id, t.state, claim)), io, Point(WorldWith(w, id, Hop(t, claim, io.clock)), WalkRead(id, claim)))
  {
  }

  lemma HopsOn(t: Trade, claim: HandleClaim, now: int)
    requires 0 <= ChainIndex(t.state) < 4
    ensures ChainIndex(Hop(t, claim, now).state) == ChainIndex(t.state) + 1
    ensures ToSettlement(Hop(t, claim, now), claim, now) == ToSettlement(t, claim, now)
  {
  }

  lemma SameRow(w: World, id: string, a: Trade, b: Trade)
    ensures WorldWith(WorldWith(w, id, a), id, b) == WorldWith(w, id, b)
    ensures id in w.tables.trades ==> WorldWith(w, id, w.tables.trades[id]) == w
  {
    assert w.tables.trades[id := a][id := b] == w.tables.trades[id := b];
    if id in w.tables.trades {
      assert w.tables.trades[id := w.tables.trades[id]] == w.tables.trades;
    }
  }

  lemma {:induction false} WalkIsExecution(w: World, id: string, claim: HandleClaim, io: Io) returns (points: seq<Point>)
    requires id in w.tables.trades && 0 <= ChainIndex(w.tables.trades[id].state)
    ensures var t := w.tables.trades[id];
            IsExecution(points, io, Paid(WorldWith(w, id, ToSettlement(t, claim, io.clock)), id, io.clock, io.signed))
    ensures points[0] == Point(w, WalkRead(id, claim))
    decreases 4 - ChainIndex(w.tables.trades[id].state)
  {
    var t := w.tables.trades[id];
    WalkLooks(w, id, claim, io);
    if t.state.SettlementPending? {
      SameRow(w, id, t, t);
      points := PaidIsExecution(w, id, io.clock, io.signed);
    } else {
      var t' := Hop(t, claim, io.clock);
      WalkHops(w, id, claim, io);
      HopsOn(t, claim, io.clock);
      SameRow(w, id, t', ToSettlement(t, claim, io.clock));
      points := WalkIsExecution(WorldWith(w, id, t'), id, claim, io);
      var last := Paid(WorldWith(w, id, ToSettlement(t, claim, io.clock)), id, io.clock, io.signed);
      Prepended(Point(w, WalkHop(id, t.state, claim)), points, io, last);
      points := [Point(w, WalkHop(id, t.state, claim))] + points;
    }
    Prepended(Point(w, WalkRead(id, claim)), points, io, Paid(WorldWith(w, id, ToSettlement(t, claim, io.clock)), id, io.clock, io.signed));
    points := [Point(w, WalkRead(id, claim))] + points;
  }

  // ---- A stranger owns the handle ----

  lemma FailureMoves(w: World, id: string, claim: HandleClaim, io: Io)
    requires id in w.tables.trades && 0 < ChainIndex(w.tables.trades[id].state) < 4
    ensures var t := w.tables.trades[id]; var failed := T.Moved(t, FailedAfterRelease, NoMutation, io.clock);
      && Goes(Point(w, FailHop(id, t.state, claim)), io, Point(WorldWith(w, id, failed), FailToRefund(id)))
      && Goes(Point(WorldWith(w, id, failed), FailToRefund(id)), io,
              Point(WorldWith(w, id, T.Moved(failed, RefundPending, NoMutation, io.clock)), RefundRead(id)))
  {
    var t := w.tables.trades[id];
    var failed := T.Moved(t, FailedAfterRelease, NoMutation, io.clock);
    SameRow(w, id, failed, T.Moved(failed, RefundPending, NoMutation, io.clock));
  }

  lemma FirstHop(w: World, id: string, claim: HandleClaim, io: Io)
    requires id in w.tables.trades && w.tables.trades[id].state.AwaitingRelease?
    ensures var w' := WorldWith(w, id, T.Moved(w.tables.trades[id], ReleaseConfirming, NoMutation, io.clock));
      && Goes(Point(w, FailRead(id, claim)), io, Point(w, FailFirstHop(id, claim)))
      && Goes(Point(w, FailFirstHop(id, claim)), io, Point(w', FailReread(id, claim)))
      && Goes(Point(w', FailReread(id, claim)), io, Point(w', FailHop(id, ReleaseConfirming, claim)))
  {
  }

  lemma FailureIsExecution(w: World, id: string, claim: HandleClaim, io: Io) returns (points: seq<Point>)
    requires id in w.tables.trades && 0 < ChainIndex(w.tables.trades[id].state) < 4
    ensures var t := w.tables.trades[id];
            IsExecution(points, io, Repaid(WorldWith(w, id, ToRefund(t, io.clock)), id, io.clock, io.signed))
    ensures points[0] == Point(w, FailHop(id, w.tables.trades[id].state, claim))
  {
    var t := w.tables.trades[id];
    var failed := T.Moved(t, FailedAfterRelease, NoMutation, io.clock);
    var last := Repaid(WorldWith(w, id, ToRefund(t, io.clock)), id, io.clock, io.signed);
    FailureMoves(w, id, claim, io);
    assert T.Moved(failed, RefundPending, NoMutation, io.clock) == ToRefund(t, io.clock);
    points := RepaidIsExecution(WorldWith(w, id, ToRefund(t, io.clock)), id, io.clock, io.signed);
    Prepended(Point(WorldWith(w, id, failed), FailToRefund(id)), points, io, last);
    points := [Point(WorldWith(w, id, failed), FailToRefund(id))] + points;
    Prepended(Point(w, FailHop(id, t.state, claim)), points, io, last);
    points := [Point(w, FailHop(id, t.state, claim))] + points;
  }

  lemma RefusalIsExecution(w: World, id: string, claim: HandleClaim, io: Io) returns (points: seq<Point>)
    requires id in w.tables.trades && 0 <= ChainIndex(w.tables.trades[id].state) < 4
    ensures var t := w.tables.trades[id];
            IsExecution(points, io, Repaid(WorldWith(w, id, ToRefund(t, io.clock)), id, io.clock, io.signed))
    ensures points[0] == Point(w, FailRead(id, claim))
  {
    var t := w.tables.trades[id];
    var last := Repaid(WorldWith(w, id, ToRefund(t, io.clock)), id, io.clock, io.signed);
    if t.state.AwaitingRelease? {
      var hopped := T.Moved(t, ReleaseConfirming, NoMutation, io.clock);
      var w' := WorldWith(w, id, hopped);
      FirstHop(w, id, claim, io);
      assert ToRefund(hopped, io.clock) == ToRefund(t, io.clock);
      SameRow(w, id, hopped, ToRefund(t, io.clock));
      points := FailureIsExecution(w', id, claim, io);
      Prepended(Point(w', FailReread(id, claim)), points, io, last);
      points := [Point(w', FailReread(id, claim))] + points;
      Prepended(Point(w, FailFirstHop(id, claim)), points, io, last);
      points := [Point(w, FailFirstHop(id, claim))] + points;
    } else {
      points := FailureIsExecution(w, id, claim, io);
      assert Goes(Point(w, FailRead(id, claim)), io, points[0]);
    }
    Prepended(Point(w, FailRead(id, claim)), points, io, last);
    points := [Point(w, FailRead(id, claim))] + points;
  }

  // ---- Whole trades ----

  /** The watcher sees the system's registry and its last macro block. */
  predicate Sees(v: View, s: System) {
    v.registry == s.registry && v.macro == s.chain.macro
  }

  /** The task the watcher runs for a trade. */
  function WatcherTask(id: string, t: Trade, v: View): Task
    requires t.terms.handle in v.registry
  {
    if OwnedByBuyer(t.terms, v.registry[t.terms.handle]) then WalkRead(id, v.registry[t.terms.handle])
    else FailRead(id, v.registry[t.terms.handle])
  }

  lemma HandledIsExecution(w: World, id: string, v: View) returns (points: seq<Point>)
    requires id in w.tables.trades && !VerdictOf(w.tables.trades[id], v).Leave?
    ensures IsExecution(points, Io(v.now, v.Answer(id)), Handled(w, id, v))
    ensures points[0] == Point(w, WatcherTask(id, w.tables.trades[id], v))
  {
    var t, io := w.tables.trades[id], Io(v.now, v.Answer(id));
    match VerdictOf(t, v)
    case Pay(claim) => points := WalkIsExecution(w, id, claim, io);
    case Repay => points := RefusalIsExecution(w, id, v.registry[t.terms.handle], io);
  }

  lemma StartsWatching(s: System, pid: nat, id: string, v: View)
    requires pid !in s.tasks && Sees(v, s) && id in s.world.tables.trades
    requires !VerdictOf(s.world.tables.trades[id], v).Leave?
    ensures var t := s.world.tables.trades[id]; var claim := v.registry[t.terms.handle]; var task := WatcherTask(id, t, v);
            Next(s, Start(pid, task)) == At(s.(resolved := s.resolved + {Resolution(t.terms.handle, claim)}), pid, Point(s.world, task))
  {
  }

  /** A fresh task number. */
  lemma {:induction false} FreshPid(pids: set<nat>) returns (pid: nat)
    ensures forall p :: p in pids ==> p < pid
  {
    if pids == {} {
      pid := 0;
    } else {
      var p :| p in pids;
      var q := FreshPid(pids - {p});
      pid := if p < q then q else p + 1;
      assert pids == pids - {p} + {p};
    }
  }

  /** What the watcher does with one trade, in any state of the system. */
  lemma HandledIsRun(s: System, pid: nat, id: string, v: View) returns (events: seq<Event>)
    requires pid !in s.tasks && Sees(v, s) && id in s.world.tables.trades
    requires !VerdictOf(s.world.tables.trades[id], v).Leave?
    ensures var t := s.world.tables.trades[id];
            Run(s, events) == s.(world := Handled(s.world, id, v),
                                 resolved := s.resolved + {Resolution(t.terms.handle, v.registry[t.terms.handle])})
  {
    var t, io := s.world.tables.trades[id], Io(v.now, v.Answer(id));
    var begin := [Start(pid, WatcherTask(id, t, v))];
    var s' := s.(resolved := s.resolved + {Resolution(t.terms.handle, v.registry[t.terms.handle])});
    var points := HandledIsExecution(s.world, id, v);
    StartsWatching(s, pid, id, v);
    assert begin[..0] == [];
    assert Run(s, begin) == At(s', pid, points[0]);
    ExecutionIsRun(s', pid, points, io, Handled(s.world, id, v));
    events := begin + Advances(pid, io, |points|);
    RunOn(s, begin, Advances(pid, io, |points|));
  }

  /** A state of the system that differs from another in the world, and in what the watcher has acted on. */
  ghost predicate OnlyWorldMoved(s: System, s': System) {
    s' == s.(world := s'.world, resolved := s'.resolved)
  }

  lemma HandlesInTurn(s: System, pid: nat, id: string, v: View) returns (events: seq<Event>)
    requires pid !in s.tasks && Sees(v, s) && id in s.world.tables.trades
    ensures OnlyWorldMoved(s, Run(s, events)) && Run(s, events).world == Handled(s.world, id, v)
  {
    if VerdictOf(s.world.tables.trades[id], v).Leave? {
      events := [];
    } else {
      events := HandledIsRun(s, pid, id, v);
    }
  }

  /** Dealing with trades one after the other, in any order and from any state of the system, is a run: so a whole
      sweep of the ownership watcher is one, whether it goes through or breaks off. */
  lemma {:induction false} SweepIsRun(s: System, order: seq<string>, v: View) returns (events: seq<Event>)
    requires Sees(v, s)
    ensures OnlyWorldMoved(s, Run(s, events)) && Run(s, events).world == HandledAll(s.world, order, v)
  {
    if |order| == 0 {
      events := [];
    } else {
      var id := order[|order| - 1];
      events := SweepIsRun(s, order[..|order| - 1], v);
      var prior := Run(s, events);
      if id in prior.world.tables.trades {
        var pid := FreshPid(s.tasks.Keys);
        var rest := HandlesInTurn(prior, pid, id, v);
        RunOn(s, events, rest);
        events := events + rest;
      }
    }
  }

  /** While a trade is before settlement and the registry's final owner of its handle is the buyer, some continuation
      settles it if the fee fits the price; if the owner is neither party, some continuation refunds it. */
  lemma DecidedTradesCanClose(setup: Setup, events: seq<Event>, id: string, owner: string) returns (more: seq<Event>)
    requires var s := Run(Initial(setup), events);
      && id in s.world.tables.trades && IsBeforeSettlement(s.world.tables.trades[id].state)
      && s.world.tables.trades[id].terms.handle in s.registry
      && s.registry[s.world.tables.trades[id].terms.handle].blockHeight <= s.chain.macro
      && Compact(s.registry[s.world.tables.trades[id].terms.handle].address) == Compact(owner)
    requires var terms := Run(Initial(setup), events).world.tables.trades[id].terms;
      Compact(owner) != Compact(terms.seller) || Compact(owner) == Compact(terms.buyer)
    requires var terms := Run(Initial(setup), events).world.tables.trades[id].terms;
      Compact(owner) == Compact(terms.buyer) ==> terms.fee <= terms.price
    ensures var s, s' := Run(Initial(setup), events), Run(Initial(setup), events + more);
      && id in s'.world.tables.trades
      && s'.world.tables.trades[id].state ==
           (if Compact(owner) == Compact(s.world.tables.trades[id].terms.buyer) then Settled else Refunded)
  {
    var s := Run(Initial(setup), events);
    var v := View(s.registry, s.chain.macro, 1, map[id := "h"]);
    RunOk(setup, events);
    RowHolds(s, id);
    more := ClosesByOwner(s, id, v);
    RunOn(Initial(setup), events, more);
  }

  lemma ClosesByOwner(s: System, id: string, v: View) returns (more: seq<Event>)
    requires Sees(v, s) && id in s.world.tables.trades && MarksOk(s.world.tables.trades[id]) && id in v.answers
    requires var t := s.world.tables.trades[id];
      && IsBeforeSettlement(t.state) && t.terms.handle in v.registry && v.registry[t.terms.handle].blockHeight <= v.macro
    requires var t := s.world.tables.trades[id]; var owner := Compact(v.registry[t.terms.handle].address);
      if owner == Compact(t.terms.buyer) then t.terms.fee <= t.terms.price else owner != Compact(t.terms.seller)
    ensures var t := s.world.tables.trades[id]; var after := Run(s, more).world.tables.trades;
      id in after && after[id].state == (if Compact(v.registry[t.terms.handle].address) == Compact(t.terms.buyer) then Settled else Refunded)
  {
    var pid := FreshPid(s.tasks.Keys);
    more := HandledIsRun(s, pid, id, v);
    WellWhenAnswered(s.world, id, v);
    HandledDeals(s.world, id, v);
    DealtByOwner(s.world, Handled(s.world, id, v), id, v);
  }
}
