/** A whole sweep of the deposit watcher is a run of the protocol. */
module DepositRefinement {
  import opened Wrappers
  import opened Trades
  import opened ChainTypes
  import opened EscrowSystem
  import opened EscrowHistory
  import opened EscrowWatching
  import opened MarketplaceInvariant
  import opened SettlementRefinement
  import T = MarketplaceTables

  ghost predicate Reaches(s: System, s': System) {
    exists events :: Run(s, events) == s'
  }

  lemma ReachesSelf(s: System)
    ensures Reaches(s, s)
  {
    assert Run(s, []) == s;
  }

  lemma ReachesOn(s: System, t: System, u: System)
    requires Reaches(s, t) && Reaches(t, u)
    ensures Reaches(s, u)
  {
    var a :| Run(s, a) == t;
    var b :| Run(t, b) == u;
    RunOn(s, a, b);
  }

  function WithTb(s: System, tb: T.Tables): System {
    s.(world := s.world.(tables := tb))
  }

  // ---- One row at a time ----

  lemma ExecutionReaches(s: System, pid: nat, points: seq<Point>, io: Io, last: World)
    requires IsExecution(points, io, last) && pid !in s.tasks && points[0].world == s.world
    requires MayStart(s, points[0].task) && Evidence(s, points[0].task) == {}
    ensures Reaches(s, s.(world := last))
  {
    StartedRun(s, pid, points, io, last);
  }

  lemma RecordReaches(s: System, pid: nat, id: string, tx: RpcTx, clock: UnixTime)
    requires pid !in s.tasks && tx in s.chain.live && ReferencesUnique(s.world.tables)
    requires id in s.world.tables.trades && s.world.tables.trades[id].state.AwaitingDeposit?
    requires PaysFor(tx, s.world.tables.trades[id].terms, s.world.escrow)
    ensures var r := T.Transition(s.world.tables, id, AwaitingDeposit, DepositFinalizing, SetDeposit(Deposit(tx.hash, tx.blockNumber)), clock);
            r.Ok? && Reaches(s, WithTb(s, r.value))
  {
    var w, io := s.world, Io(clock, None);
    var r := T.Transition(w.tables, id, AwaitingDeposit, DepositFinalizing, SetDeposit(Deposit(tx.hash, tx.blockNumber)), clock);
    MatchFinds(w, tx, id);
    var points := [Point(w, MatchDeposit(tx)), Point(w, RecordDeposit(id, tx))];
    assert Goes(points[0], io, points[1]);
    assert Ends(points[1], io, w.(tables := r.value));
    ExecutionReaches(s, pid, points, io, w.(tables := r.value));
  }

  /** The moves of the second and third loop. */
  predicate IsLoopMove(from: TradeState, to: TradeState) {
    (from.DepositFinalizing? && to.Funded?) || (from.Funded? && to.AwaitingRelease?)
  }

  lemma MoveReaches(s: System, pid: nat, id: string, from: TradeState, to: TradeState, clock: UnixTime)
    requires pid !in s.tasks && IsLoopMove(from, to) && id in s.world.tables.trades && s.world.tables.trades[id].state == from
    requires from.DepositFinalizing? ==> IsFinal(s.world.tables.trades[id], s.chain.macro)
    ensures var r := T.Transition(s.world.tables, id, from, to, NoMutation, clock);
            r.Ok? && Reaches(s, WithTb(s, r.value))
  {
    var w, io := s.world, Io(clock, None);
    var r := T.Transition(w.tables, id, from, to, NoMutation, clock);
    var points := [Point(w, if from.Funded? then HealFunded(id) else FinalizeDeposit(id))];
    assert Ends(points[0], io, w.(tables := r.value));
    ExecutionReaches(s, pid, points, io, w.(tables := r.value));
  }

  // ---- One loop at a time ----

  lemma {:induction false} RecordsReach(s: System, pid: nat, txs: seq<RpcTx>, clock: UnixTime)
    requires pid !in s.tasks && ReferencesUnique(s.world.tables)
    requires forall tx :: tx in txs ==> tx in s.chain.live
    ensures Reaches(s, WithTb(s, RecordedAll(s.world.tables, txs, s.world.escrow, clock)))
  {
    var tb, escrow := s.world.tables, s.world.escrow;
    if |txs| == 0 {
      assert RecordedAll(tb, txs, escrow, clock).trades == tb.trades;
      ReachesSelf(s);
    } else {
      var init, tx := txs[..|txs| - 1], txs[|txs| - 1];
      assert txs == init + [tx];
      RecordsReach(s, pid, init, clock);
      RecordsOneMore(s, pid, init, tx, clock);
      ReachesOn(s, WithTb(s, RecordedAll(tb, init, escrow, clock)), WithTb(s, RecordedAll(tb, txs, escrow, clock)));
    }
  }

  lemma RecordingKeepsReferences(tb: T.Tables, txs: seq<RpcTx>, escrow: string, clock: int)
    requires ReferencesUnique(tb)
    ensures ReferencesUnique(RecordedAll(tb, txs, escrow, clock))
    ensures forall id :: id in tb.trades ==> RecordedAll(tb, txs, escrow, clock).trades[id].terms == tb.trades[id].terms
  {
  }

  /** A transaction that pays for a waiting trade. */
  ghost predicate Awaited(tb: T.Tables, before: T.Tables, tx: RpcTx, escrow: string, id: string) {
    id in tb.trades && id in before.trades && before.trades[id].state.AwaitingDeposit? && PaysFor(tx, tb.trades[id].terms, escrow)
  }

  lemma RecordsAwaited(s: System, pid: nat, txs: seq<RpcTx>, tx: RpcTx, clock: UnixTime, id: string)
    requires pid !in s.tasks && ReferencesUnique(s.world.tables) && tx in s.chain.live
    requires Awaited(s.world.tables, RecordedAll(s.world.tables, txs, s.world.escrow, clock), tx, s.world.escrow, id)
    ensures Reaches(WithTb(s, RecordedAll(s.world.tables, txs, s.world.escrow, clock)),
                    WithTb(s, RecordedAll(s.world.tables, txs + [tx], s.world.escrow, clock)))
  {
    var tb, escrow := s.world.tables, s.world.escrow;
    RecordingKeepsReferences(tb, txs, escrow, clock);
    RecordReaches(WithTb(s, RecordedAll(tb, txs, escrow, clock)), pid, id, tx, clock);
    RecordsOne(tb, txs, tx, escrow, clock, id);
  }

  lemma RecordsOneMore(s: System, pid: nat, txs: seq<RpcTx>, tx: RpcTx, clock: UnixTime)
    requires pid !in s.tasks && ReferencesUnique(s.world.tables) && tx in s.chain.live
    ensures Reaches(WithTb(s, RecordedAll(s.world.tables, txs, s.world.escrow, clock)),
                    WithTb(s, RecordedAll(s.world.tables, txs + [tx], s.world.escrow, clock)))
  {
    var tb, escrow := s.world.tables, s.world.escrow;
    var before := RecordedAll(tb, txs, escrow, clock);
    if id :| Awaited(tb, before, tx, escrow, id) {
      RecordsAwaited(s, pid, txs, tx, clock, id);
    } else {
      assert forall id :: id in tb.trades ==> !Awaited(tb, before, tx, escrow, id);
      RecordsNothing(tb, txs, tx, escrow, clock);
      ReachesSelf(WithTb(s, before));
    }
  }

  lemma {:induction false} MovesReach(s: System, pid: nat, done: set<string>, from: TradeState, to: TradeState, clock: UnixTime)
    requires pid !in s.tasks && IsLoopMove(from, to)
    requires forall id :: id in done ==> id in s.world.tables.trades && s.world.tables.trades[id].state == from
    requires from.DepositFinalizing? ==> forall id :: id in done ==> IsFinal(s.world.tables.trades[id], s.chain.macro)
    ensures Reaches(s, WithTb(s, Moved(s.world.tables, done, from, to, clock)))
    decreases done
  {
    var tb := s.world.tables;
    if done == {} {
      MovesNone(tb, from, to, clock);
      ReachesSelf(s);
    } else {
      var id :| id in done;
      var rest := done - {id};
      MovesReach(s, pid, rest, from, to, clock);
      MovesOne(tb, rest, id, from, to, clock);
      assert Moved(tb, rest, from, to, clock).trades[id] == tb.trades[id];
      MoveReaches(WithTb(s, Moved(tb, rest, from, to, clock)), pid, id, from, to, clock);
      assert rest + {id} == done;
      ReachesOn(s, WithTb(s, Moved(tb, rest, from, to, clock)), WithTb(s, Moved(tb, done, from, to, clock)));
    }
  }

  // ---- The sweep ----

  function FinalOnes(tb: T.Tables, macro: nat): set<string> {
    set id | id in tb.trades && IsFinal(tb.trades[id], macro)
  }

  /** What a sweep makes of the tables is reached by a run: each of its transitions is the step of a task that may
      start when it comes to it. */
  lemma SweepIsRun(s: System, pid: nat, txs: seq<RpcTx>, clock: UnixTime)
    requires pid !in s.tasks && ReferencesUnique(s.world.tables)
    requires forall tx :: tx in txs ==> tx in s.chain.live
    ensures Reaches(s, WithTb(s, WatchedAll(s.world.tables, txs, s.world.escrow, s.chain.macro, clock)))
  {
    var tb, escrow, macro := s.world.tables, s.world.escrow, s.chain.macro;
    var recorded := RecordedAll(tb, txs, escrow, clock);
    var final := FinalOnes(recorded, macro);
    var finalized := Moved(recorded, final, DepositFinalizing, Funded, clock);
    var funded := finalized.InState(Funded);
    RecordsReach(s, pid, txs, clock);
    MovesReach(WithTb(s, recorded), pid, final, DepositFinalizing, Funded, clock);
    MovesReach(WithTb(s, finalized), pid, funded, Funded, AwaitingRelease, clock);
    LoopsCompose(tb, txs, escrow, macro, clock, final, funded);
    ReachesOn(s, WithTb(s, recorded), WithTb(s, finalized));
    ReachesOn(s, WithTb(s, finalized), WithTb(s, WatchedAll(tb, txs, escrow, macro, clock)));
  }
}
