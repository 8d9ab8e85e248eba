/** When a trade that has left the settlement chain can still be closed (backend/marketplace_ownership_watcher.go,
    backend/marketplace_settlement.go). */
module EscrowClosing {
  import opened Wrappers
  import opened Trades
  import opened EscrowSystem
  import opened EscrowInvariant
  import opened EscrowPreservation
  import opened EscrowSteps
  import opened EscrowRuns
  import opened EscrowHistory
  import opened SettlementWorkers
  import T = MarketplaceTables

  /** The trade's end is decided and it is not closed: the sweep, which looks at the chain before settlement only, does
      not come back to it. */
  predicate IsPending(s: TradeState) {
    s.SettlementPending? || s.FailedAfterRelease? || s.RefundPending?
  }

  /** A task that leads to the trade's close if it is let alone: a worker that has marked its attempt, or, while the
      attempt is unmarked and a payout's fee fits, one that comes to the mark; and on a failed trade one that comes to
      the refund. */
  predicate Leads(id: string, t: Trade, task: Task) {
    WorksOn(task) == Some(id) ||
    match task
    case WalkRead(k, _) => k == id && IsPayable(t)
    case SettleRead(k) => k == id && IsPayable(t)
    case SettleMark(k) => k == id && IsPayable(t)
    case FailRead(k, _) => k == id && t.state.FailedAfterRelease?
    case FailReread(k, _) => k == id && t.state.FailedAfterRelease?
    case FailHop(k, from, _) => k == id && t.state.FailedAfterRelease? && from.FailedAfterRelease?
    case FailToRefund(k) => k == id && t.state.FailedAfterRelease?
    case RefundRead(k) => k == id && IsRefundable(t)
    case RefundMark(k) => k == id && IsRefundable(t)
    case _ => false
  }

  ghost predicate IsClosedIn(s: System, id: string) {
    id in s.world.tables.trades && IsClosed(s.world.tables.trades[id].state)
  }

  ghost predicate CanClose(s: System, id: string) {
    exists more :: IsClosedIn(Run(s, more), id)
  }

  // ---- A task that leads to the close gets there ----

  predicate IsLastStep(task: Task) {
    task.SettleFinish? || task.RefundFinish?
  }

  /** The steps such a task has left. */
  function StepsLeft(task: Task): nat {
    match task
    case WalkRead(_, _) => 7
    case SettleRead(_) => 6
    case SettleMark(_) => 5
    case SettleSend(_, _, _) => 4
    case SettleBookPayout(_, _, _, _) => 3
    case SettleBookFee(_, _, _, _) => 2
    case FailRead(_, _) => 8
    case FailReread(_, _) => 8
    case FailHop(_, _, _) => 7
    case FailToRefund(_) => 6
    case RefundRead(_) => 5
    case RefundMark(_) => 4
    case RefundSend(_, _, _) => 3
    case RefundBook(_, _, _, _) => 2
    case _ => 1
  }

  /** The task goes on to lead to the close, and has less to do. */
  predicate GoesOn(task: Task, r: StepResult, id: string) {
    && r.next.Some? && id in r.world.tables.trades && IsPending(r.world.tables.trades[id].state)
    && Leads(id, r.world.tables.trades[id], r.next.value) && StepsLeft(r.next.value) < StepsLeft(task)
  }

  lemma SenderGoesOn(w: World, task: Task, io: Io, id: string)
    requires id in w.tables.trades && IsPending(w.tables.trades[id].state)
    requires WorksOn(task) == Some(id) && (task.SettleSend? || task.RefundSend?) && io.signed.Some?
    ensures GoesOn(task, TaskStep(w, task, io), id)
  {
    SendShape(w, id, task.terms, task.at, io);
  }

  lemma BookerGoesOn(w: World, task: Task, io: Io, id: string)
    requires id in w.tables.trades && IsPending(w.tables.trades[id].state)
    requires WorksOn(task) == Some(id) && (task.SettleBookPayout? || task.SettleBookFee? || task.RefundBook?)
    ensures GoesOn(task, TaskStep(w, task, io), id)
  {
    if task.RefundBook? {
      RefundBookShape(w, id, task.terms, task.at, task.txHash, io);
    } else {
      PayBookShape(w, id, task.terms, task.at, task.txHash, io);
    }
  }

  lemma MarkerGoesOn(w: World, task: Task, io: Io, id: string)
    requires id in w.tables.trades && Leads(id, w.tables.trades[id], task) && (task.SettleMark? || task.RefundMark?)
    ensures GoesOn(task, TaskStep(w, task, io), id)
  {
  }

  lemma LookerGoesOn(w: World, task: Task, io: Io, id: string)
    requires id in w.tables.trades && Leads(id, w.tables.trades[id], task) && OnlyLooks(task)
    ensures GoesOn(task, TaskStep(w, task, io), id)
  {
  }

  lemma FailureGoesOn(w: World, task: Task, io: Io, id: string)
    requires id in w.tables.trades && MarksOk(w.tables.trades[id])
    requires Leads(id, w.tables.trades[id], task) && (task.FailHop? || task.FailToRefund?)
    ensures GoesOn(task, TaskStep(w, task, io), id)
  {
  }

  lemma LeaderGoesOn(w: World, task: Task, io: Io, id: string)
    requires id in w.tables.trades && IsPending(w.tables.trades[id].state) && MarksOk(w.tables.trades[id])
    requires Leads(id, w.tables.trades[id], task) && !IsLastStep(task) && io.signed.Some?
    ensures GoesOn(task, TaskStep(w, task, io), id)
  {
    if OnlyLooks(task) {
      LookerGoesOn(w, task, io, id);
    } else if task.FailHop? || task.FailToRefund? {
      FailureGoesOn(w, task, io, id);
    } else if task.SettleMark? || task.RefundMark? {
      MarkerGoesOn(w, task, io, id);
    } else if task.SettleSend? || task.RefundSend? {
      SenderGoesOn(w, task, io, id);
    } else {
      BookerGoesOn(w, task, io, id);
    }
  }

  lemma LeaderEnds(w: World, chain: Chain, resolved: set<Resolution>, task: Task, io: Io, id: string)
    requires WorksOn(task) == Some(id) && IsLastStep(task) && TaskOk(w, chain, resolved, task)
    ensures var after := TaskStep(w, task, io).world.tables.trades; id in after && IsClosed(after[id].state)
  {
  }

  ghost predicate HasLeader(s: System, id: string, pid: nat) {
    && id in s.world.tables.trades && IsPending(s.world.tables.trades[id].state)
    && pid in s.tasks && Leads(id, s.world.tables.trades[id], s.tasks[pid])
  }

  lemma AfterGoesOn(s: System, pid: nat, task: Task, r: StepResult, id: string)
    requires GoesOn(task, r, id)
    ensures HasLeader(After(s, pid, r), id, pid) && StepsLeft(After(s, pid, r).tasks[pid]) < StepsLeft(task)
  {
  }

  lemma LeaderMoves(s: System, pid: nat, io: Io, id: string) returns (s': System)
    requires HasLeader(s, id, pid) && TaskOk(s.world, s.chain, s.resolved, s.tasks[pid]) && MarksOk(s.world.tables.trades[id])
    requires io.signed.Some?
    ensures s' == Next(s, Advance(pid, io))
    ensures IsLastStep(s.tasks[pid]) ==> IsClosedIn(s', id)
    ensures !IsLastStep(s.tasks[pid]) ==> HasLeader(s', id, pid) && StepsLeft(s'.tasks[pid]) < StepsLeft(s.tasks[pid])
  {
    s' := Next(s, Advance(pid, io));
    AdvanceShape(s, pid, io);
    if IsLastStep(s.tasks[pid]) {
      LeaderEnds(s.world, s.chain, s.resolved, s.tasks[pid], io, id);
    } else {
      LeaderGoesOn(s.world, s.tasks[pid], io, id);
      AfterGoesOn(s.(tasks := s.tasks - {pid}), pid, s.tasks[pid], TaskStep(s.world, s.tasks[pid], io), id);
    }
  }

  lemma {:induction false} OneEvent(s: System, e: Event)
    ensures Run(s, [e]) == Next(s, e)
  {
    assert [e][..0] == [];
    assert Run(s, []) == s;
  }

  lemma {:induction false} LeaderCloses(s: System, pid: nat, id: string) returns (more: seq<Event>)
    requires Inv(s) && HasLeader(s, id, pid)
    ensures IsClosedIn(Run(s, more), id)
    decreases StepsLeft(s.tasks[pid])
  {
    var e := Advance(pid, Io(1, Some("h")));
    TaskHolds(s, pid);
    RowHolds(s, id);
    var s' := LeaderMoves(s, pid, e.io, id);
    more := [e];
    OneEvent(s, e);
    if !IsLastStep(s.tasks[pid]) {
      NextOk(s, e);
      var rest := LeaderCloses(s', pid, id);
      RunOn(s, more, rest);
      more := more + rest;
    }
  }

  lemma TaskHolds(s: System, pid: nat)
    requires Inv(s)
    ensures pid in s.tasks ==> TaskOk(s.world, s.chain, s.resolved, s.tasks[pid])
  {
  }

  // ---- An abandoned trade stays abandoned ----

  ghost predicate NobodyLeads(tasks: map<nat, Task>, id: string, t: Trade) {
    forall p :: p in tasks ==> !Leads(id, t, tasks[p])
  }

  /** Pending, and no task leads to its close. */
  ghost predicate IsAbandoned(s: System, id: string) {
    && id in s.world.tables.trades && IsPending(s.world.tables.trades[id].state)
    && NobodyLeads(s.tasks, id, s.world.tables.trades[id])
  }

  /** A step leaves the row alone, and nothing it goes on with leads to the close. */
  ghost predicate PassesBy(w: World, r: StepResult, id: string) {
    && id in r.world.tables.trades && id in w.tables.trades && r.world.tables.trades[id] == w.tables.trades[id]
    && (r.next.Some? ==> !Leads(id, w.tables.trades[id], r.next.value))
  }

  lemma MovePassesBy(w: World, id: string, k: string, from: TradeState, to: TradeState, m: Mutation, clock: int, r: T.Result, next: Option<Task>)
    requires id in w.tables.trades && IsMove(w.tables, k, from, to, m, clock, r)
    requires k == id ==> w.tables.trades[id].state != from || !CanTransitionTo(from, to)
    requires k != id && next.Some? ==> !Leads(id, w.tables.trades[id], next.value)
    ensures PassesBy(w, Commit(w, r, next), id)
  {
  }

  lemma PlainPassesBy(w: World, task: Task, io: Io, id: string)
    requires id in w.tables.trades && IsPending(w.tables.trades[id].state) && !Leads(id, w.tables.trades[id], task) && IsPlainTask(task)
    ensures PassesBy(w, TaskStep(w, task, io), id)
  {
    var ask := AskOf(w, task);
    var r := AskShape(w, task, io);
    MovePassesBy(w, id, ask.id, ask.from, ask.to, ask.m, io.clock, r, ask.next);
  }

  lemma DepositPassesBy(w: World, task: Task, io: Io, id: string)
    requires id in w.tables.trades && IsPending(w.tables.trades[id].state)
    requires task.RecordDeposit? || task.FinalizeDeposit? || task.ExpireReservation?
    ensures PassesBy(w, TaskStep(w, task, io), id)
  {
    match task
    case RecordDeposit(k, tx) =>
      var r := RecordShape(w, k, tx, io);
      MovePassesBy(w, id, k, AwaitingDeposit, DepositFinalizing, SetDeposit(Deposit(tx.hash, tx.blockNumber)), io.clock, r, None);
    case FinalizeDeposit(k) =>
      var r := FinalizeShape(w, k, io);
      MovePassesBy(w, id, k, DepositFinalizing, Funded, NoMutation, io.clock, r, None);
    case ExpireReservation(k) => ExpireShape(w, k, io);
  }

  lemma HopPassesBy(w: World, task: Task, io: Io, id: string)
    requires id in w.tables.trades && IsPending(w.tables.trades[id].state) && !Leads(id, w.tables.trades[id], task)
    requires task.WalkHop? || task.FailHop?
    ensures PassesBy(w, TaskStep(w, task, io), id)
  {
    match task
    case WalkHop(k, from, claim) =>
      if NextInChain(from).None? {
        NoHopShape(w, k, from, claim, io);
      } else {
        var r := HopShape(w, k, from, claim, io);
        var to := NextInChain(from).value;
        MovePassesBy(w, id, k, from, to, if to == SettlementPending then SetClaim(claim.txHash) else NoMutation, io.clock, r, Some(WalkRead(k, claim)));
      }
    case FailHop(k, from, claim) =>
      var r := FailShape(w, k, from, claim, io);
      MovePassesBy(w, id, k, from, FailedAfterRelease, NoMutation, io.clock, r, Some(FailToRefund(k)));
  }

  lemma FinishPassesBy(w: World, task: Task, io: Io, id: string)
    requires id in w.tables.trades && IsPending(w.tables.trades[id].state) && IsLastStep(task) && WorksOn(task) != Some(id)
    ensures PassesBy(w, TaskStep(w, task, io), id)
  {
    match task
    case SettleFinish(k, terms, at, h) =>
      var r := SettleFinishShape(w, k, terms, at, h, io);
      MovePassesBy(w, id, k, SettlementPending, Settled, SetPayout(h), io.clock, r, None);
    case RefundFinish(k, terms, at, h) =>
      var r := RefundFinishShape(w, k, terms, at, h, io);
      MovePassesBy(w, id, k, RefundPending, Refunded, SetRefund(h), io.clock, r, None);
  }

  lemma BookPassesBy(w: World, task: Task, io: Io, id: string)
    requires id in w.tables.trades && WorksOn(task).Some? && WorksOn(task) != Some(id) && !IsLastStep(task)
    ensures PassesBy(w, TaskStep(w, task, io), id)
  {
    match task
    case SettleSend(k, terms, at) => SendShape(w, k, terms, at, io);
    case RefundSend(k, terms, at) => SendShape(w, k, terms, at, io);
    case SettleBookPayout(k, terms, at, h) => PayBookShape(w, k, terms, at, h, io);
    case SettleBookFee(k, terms, at, h) => PayBookShape(w, k, terms, at, h, io);
    case RefundBook(k, terms, at, h) => RefundBookShape(w, k, terms, at, h, io);
  }

  lemma MarkPassesBy(w: World, chain: Chain, resolved: set<Resolution>, task: Task, io: Io, id: string)
    requires id in w.tables.trades && IsPending(w.tables.trades[id].state) && !Leads(id, w.tables.trades[id], task)
    requires TaskOk(w, chain, resolved, task) && (task.SettleMark? || task.RefundMark?)
    ensures PassesBy(w, TaskStep(w, task, io), id)
  {
  }

  lemma LookPassesBy(w: World, task: Task, io: Io, id: string)
    requires id in w.tables.trades && IsPending(w.tables.trades[id].state) && !Leads(id, w.tables.trades[id], task)
    requires OnlyLooks(task)
    ensures PassesBy(w, TaskStep(w, task, io), id)
  {
  }

  lemma StepPassesBy(w: World, chain: Chain, resolved: set<Resolution>, task: Task, io: Io, id: string)
    requires id in w.tables.trades && IsPending(w.tables.trades[id].state) && !Leads(id, w.tables.trades[id], task)
    requires TaskOk(w, chain, resolved, task)
    ensures PassesBy(w, TaskStep(w, task, io), id)
  {
    if OnlyLooks(task) {
      LookPassesBy(w, task, io, id);
    } else if IsPlainTask(task) {
      PlainPassesBy(w, task, io, id);
    } else if task.WalkHop? || task.FailHop? {
      HopPassesBy(w, task, io, id);
    } else if task.SettleMark? || task.RefundMark? {
      MarkPassesBy(w, chain, resolved, task, io, id);
    } else if IsLastStep(task) {
      FinishPassesBy(w, task, io, id);
    } else if WorksOn(task).Some? {
      BookPassesBy(w, task, io, id);
    } else {
      DepositPassesBy(w, task, io, id);
    }
  }

  lemma AfterLeavesAlone(s: System, pid: nat, r: StepResult, id: string)
    requires IsAbandoned(s, id) && PassesBy(s.world, r, id)
    ensures IsAbandoned(After(s, pid, r), id)
  {
  }

  lemma AdvanceLeavesAlone(s: System, pid: nat, io: Io, id: string)
    requires pid in s.tasks ==> TaskOk(s.world, s.chain, s.resolved, s.tasks[pid])
    requires IsAbandoned(s, id)
    ensures IsAbandoned(Next(s, Advance(pid, io)), id)
  {
    if pid in s.tasks {
      StepPassesBy(s.world, s.chain, s.resolved, s.tasks[pid], io, id);
      AdvanceShape(s, pid, io);
      AfterLeavesAlone(s.(tasks := s.tasks - {pid}), pid, TaskStep(s.world, s.tasks[pid], io), id);
    }
  }

  lemma StartLeavesAlone(s: System, pid: nat, task: Task, id: string)
    requires IsAbandoned(s, id)
    ensures IsAbandoned(Next(s, Start(pid, task)), id)
  {
    if pid !in s.tasks && MayStart(s, task) {
      StartShape(s, pid, task);
    }
  }

  lemma RequestLeavesAlone(s: System, e: Event, id: string)
    requires IsAbandoned(s, id) && (e.UseNonce? || e.ListHandle? || e.ReserveHandle? || e.CancelTrade?)
    ensures IsAbandoned(Next(s, e), id)
  {
  }

  lemma RestLeavesAlone(s: System, e: Event, id: string)
    requires IsAbandoned(s, id) && (e.Crash? || e.Include? || e.Reorganise? || e.MacroBlock? || e.RegistrySwept?)
    ensures IsAbandoned(Next(s, e), id)
  {
  }

  lemma NextLeavesAlone(s: System, e: Event, id: string)
    requires Inv(s) && IsAbandoned(s, id)
    ensures IsAbandoned(Next(s, e), id)
  {
    match e
    case Advance(pid, io) =>
      TaskHolds(s, pid);
      AdvanceLeavesAlone(s, pid, io, id);
    case Start(pid, task) => StartLeavesAlone(s, pid, task, id);
    case UseNonce(_) => RequestLeavesAlone(s, e, id);
    case ListHandle(_, _, _, _, _, _) => RequestLeavesAlone(s, e, id);
    case ReserveHandle(_, _, _, _, _, _) => RequestLeavesAlone(s, e, id);
    case CancelTrade(_, _) => RequestLeavesAlone(s, e, id);
    case _ => RestLeavesAlone(s, e, id);
  }

  lemma {:induction false} StaysAbandoned(s: System, more: seq<Event>, id: string)
    requires Inv(s) && IsAbandoned(s, id)
    ensures IsAbandoned(Run(s, more), id)
  {
    if |more| > 0 {
      StaysAbandoned(s, more[..|more| - 1], id);
      RunFromOk(s, more[..|more| - 1]);
      NextLeavesAlone(Run(s, more[..|more| - 1]), more[|more| - 1], id);
    }
  }

  /** Once its end is decided, a trade can still close exactly if a running task leads there: a worker that has marked
      the attempt, or, with the attempt unmarked and a payout's fee fitting, a task that comes to the mark. Otherwise it
      stays where it is in every continuation: as after a crash between the mark and the last step, and as after a crash
      between the hop and the mark. */
  lemma PendingClosesIff(setup: Setup, events: seq<Event>, id: string)
    requires var tb := Run(Initial(setup), events).world.tables; id in tb.trades && IsPending(tb.trades[id].state)
    ensures var s := Run(Initial(setup), events); var t := s.world.tables.trades[id];
            CanClose(s, id) <==> exists p :: p in s.tasks && Leads(id, t, s.tasks[p])
  {
    var s := Run(Initial(setup), events);
    RunOk(setup, events);
    ClosesIff(s, id);
  }

  lemma ClosesIff(s: System, id: string)
    requires Inv(s) && id in s.world.tables.trades && IsPending(s.world.tables.trades[id].state)
    ensures CanClose(s, id) <==> !NobodyLeads(s.tasks, id, s.world.tables.trades[id])
  {
    if IsAbandoned(s, id) {
      NeverCloses(s, id);
    } else {
      var p :| p in s.tasks && Leads(id, s.world.tables.trades[id], s.tasks[p]);
      var more := LeaderCloses(s, p, id);
    }
  }

  lemma NeverCloses(s: System, id: string)
    requires Inv(s) && IsAbandoned(s, id)
    ensures !CanClose(s, id)
  {
    forall more
      ensures !IsClosedIn(Run(s, more), id)
    {
      StaysAbandoned(s, more, id);
      AbandonedIsNotClosed(Run(s, more), id);
    }
  }

  lemma AbandonedIsNotClosed(s: System, id: string)
    requires IsAbandoned(s, id)
    ensures !IsClosedIn(s, id)
  {
  }
}
