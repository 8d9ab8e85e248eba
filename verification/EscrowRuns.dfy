/** The invariant holds after every event, hence in every state of every run. */
module EscrowRuns {
  import opened Wrappers
  import opened Trades
  import opened AddressText
  import opened ChainTypes
  import opened EscrowSystem
  import opened HandleFold
  import opened HandleRegistries
  import opened EscrowInvariant
  import opened EscrowPreservation
  import opened EscrowSteps
  import opened EscrowWorkers
  import opened MarketplaceInvariant
  import L = Ledger
  import T = MarketplaceTables

  // ---- Steps that commit a transaction ----

  lemma CommitShape(s: System, pid: nat, r: T.Result, next: Option<Task>)
    requires r.Ok?
    ensures var s' := s.(world := s.world.(tables := r.value));
            After(s, pid, Commit(s.world, r, next)) == s'.(tasks := WithTask(s'.tasks, pid, next))
  {
  }

  lemma Committed(s: System, pid: nat, r: T.Result, next: Option<Task>)
    requires Inv(s) && pid !in s.tasks
    requires r.Ok? ==> Inv(s.(world := s.world.(tables := r.value)))
    requires r.Ok? && next.Some? ==>
      TaskOk(s.world.(tables := r.value), s.chain, s.resolved, next.value) && WorksOn(next.value).None?
    ensures Inv(After(s, pid, Commit(s.world, r, next)))
  {
    if r.Fail? {
      Stopped(s, pid);
    } else {
      var s' := s.(world := s.world.(tables := r.value));
      CommitShape(s, pid, r, next);
      if next.Some? {
        AddTask(s', pid, next.value);
      } else {
        Stopped(s', pid);
      }
    }
  }

  lemma Continued(s: System, pid: nat, task: Task)
    requires Inv(s) && pid !in s.tasks && TaskOk(s.world, s.chain, s.resolved, task) && WorksOn(task).None?
    ensures Inv(After(s, pid, Continue(s.world, task)))
  {
    AddTask(s, pid, task);
    assert After(s, pid, Continue(s.world, task)) == s.(tasks := s.tasks[pid := task]);
  }

  /** The ownership watcher's tasks, which rely on terms and resolutions only. */
  predicate FollowsOwner(task: Task) {
    task.WalkRead? || task.WalkHop? || task.FailRead? || task.FailFirstHop? || task.FailReread? || task.FailHop?
    || task.FailToRefund? || task.SettleRead? || task.RefundRead?
  }

  lemma FollowerSurvives(w: World, chain: Chain, resolved: set<Resolution>, task: Task, after: T.Tables, id: string)
    requires TaskOk(w, chain, resolved, task) && FollowsOwner(task) && OneRow(w.tables, after, id)
    ensures TaskOk(w.(tables := after), chain, resolved, task) && WorksOn(task).None?
  {
  }

  /** The result of asking for one transition. */
  ghost predicate IsMove(tb: T.Tables, id: string, from: TradeState, to: TradeState, m: Mutation, clock: int, r: T.Result) {
    r.Ok? ==> id in tb.trades && tb.trades[id].state == from && CanTransitionTo(from, to) && r.value == MovedTables(tb, id, to, m, clock)
  }

  lemma TransitionMoves(tb: T.Tables, id: string, from: TradeState, to: TradeState, m: Mutation, clock: int) returns (r: T.Result)
    ensures r == T.Transition(tb, id, from, to, m, clock) && IsMove(tb, id, from, to, m, clock, r)
  {
    r := T.Transition(tb, id, from, to, m, clock);
  }

  lemma PlainCommit(s: System, pid: nat, id: string, from: TradeState, to: TradeState, m: Mutation, clock: int, next: Option<Task>, r: T.Result)
    requires Inv(s) && pid !in s.tasks && PlainMove(from, to, m) && IsMove(s.world.tables, id, from, to, m, clock, r)
    requires next.Some? ==> TaskOk(s.world, s.chain, s.resolved, next.value) && FollowsOwner(next.value)
    ensures Inv(After(s, pid, Commit(s.world, r, next)))
  {
    if r.Ok? {
      PlainMoveOk(s, id, to, m, clock);
      if next.Some? {
        FollowerSurvives(s.world, s.chain, s.resolved, next.value, r.value, id);
      }
    }
    Committed(s, pid, r, next);
  }

  lemma SettlingCommit(s: System, pid: nat, id: string, claim: HandleClaim, clock: int, r: T.Result)
    requires Inv(s) && pid !in s.tasks && BuyerResolved(s.world, s.resolved, id, claim)
    requires IsMove(s.world.tables, id, ClaimConfirming, SettlementPending, SetClaim(claim.txHash), clock, r)
    ensures Inv(After(s, pid, Commit(s.world, r, Some(WalkRead(id, claim)))))
  {
    if r.Ok? {
      SettleableOk(s, id, claim, clock);
      FollowerSurvives(s.world, s.chain, s.resolved, WalkRead(id, claim), r.value, id);
    }
    Committed(s, pid, r, Some(WalkRead(id, claim)));
  }

  lemma FailCommit(s: System, pid: nat, id: string, from: TradeState, claim: HandleClaim, clock: int, r: T.Result)
    requires Inv(s) && pid !in s.tasks && StrangerResolved(s.world, s.resolved, id, claim)
    requires IsMove(s.world.tables, id, from, FailedAfterRelease, NoMutation, clock, r)
    ensures Inv(After(s, pid, Commit(s.world, r, Some(FailToRefund(id)))))
  {
    if r.Ok? {
      FailedOk(s, id, claim, clock);
    }
    Committed(s, pid, r, Some(FailToRefund(id)));
  }

  lemma RecordCommit(s: System, pid: nat, id: string, tx: RpcTx, clock: int, r: T.Result)
    requires Inv(s) && pid !in s.tasks && TaskOk(s.world, s.chain, s.resolved, RecordDeposit(id, tx))
    requires IsMove(s.world.tables, id, AwaitingDeposit, DepositFinalizing, SetDeposit(Deposit(tx.hash, tx.blockNumber)), clock, r)
    ensures Inv(After(s, pid, Commit(s.world, r, None)))
  {
    if r.Ok? {
      RecordOk(s, id, tx, clock);
    }
    Committed(s, pid, r, None);
  }

  lemma FinalizeCommit(s: System, pid: nat, id: string, clock: int, r: T.Result)
    requires Inv(s) && pid !in s.tasks && TaskOk(s.world, s.chain, s.resolved, FinalizeDeposit(id))
    requires IsMove(s.world.tables, id, DepositFinalizing, Funded, NoMutation, clock, r)
    ensures Inv(After(s, pid, Commit(s.world, r, None)))
  {
    if r.Ok? {
      FinalizeOk(s, id, clock);
    }
    Committed(s, pid, r, None);
  }

  lemma ExpireCommit(s: System, pid: nat, id: string, clock: int)
    requires Inv(s) && pid !in s.tasks
    ensures Inv(After(s, pid, Commit(s.world, T.ReleaseUnpaid(s.world.tables, id, Expired, clock), None)))
  {
    var r := T.ReleaseUnpaid(s.world.tables, id, Expired, clock);
    if r.Ok? {
      WithdrawOk(s, id, Expired, clock);
    }
    Committed(s, pid, r, None);
  }

  lemma SettleCommit(s: System, pid: nat, id: string, terms: Terms, at: UnixTime, h: string, clock: int, r: T.Result)
    requires AtWork(s, pid, id) && Paying(s.world, id, terms, at, 1, 2, h)
    requires IsMove(s.world.tables, id, SettlementPending, Settled, SetPayout(h), clock, r)
    ensures Inv(After(s, pid, Commit(s.world, r, None)))
  {
    SettleFinishOk(s, id, terms, at, h, clock);
    Committed(s, pid, r, None);
  }

  lemma RefundCommit(s: System, pid: nat, id: string, terms: Terms, at: UnixTime, h: string, clock: int, r: T.Result)
    requires AtWork(s, pid, id) && Refunding(s.world, id, terms, at, 1, 1, h)
    requires IsMove(s.world.tables, id, RefundPending, Refunded, SetRefund(h), clock, r)
    ensures Inv(After(s, pid, Commit(s.world, r, None)))
  {
    RefundFinishOk(s, id, terms, at, h, clock);
    Committed(s, pid, r, None);
  }

  // ---- Steps that only read ----

  /** A step that changes nothing and goes on to a task that may start. */
  ghost predicate OnlyReads(w: World, chain: Chain, resolved: set<Resolution>, r: StepResult) {
    r.world == w && (r.next.Some? ==> TaskOk(w, chain, resolved, r.next.value) && WorksOn(r.next.value).None?)
  }

  lemma ReadOk(s: System, pid: nat, r: StepResult)
    requires Inv(s) && pid !in s.tasks && OnlyReads(s.world, s.chain, s.resolved, r)
    ensures Inv(After(s, pid, r))
  {
    if r.next.Some? {
      Continued(s, pid, r.next.value);
    } else {
      Stopped(s, pid);
    }
  }

  lemma MatchReads(w: World, chain: Chain, resolved: set<Resolution>, tx: RpcTx)
    requires tx in chain.seen
    ensures OnlyReads(w, chain, resolved, MatchStep(w, tx))
  {
  }

  lemma WalkReads(w: World, chain: Chain, resolved: set<Resolution>, id: string, claim: HandleClaim)
    requires BuyerResolved(w, resolved, id, claim)
    ensures OnlyReads(w, chain, resolved, WalkReadStep(w, id, claim))
  {
  }

  lemma FailReads(w: World, chain: Chain, resolved: set<Resolution>, id: string, claim: HandleClaim)
    requires StrangerResolved(w, resolved, id, claim)
    ensures OnlyReads(w, chain, resolved, FailReadStep(w, id, claim))
    ensures OnlyReads(w, chain, resolved, Continue(w, FailHop(id, w.tables.trades[id].state, claim)))
  {
  }

  lemma WorkerReads(w: World, chain: Chain, resolved: set<Resolution>, id: string)
    ensures OnlyReads(w, chain, resolved, SettleReadStep(w, id)) && OnlyReads(w, chain, resolved, RefundReadStep(w, id))
  {
  }

  // ---- Any step ----

  /** One shared step of a task that has been set aside. */
  ghost function Stepped(s: System, pid: nat, task: Task, io: Io): System {
    After(s, pid, TaskStep(s.world, task, io))
  }

  predicate OnlyLooks(task: Task) {
    task.MatchDeposit? || task.WalkRead? || task.FailRead? || task.FailReread? || task.SettleRead? || task.RefundRead?
  }

  lemma LooksOnly(w: World, chain: Chain, resolved: set<Resolution>, task: Task, io: Io)
    requires TaskOk(w, chain, resolved, task) && OnlyLooks(task)
    ensures OnlyReads(w, chain, resolved, TaskStep(w, task, io))
  {
    match task
    case MatchDeposit(tx) => MatchReads(w, chain, resolved, tx);
    case WalkRead(id, claim) => WalkReads(w, chain, resolved, id, claim);
    case FailRead(id, claim) => FailReads(w, chain, resolved, id, claim);
    case FailReread(id, claim) => FailReads(w, chain, resolved, id, claim);
    case SettleRead(id) => WorkerReads(w, chain, resolved, id);
    case RefundRead(id) => WorkerReads(w, chain, resolved, id);
  }

  lemma ReadStepOk(s: System, pid: nat, task: Task, io: Io)
    requires Ready(s, pid, task) && OnlyLooks(task)
    ensures Inv(Stepped(s, pid, task, io))
  {
    LooksOnly(s.world, s.chain, s.resolved, task, io);
    ReadOk(s, pid, TaskStep(s.world, task, io));
  }

  /** The transition a task asks for, and the task it goes on with. */
  datatype Ask = Ask(id: string, from: TradeState, to: TradeState, m: Mutation, next: Option<Task>)

  predicate IsPlainTask(task: Task) {
    task.AdvanceReserved? || task.HealFunded? || task.SubmitRelease? || task.SubmitClaim? || task.FailFirstHop? || task.FailToRefund?
  }

  function AskOf(w: World, task: Task): Ask
    requires IsPlainTask(task)
  {
    match task
    case AdvanceReserved(id) => Ask(id, Reserved, AwaitingDeposit, SetEscrowAddress(w.escrow), None)
    case HealFunded(id) => Ask(id, Funded, AwaitingRelease, NoMutation, None)
    case SubmitRelease(id, h) => Ask(id, AwaitingRelease, ReleaseConfirming, SetRelease(h), None)
    case SubmitClaim(id, h) => Ask(id, AwaitingClaim, ClaimConfirming, SetClaim(h), None)
    case FailFirstHop(id, claim) => Ask(id, AwaitingRelease, ReleaseConfirming, NoMutation, Some(FailReread(id, claim)))
    case FailToRefund(id) => Ask(id, FailedAfterRelease, RefundPending, NoMutation, Some(RefundRead(id)))
  }

  lemma AskShape(w: World, task: Task, io: Io) returns (r: T.Result)
    requires IsPlainTask(task)
    ensures var ask := AskOf(w, task);
            TaskStep(w, task, io) == Commit(w, r, ask.next) && IsMove(w.tables, ask.id, ask.from, ask.to, ask.m, io.clock, r)
  {
    var ask := AskOf(w, task);
    r := TransitionMoves(w.tables, ask.id, ask.from, ask.to, ask.m, io.clock);
  }

  lemma AskIsPlain(w: World, chain: Chain, resolved: set<Resolution>, task: Task)
    requires IsPlainTask(task) && TaskOk(w, chain, resolved, task)
    ensures var ask := AskOf(w, task);
            PlainMove(ask.from, ask.to, ask.m)
            && (ask.next.Some? ==> TaskOk(w, chain, resolved, ask.next.value) && FollowsOwner(ask.next.value))
  {
  }

  lemma PlainStepOk(s: System, pid: nat, task: Task, io: Io)
    requires Ready(s, pid, task) && IsPlainTask(task)
    ensures Inv(Stepped(s, pid, task, io))
  {
    var ask := AskOf(s.world, task);
    var r := AskShape(s.world, task, io);
    AskIsPlain(s.world, s.chain, s.resolved, task);
    PlainCommit(s, pid, ask.id, ask.from, ask.to, ask.m, io.clock, ask.next, r);
  }

  lemma RecordShape(w: World, id: string, tx: RpcTx, io: Io) returns (r: T.Result)
    ensures TaskStep(w, RecordDeposit(id, tx), io) == Commit(w, r, None)
    ensures IsMove(w.tables, id, AwaitingDeposit, DepositFinalizing, SetDeposit(Deposit(tx.hash, tx.blockNumber)), io.clock, r)
  {
    r := TransitionMoves(w.tables, id, AwaitingDeposit, DepositFinalizing, SetDeposit(Deposit(tx.hash, tx.blockNumber)), io.clock);
  }

  lemma FinalizeShape(w: World, id: string, io: Io) returns (r: T.Result)
    ensures TaskStep(w, FinalizeDeposit(id), io) == Commit(w, r, None)
    ensures IsMove(w.tables, id, DepositFinalizing, Funded, NoMutation, io.clock, r)
  {
    r := TransitionMoves(w.tables, id, DepositFinalizing, Funded, NoMutation, io.clock);
  }

  lemma ExpireShape(w: World, id: string, io: Io)
    ensures TaskStep(w, ExpireReservation(id), io) == Commit(w, T.ReleaseUnpaid(w.tables, id, Expired, io.clock), None)
  {
  }

  lemma DepositStepOk(s: System, pid: nat, task: Task, io: Io)
    requires Ready(s, pid, task) && (task.RecordDeposit? || task.FinalizeDeposit? || task.ExpireReservation?)
    ensures Inv(Stepped(s, pid, task, io))
  {
    match task
    case RecordDeposit(id, tx) =>
      var r := RecordShape(s.world, id, tx, io);
      RecordCommit(s, pid, id, tx, io.clock, r);
    case FinalizeDeposit(id) =>
      var r := FinalizeShape(s.world, id, io);
      FinalizeCommit(s, pid, id, io.clock, r);
    case ExpireReservation(id) =>
      ExpireShape(s.world, id, io);
      ExpireCommit(s, pid, id, io.clock);
  }

  lemma HopShape(w: World, id: string, from: TradeState, claim: HandleClaim, io: Io) returns (r: T.Result)
    requires NextInChain(from).Some?
    ensures TaskStep(w, WalkHop(id, from, claim), io) == Commit(w, r, Some(WalkRead(id, claim)))
    ensures var to := NextInChain(from).value;
            IsMove(w.tables, id, from, to, if to == SettlementPending then SetClaim(claim.txHash) else NoMutation, io.clock, r)
  {
    var to := NextInChain(from).value;
    r := TransitionMoves(w.tables, id, from, to, if to == SettlementPending then SetClaim(claim.txHash) else NoMutation, io.clock);
  }

  lemma NoHopShape(w: World, id: string, from: TradeState, claim: HandleClaim, io: Io)
    requires NextInChain(from).None?
    ensures TaskStep(w, WalkHop(id, from, claim), io) == Stop(w)
  {
  }

  lemma NextIsPlain(from: TradeState)
    requires NextInChain(from).Some?
    ensures NextInChain(from) == Some(SettlementPending) ==> from == ClaimConfirming
    ensures NextInChain(from) != Some(SettlementPending) ==> PlainMove(from, NextInChain(from).value, NoMutation)
  {
  }

  lemma WalkHopOk(s: System, pid: nat, id: string, from: TradeState, claim: HandleClaim, io: Io)
    requires Inv(s) && pid !in s.tasks && TaskOk(s.world, s.chain, s.resolved, WalkRead(id, claim))
    ensures Inv(Stepped(s, pid, WalkHop(id, from, claim), io))
  {
    if NextInChain(from).None? {
      NoHopShape(s.world, id, from, claim, io);
      Stopped(s, pid);
    } else {
      var r := HopShape(s.world, id, from, claim, io);
      NextIsPlain(from);
      if NextInChain(from) == Some(SettlementPending) {
        SettlingCommit(s, pid, id, claim, io.clock, r);
      } else {
        PlainCommit(s, pid, id, from, NextInChain(from).value, NoMutation, io.clock, Some(WalkRead(id, claim)), r);
      }
    }
  }

  lemma FailShape(w: World, id: string, from: TradeState, claim: HandleClaim, io: Io) returns (r: T.Result)
    ensures TaskStep(w, FailHop(id, from, claim), io) == Commit(w, r, Some(FailToRefund(id)))
    ensures IsMove(w.tables, id, from, FailedAfterRelease, NoMutation, io.clock, r)
  {
    r := TransitionMoves(w.tables, id, from, FailedAfterRelease, NoMutation, io.clock);
  }

  lemma FailHopOk(s: System, pid: nat, id: string, from: TradeState, claim: HandleClaim, io: Io)
    requires Inv(s) && pid !in s.tasks && StrangerResolved(s.world, s.resolved, id, claim)
    ensures Inv(Stepped(s, pid, FailHop(id, from, claim), io))
  {
    var r := FailShape(s.world, id, from, claim, io);
    FailCommit(s, pid, id, from, claim, io.clock, r);
  }

  lemma HopStepOk(s: System, pid: nat, task: Task, io: Io)
    requires Ready(s, pid, task) && (task.WalkHop? || task.FailHop?)
    ensures Inv(Stepped(s, pid, task, io))
  {
    match task
    case WalkHop(id, from, claim) => WalkHopOk(s, pid, id, from, claim, io);
    case FailHop(id, from, claim) => FailHopOk(s, pid, id, from, claim, io);
  }

  lemma MarkShape(s: System, pid: nat, id: string, io: Io)
    ensures Stepped(s, pid, SettleMark(id), io) == After(s, pid, SettleMarkStep(s.world, id, io.clock))
    ensures Stepped(s, pid, RefundMark(id), io) == After(s, pid, RefundMarkStep(s.world, id, io.clock))
  {
  }

  lemma MarkStepOk(s: System, pid: nat, task: Task, io: Io)
    requires Ready(s, pid, task) && (task.SettleMark? || task.RefundMark?)
    ensures Inv(Stepped(s, pid, task, io))
  {
    MarkShape(s, pid, task.id, io);
    if task.SettleMark? {
      SettleMarkOk(s, pid, task.id, io.clock);
    } else {
      RefundMarkOk(s, pid, task.id, io.clock);
    }
  }

  lemma SendShape(w: World, id: string, terms: Terms, at: UnixTime, io: Io)
    ensures TaskStep(w, SettleSend(id, terms, at), io) == SettleSendStep(w, id, terms, at, io.signed)
    ensures TaskStep(w, RefundSend(id, terms, at), io) == RefundSendStep(w, id, terms, at, io.signed)
  {
  }

  lemma PayBookShape(w: World, id: string, terms: Terms, at: UnixTime, h: string, io: Io)
    ensures TaskStep(w, SettleBookPayout(id, terms, at, h), io) == Book(w, NextLine(id, terms, at, 0, h), SettleBookFee(id, terms, at, h))
    ensures TaskStep(w, SettleBookFee(id, terms, at, h), io) == Book(w, NextLine(id, terms, at, 1, h), SettleFinish(id, terms, at, h))
  {
  }

  lemma RefundBookShape(w: World, id: string, terms: Terms, at: UnixTime, h: string, io: Io)
    ensures TaskStep(w, RefundBook(id, terms, at, h), io) == Book(w, RefundLine(id, terms, at, h), RefundFinish(id, terms, at, h))
  {
  }

  lemma SettleFinishShape(w: World, id: string, terms: Terms, at: UnixTime, h: string, io: Io) returns (r: T.Result)
    ensures TaskStep(w, SettleFinish(id, terms, at, h), io) == Commit(w, r, None)
    ensures IsMove(w.tables, id, SettlementPending, Settled, SetPayout(h), io.clock, r)
  {
    r := TransitionMoves(w.tables, id, SettlementPending, Settled, SetPayout(h), io.clock);
  }

  lemma RefundFinishShape(w: World, id: string, terms: Terms, at: UnixTime, h: string, io: Io) returns (r: T.Result)
    ensures TaskStep(w, RefundFinish(id, terms, at, h), io) == Commit(w, r, None)
    ensures IsMove(w.tables, id, RefundPending, Refunded, SetRefund(h), io.clock, r)
  {
    r := TransitionMoves(w.tables, id, RefundPending, Refunded, SetRefund(h), io.clock);
  }

  lemma SendStepOk(s: System, pid: nat, task: Task, io: Io)
    requires Ready(s, pid, task) && (task.SettleSend? || task.RefundSend?)
    ensures Inv(Stepped(s, pid, task, io))
  {
    SendShape(s.world, task.id, task.terms, task.at, io);
    match task
    case SettleSend(id, terms, at) => SettleSendOk(s, pid, id, terms, at, io.signed);
    case RefundSend(id, terms, at) => RefundSendOk(s, pid, id, terms, at, io.signed);
  }

  lemma PayBookStepOk(s: System, pid: nat, task: Task, io: Io)
    requires Ready(s, pid, task) && (task.SettleBookPayout? || task.SettleBookFee?)
    ensures Inv(Stepped(s, pid, task, io))
  {
    PayBookShape(s.world, task.id, task.terms, task.at, task.txHash, io);
    SettleBookOk(s, pid, task.id, task.terms, task.at, if task.SettleBookPayout? then 0 else 1, task.txHash);
  }

  lemma RefundBookStepOk(s: System, pid: nat, task: Task, io: Io)
    requires Ready(s, pid, task) && task.RefundBook?
    ensures Inv(Stepped(s, pid, task, io))
  {
    RefundBookShape(s.world, task.id, task.terms, task.at, task.txHash, io);
    RefundBookOk(s, pid, task.id, task.terms, task.at, task.txHash);
  }

  lemma FinishStepOk(s: System, pid: nat, task: Task, io: Io)
    requires Ready(s, pid, task) && (task.SettleFinish? || task.RefundFinish?)
    ensures Inv(Stepped(s, pid, task, io))
  {
    match task
    case SettleFinish(id, terms, at, h) =>
      var r := SettleFinishShape(s.world, id, terms, at, h, io);
      SettleCommit(s, pid, id, terms, at, h, io.clock, r);
    case RefundFinish(id, terms, at, h) =>
      var r := RefundFinishShape(s.world, id, terms, at, h, io);
      RefundCommit(s, pid, id, terms, at, h, io.clock, r);
  }

  lemma StepOk(s: System, pid: nat, task: Task, io: Io)
    requires Ready(s, pid, task)
    ensures Inv(Stepped(s, pid, task, io))
  {
    if OnlyLooks(task) {
      ReadStepOk(s, pid, task, io);
    } else if IsPlainTask(task) {
      PlainStepOk(s, pid, task, io);
    } else if task.WalkHop? || task.FailHop? {
      HopStepOk(s, pid, task, io);
    } else if task.SettleMark? || task.RefundMark? {
      MarkStepOk(s, pid, task, io);
    } else if task.SettleSend? || task.RefundSend? {
      SendStepOk(s, pid, task, io);
    } else if task.SettleBookPayout? || task.SettleBookFee? {
      PayBookStepOk(s, pid, task, io);
    } else if task.RefundBook? {
      RefundBookStepOk(s, pid, task, io);
    } else if task.SettleFinish? || task.RefundFinish? {
      FinishStepOk(s, pid, task, io);
    } else {
      DepositStepOk(s, pid, task, io);
    }
  }

  lemma SetAside(s: System, pid: nat)
    requires Inv(s) && pid in s.tasks
    ensures Ready(s.(tasks := s.tasks - {pid}), pid, s.tasks[pid])
  {
    DropTask(s, pid);
  }

  lemma AdvanceShape(s: System, pid: nat, io: Io)
    requires pid in s.tasks
    ensures Next(s, Advance(pid, io)) == Stepped(s.(tasks := s.tasks - {pid}), pid, s.tasks[pid], io)
  {
    var next := TaskStep(s.world, s.tasks[pid], io).next;
    assert WithTask(s.tasks, pid, next) == WithTask(s.tasks - {pid}, pid, next);
  }

  lemma AdvanceOk(s: System, pid: nat, io: Io)
    requires Inv(s)
    ensures Inv(Next(s, Advance(pid, io)))
  {
    if pid in s.tasks {
      SetAside(s, pid);
      StepOk(s.(tasks := s.tasks - {pid}), pid, s.tasks[pid], io);
      AdvanceShape(s, pid, io);
    }
  }

  // ---- Requests and task starts ----

  lemma SurvivesListing(w: World, chain: Chain, resolved: set<Resolution>, task: Task, after: T.Tables)
    requires TaskOk(w, chain, resolved, task) && after.trades == w.tables.trades
    ensures TaskOk(w.(tables := after), chain, resolved, task)
  {
  }

  lemma ListingsOnly(s: System, after: T.Tables)
    requires Inv(s) && TablesOk(after) && after.trades == s.world.tables.trades
    ensures Inv(s.(world := s.world.(tables := after)))
  {
    forall id | id in after.trades
      ensures RowOk(s.world.(tables := after), s.chain, s.resolved, id)
    {
      assert RowOk(s.world, s.chain, s.resolved, id);
    }
    forall p | p in s.tasks
      ensures TaskOk(s.world.(tables := after), s.chain, s.resolved, s.tasks[p])
    {
      SurvivesListing(s.world, s.chain, s.resolved, s.tasks[p], after);
    }
  }

  lemma WithTablesOk(s: System, r: T.Result)
    requires Inv(s) && (r.Ok? ==> Inv(s.(world := s.world.(tables := r.value))))
    ensures Inv(WithTables(s, r))
  {
  }

  lemma ListShape(s: System, handle: string, seller: string, price: nat, fee: nat, epoch: string, clock: UnixTime)
    ensures Next(s, ListHandle(handle, seller, price, fee, epoch, clock)) ==
      WithTables(s, T.CreateListing(s.world.tables, handle, seller, price, fee, epoch, clock))
  {
  }

  lemma ListOk(s: System, handle: string, seller: string, price: nat, fee: nat, epoch: string, clock: UnixTime)
    requires Inv(s)
    ensures Inv(Next(s, ListHandle(handle, seller, price, fee, epoch, clock)))
  {
    var r := T.CreateListing(s.world.tables, handle, seller, price, fee, epoch, clock);
    if r.Ok? {
      CreateKeepsOrder(s.world.tables, handle, seller, price, fee, epoch, clock);
      ListingsOnly(s, r.value);
    }
    WithTablesOk(s, r);
    ListShape(s, handle, seller, price, fee, epoch, clock);
  }

  lemma {:induction false} UnknownHasNoBooks(w: World, id: string)
    requires forall i :: 0 <= i < |w.ledger| ==> w.ledger[i].tradeId != id
    requires forall i :: 0 <= i < |w.sends| ==> w.sends[i].tradeId != id
    ensures SendsOf(w.sends, id) == [] && L.EntriesOf(w.ledger, id) == []
    decreases |w.ledger| + |w.sends|
  {
    if |w.ledger| > 0 {
      UnknownHasNoBooks(w.(ledger := w.ledger[..|w.ledger| - 1]), id);
    }
    if |w.sends| > 0 {
      UnknownHasNoBooks(w.(sends := w.sends[..|w.sends| - 1]), id);
    }
  }

  lemma FreshRow(w: World, chain: Chain, resolved: set<Resolution>, id: string, l: Listing, reference: string, buyer: string, clock: int)
    requires SendsOf(w.sends, id) == [] && L.EntriesOf(w.ledger, id) == []
    ensures var t := T.NewTrade(l, reference, buyer, clock);
            RowFacts(w, chain, resolved, t) && BooksOk(id, t, SendsOf(w.sends, id), L.EntriesOf(w.ledger, id))
  {
  }

  lemma SurvivesInsert(w: World, chain: Chain, resolved: set<Resolution>, task: Task, after: T.Tables, id: string)
    requires TaskOk(w, chain, resolved, task)
    requires id !in w.tables.trades && id in after.trades && after.trades == w.tables.trades[id := after.trades[id]]
    ensures TaskOk(w.(tables := after), chain, resolved, task)
  {
  }

  lemma InsertRow(s: System, after: T.Tables, id: string)
    requires Inv(s) && TablesOk(after)
    requires id !in s.world.tables.trades && id in after.trades && after.trades == s.world.tables.trades[id := after.trades[id]]
    requires RowOk(s.world.(tables := after), s.chain, s.resolved, id)
    ensures Inv(s.(world := s.world.(tables := after)))
  {
    var w' := s.world.(tables := after);
    forall k | k in after.trades
      ensures RowOk(w', s.chain, s.resolved, k)
    {
      if k != id {
        assert RowOk(s.world, s.chain, s.resolved, k);
      }
    }
    forall p | p in s.tasks
      ensures TaskOk(w', s.chain, s.resolved, s.tasks[p])
    {
      SurvivesInsert(s.world, s.chain, s.resolved, s.tasks[p], after, id);
    }
  }

  lemma ReserveRow(s: System, handle: string, id: string, reference: string, buyer: string, clock: UnixTime)
    requires Inv(s) && T.ReserveListing(s.world.tables, handle, id, reference, buyer, clock).Ok?
    ensures Inv(s.(world := s.world.(tables := T.ReserveListing(s.world.tables, handle, id, reference, buyer, clock).value)))
  {
    var after := T.ReserveListing(s.world.tables, handle, id, reference, buyer, clock).value;
    ReserveKeepsOrder(s.world.tables, handle, id, reference, buyer, clock);
    UnknownHasNoBooks(s.world, id);
    FreshRow(s.world, s.chain, s.resolved, id, s.world.tables.listings[handle].(handle := handle), reference, buyer, clock);
    InsertRow(s, after, id);
  }

  lemma ReserveOk(s: System, pid: nat, handle: string, id: string, reference: string, buyer: string, clock: UnixTime)
    requires Inv(s)
    ensures Inv(Next(s, ReserveHandle(pid, handle, id, reference, buyer, clock)))
  {
    var r := T.ReserveListing(s.world.tables, handle, id, reference, buyer, clock);
    if r.Ok? && pid !in s.tasks {
      ReserveRow(s, handle, id, reference, buyer, clock);
      AddTask(s.(world := s.world.(tables := r.value)), pid, AdvanceReserved(id));
    }
  }

  lemma CancelShape(s: System, id: string, clock: UnixTime)
    ensures Next(s, CancelTrade(id, clock)) == WithTables(s, T.ReleaseUnpaid(s.world.tables, id, Canceled, clock))
  {
  }

  lemma CancelOk(s: System, id: string, clock: UnixTime)
    requires Inv(s)
    ensures Inv(Next(s, CancelTrade(id, clock)))
  {
    var r := T.ReleaseUnpaid(s.world.tables, id, Canceled, clock);
    if r.Ok? {
      WithdrawOk(s, id, Canceled, clock);
    }
    WithTablesOk(s, r);
    CancelShape(s, id, clock);
  }

  lemma TaskSurvivesTime(w: World, chain: Chain, resolved: set<Resolution>, task: Task, chain': Chain, resolved': set<Resolution>)
    requires TaskOk(w, chain, resolved, task) && Later(chain, resolved, chain', resolved')
    ensures TaskOk(w, chain', resolved', task)
  {
  }

  /** More of the chain has been seen or finalised, and more of the registry resolved. */
  predicate Later(chain: Chain, resolved: set<Resolution>, chain': Chain, resolved': set<Resolution>) {
    chain.seen <= chain'.seen && chain.macro <= chain'.macro && resolved <= resolved'
  }

  lemma RowSurvivesTime(escrow: string, chain: Chain, resolved: set<Resolution>, t: Trade, chain': Chain, resolved': set<Resolution>)
    requires FundsOk(escrow, chain, t) && ResolvedOk(resolved, t) && Later(chain, resolved, chain', resolved')
    ensures FundsOk(escrow, chain', t) && ResolvedOk(resolved', t)
  {
  }

  lemma RowsSurviveTime(w: World, chain: Chain, resolved: set<Resolution>, chain': Chain, resolved': set<Resolution>)
    requires RowsOk(w, chain, resolved) && Later(chain, resolved, chain', resolved')
    ensures RowsOk(w, chain', resolved')
  {
    forall id | id in w.tables.trades
      ensures RowOk(w, chain', resolved', id)
    {
      assert RowOk(w, chain, resolved, id);
      RowSurvivesTime(w.escrow, chain, resolved, w.tables.trades[id], chain', resolved');
    }
  }

  lemma TasksSurviveTime(w: World, chain: Chain, resolved: set<Resolution>, tasks: map<nat, Task>, chain': Chain, resolved': set<Resolution>)
    requires TasksOk(w, chain, resolved, tasks) && Later(chain, resolved, chain', resolved')
    ensures TasksOk(w, chain', resolved', tasks)
  {
    forall p | p in tasks
      ensures TaskOk(w, chain', resolved', tasks[p])
    {
      TaskSurvivesTime(w, chain, resolved, tasks[p], chain', resolved');
    }
  }

  lemma TimePasses(s: System, chain': Chain, registry': Handles, resolved': set<Resolution>)
    requires Inv(s) && Later(s.chain, s.resolved, chain', resolved')
    requires ChainOk(s.setup, chain', registry', resolved')
    ensures Inv(s.(chain := chain', registry := registry', resolved := resolved'))
  {
    RowsSurviveTime(s.world, s.chain, s.resolved, chain', resolved');
    TasksSurviveTime(s.world, s.chain, s.resolved, s.tasks, chain', resolved');
  }

  lemma EvidenceFits(s: System, task: Task)
    requires MayStart(s, task) && ChainOk(s.setup, s.chain, s.registry, s.resolved)
    requires forall id :: id in s.world.tables.trades ==> FundsOk(s.world.escrow, s.chain, s.world.tables.trades[id])
    ensures TaskOk(s.world, s.chain, s.resolved + Evidence(s, task), task) && WorksOn(task).None?
    ensures ChainOk(s.setup, s.chain, s.registry, s.resolved + Evidence(s, task))
  {
  }

  lemma FundsHold(s: System)
    requires RowsOk(s.world, s.chain, s.resolved)
    ensures forall id :: id in s.world.tables.trades ==> FundsOk(s.world.escrow, s.chain, s.world.tables.trades[id])
  {
    forall id | id in s.world.tables.trades
      ensures FundsOk(s.world.escrow, s.chain, s.world.tables.trades[id])
    {
      assert RowOk(s.world, s.chain, s.resolved, id);
    }
  }

  lemma StartShape(s: System, pid: nat, task: Task)
    requires pid !in s.tasks && MayStart(s, task)
    ensures var s' := s.(resolved := s.resolved + Evidence(s, task));
            Next(s, Start(pid, task)) == s'.(tasks := s'.tasks[pid := task])
  {
  }

  lemma EvidenceOk(s: System, task: Task)
    requires Inv(s) && MayStart(s, task)
    ensures var s' := s.(resolved := s.resolved + Evidence(s, task));
            Inv(s') && TaskOk(s'.world, s'.chain, s'.resolved, task) && WorksOn(task).None?
  {
    FundsHold(s);
    EvidenceFits(s, task);
    TimePasses(s, s.chain, s.registry, s.resolved + Evidence(s, task));
  }

  lemma StartRefused(s: System, pid: nat, task: Task)
    requires pid in s.tasks || !MayStart(s, task)
    ensures Next(s, Start(pid, task)) == s
  {
  }

  /** A start that is not refused adds a task that may rely on what it has read. */
  lemma Started(s: System, pid: nat, task: Task) returns (s': System)
    requires Inv(s) && pid !in s.tasks && MayStart(s, task)
    ensures Next(s, Start(pid, task)) == s'.(tasks := s'.tasks[pid := task]) && pid !in s'.tasks
    ensures Inv(s') && TaskOk(s'.world, s'.chain, s'.resolved, task) && WorksOn(task).None?
  {
    s' := s.(resolved := s.resolved + Evidence(s, task));
    EvidenceOk(s, task);
    StartShape(s, pid, task);
  }

  lemma StartOk(s: System, pid: nat, task: Task)
    requires Inv(s)
    ensures Inv(Next(s, Start(pid, task)))
  {
    if pid in s.tasks || !MayStart(s, task) {
      StartRefused(s, pid, task);
    } else {
      var s' := Started(s, pid, task);
      AddTask(s', pid, task);
    }
  }

  lemma StillClaimed(setup: Setup, seen: set<RpcTx>, handle: string, claim: HandleClaim, more: set<RpcTx>)
    requires WasClaimed(setup, seen, handle, claim) && seen <= more
    ensures WasClaimed(setup, more, handle, claim)
  {
  }

  lemma ClaimsSurvive(setup: Setup, chain: Chain, registry: Handles, resolved: set<Resolution>, chain': Chain)
    requires RegistryOk(setup, chain.seen, registry) && ResolutionsOk(setup, chain, resolved)
    requires chain.seen <= chain'.seen && chain.macro <= chain'.macro
    ensures RegistryOk(setup, chain'.seen, registry) && ResolutionsOk(setup, chain', resolved)
  {
    forall h | h in registry
      ensures WasClaimed(setup, chain'.seen, h, registry[h])
    {
      StillClaimed(setup, chain.seen, h, registry[h], chain'.seen);
    }
    forall r | r in resolved
      ensures WasClaimed(setup, chain'.seen, r.handle, r.claim)
    {
      StillClaimed(setup, chain.seen, r.handle, r.claim, chain'.seen);
    }
  }

  lemma ChainEventOk(s: System, e: Event)
    requires Inv(s) && (e.Include? || e.Reorganise? || e.MacroBlock?)
    ensures Inv(Next(s, e))
  {
    var chain' := ChainMoves(s, e);
    ClaimsSurvive(s.setup, s.chain, s.registry, s.resolved, chain');
    TimePasses(s, chain', s.registry, s.resolved);
  }

  lemma ChainMoves(s: System, e: Event) returns (chain': Chain)
    requires SeenOk(s.chain) && (e.Include? || e.Reorganise? || e.MacroBlock?)
    ensures Next(s, e) == s.(chain := chain')
    ensures SeenOk(chain') && s.chain.seen <= chain'.seen && s.chain.macro <= chain'.macro
  {
    chain' := Next(s, e).chain;
  }

  /** What a sweep finds was claimed on the chain. */
  lemma SweptIsClaimed(setup: Setup, chain: Chain, ordered: seq<RpcTx>)
    requires chain.live <= chain.seen && forall tx :: tx in ordered ==> tx in chain.live && setup.IsInbound(tx)
    ensures RegistryOk(setup, chain.seen, Fold(setup.Rules(), ordered))
  {
    forall h | h in Fold(setup.Rules(), ordered)
      ensures WasClaimed(setup, chain.seen, h, Fold(setup.Rules(), ordered)[h])
    {
      var i := EntryHasMaker(setup.Rules(), ordered, h);
      assert ordered[i] in ordered;
    }
  }

  lemma SweptOk(s: System, ordered: seq<RpcTx>)
    requires Inv(s)
    ensures Inv(Next(s, RegistrySwept(ordered)))
  {
    if IsSweepable(s, ordered) {
      SweptIsClaimed(s.setup, s.chain, ordered);
      TimePasses(s, s.chain, Fold(s.setup.Rules(), ordered), s.resolved);
    }
  }

  lemma NonceOk(s: System, nonce: string)
    requires Inv(s)
    ensures Inv(Next(s, UseNonce(nonce)))
  {
    var r := T.ConsumeNonce(s.world.tables, nonce);
    if r.Ok? {
      NonceKeepsOrder(s.world.tables, nonce);
      ListingsOnly(s, r.value);
    }
  }

  lemma RequestOk(s: System, e: Event)
    requires Inv(s) && (e.UseNonce? || e.ListHandle? || e.ReserveHandle? || e.CancelTrade?)
    ensures Inv(Next(s, e))
  {
    match e
    case UseNonce(nonce) => NonceOk(s, nonce);
    case ListHandle(handle, seller, price, fee, epoch, clock) => ListOk(s, handle, seller, price, fee, epoch, clock);
    case ReserveHandle(pid, handle, id, reference, buyer, clock) => ReserveOk(s, pid, handle, id, reference, buyer, clock);
    case CancelTrade(id, clock) => CancelOk(s, id, clock);
  }

  lemma CrashShape(s: System, pid: nat)
    ensures Next(s, Crash(pid)) == s.(tasks := s.tasks - {pid})
  {
  }

  lemma CrashOk(s: System, pid: nat)
    requires Inv(s)
    ensures Inv(Next(s, Crash(pid)))
  {
    CrashShape(s, pid);
    DropTask(s, pid);
  }

  lemma NextOk(s: System, e: Event)
    requires Inv(s)
    ensures Inv(Next(s, e))
  {
    if e.Start? {
      StartOk(s, e.pid, e.task);
    } else if e.Advance? {
      AdvanceOk(s, e.pid, e.io);
    } else if e.Crash? {
      CrashOk(s, e.pid);
    } else if e.RegistrySwept? {
      SweptOk(s, e.ordered);
    } else if e.Include? || e.Reorganise? || e.MacroBlock? {
      ChainEventOk(s, e);
    } else {
      RequestOk(s, e);
    }
  }

  lemma {:induction false} RunFromOk(s: System, more: seq<Event>)
    requires Inv(s)
    ensures Inv(Run(s, more))
  {
    if |more| > 0 {
      RunFromOk(s, more[..|more| - 1]);
      NextOk(Run(s, more[..|more| - 1]), more[|more| - 1]);
    }
  }

  /** Every state of every run of the program from an empty database is in order. */
  lemma RunOk(setup: Setup, events: seq<Event>)
    ensures Inv(Run(Initial(setup), events))
  {
    InitialOk(setup);
    RunFromOk(Initial(setup), events);
  }
}
