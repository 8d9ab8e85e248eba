/** A whole call of the settlement worker is a run of the protocol: its effect on the world is that of the
    worker's task started and advanced to its end with nobody in between. */
module SettlementRefinement {
  import opened Wrappers
  import opened Trades
  import opened EscrowSystem
  import opened EscrowHistory
  import opened SettlementWorkers
  import L = Ledger
  import T = MarketplaceTables

  datatype Point = Point(world: World, task: Task)

  ghost predicate Goes(a: Point, io: Io, b: Point) {
    TaskStep(a.world, a.task, io) == StepResult(b.world, Some(b.task))
  }

  ghost predicate Ends(a: Point, io: Io, last: World) {
    TaskStep(a.world, a.task, io) == StepResult(last, None)
  }

  /** The points a task passes through until it stops in the world `last`. */
  ghost predicate IsExecution(points: seq<Point>, io: Io, last: World) {
    && |points| > 0
    && (forall i :: 0 <= i < |points| - 1 ==> Goes(points[i], io, points[i + 1]))
    && Ends(points[|points| - 1], io, last)
  }

  function Advances(pid: nat, io: Io, n: nat): seq<Event> {
    seq(n, _ => Advance(pid, io))
  }

  ghost function At(s: System, pid: nat, p: Point): System {
    s.(world := p.world, tasks := s.tasks[pid := p.task])
  }

  lemma Advanced(s: System, pid: nat, a: Point, b: Point, io: Io)
    requires Goes(a, io, b)
    ensures Next(At(s, pid, a), Advance(pid, io)) == At(s, pid, b)
  {
    assert At(s, pid, a).tasks[pid := b.task] == s.tasks[pid := b.task];
  }

  lemma Finished(s: System, pid: nat, a: Point, io: Io, last: World)
    requires Ends(a, io, last) && pid !in s.tasks
    ensures Next(At(s, pid, a), Advance(pid, io)) == s.(world := last)
  {
    assert At(s, pid, a).tasks - {pid} == s.tasks;
  }

  lemma OneMoreAdvance(s: System, pid: nat, io: Io, n: nat)
    ensures Run(s, Advances(pid, io, n + 1)) == Next(Run(s, Advances(pid, io, n)), Advance(pid, io))
  {
    assert Advances(pid, io, n + 1)[..n] == Advances(pid, io, n);
  }

  lemma {:induction false} Halfway(s: System, pid: nat, points: seq<Point>, io: Io, last: World, k: nat)
    requires IsExecution(points, io, last) && k < |points|
    ensures Run(At(s, pid, points[0]), Advances(pid, io, k)) == At(s, pid, points[k])
  {
    if k > 0 {
      Halfway(s, pid, points, io, last, k - 1);
      OneMoreAdvance(At(s, pid, points[0]), pid, io, k - 1);
      assert Goes(points[k - 1], io, points[k - 1 + 1]);
      Advanced(s, pid, points[k - 1], points[k], io);
    }
  }

  /** A task that is left alone takes the world from its first point to `last` and is gone. */
  lemma ExecutionIsRun(s: System, pid: nat, points: seq<Point>, io: Io, last: World)
    requires IsExecution(points, io, last) && pid !in s.tasks
    ensures Run(At(s, pid, points[0]), Advances(pid, io, |points|)) == s.(world := last)
  {
    var n := |points|;
    Halfway(s, pid, points, io, last, n - 1);
    OneMoreAdvance(At(s, pid, points[0]), pid, io, n - 1);
    Finished(s, pid, points[n - 1], io, last);
  }

  // ---- Settle ----

  lemma ReadGoes(w: World, id: string, io: Io)
    requires id in w.tables.trades && IsPayable(w.tables.trades[id])
    ensures Goes(Point(w, SettleRead(id)), io, Point(w, SettleMark(id)))
  {
  }

  function Marked(w: World, id: string, at: int): World
    requires id in w.tables.trades
  {
    w.(tables := WithTrade(w.tables, id, PaidRow(w.tables.trades[id], at, None)))
  }

  lemma MarkGoes(w: World, id: string, io: Io)
    requires id in w.tables.trades && IsPayable(w.tables.trades[id])
    ensures Goes(Point(w, SettleMark(id)), io, Point(Marked(w, id, io.clock), SettleSend(id, w.tables.trades[id].terms, io.clock)))
  {
  }

  lemma SendGoes(w: World, id: string, terms: Terms, at: UnixTime, io: Io)
    ensures var sent := w.(sends := w.sends + [PayoutSend(id, terms)]);
            match io.signed
            case None => Ends(Point(w, SettleSend(id, terms, at)), io, sent)
            case Some(h) => Goes(Point(w, SettleSend(id, terms, at)), io, Point(sent, SettleBookPayout(id, terms, at, h)))
  {
  }

  lemma BookGoes(w: World, id: string, terms: Terms, at: UnixTime, h: string, io: Io)
    ensures Goes(Point(w, SettleBookPayout(id, terms, at, h)), io,
                 Point(w.(ledger := w.ledger + [PayoutLine(id, terms, at, h)]), SettleBookFee(id, terms, at, h)))
    ensures Goes(Point(w, SettleBookFee(id, terms, at, h)), io,
                 Point(w.(ledger := w.ledger + [FeeLine(id, terms, at)]), SettleFinish(id, terms, at, h)))
  {
  }

  lemma FinishEnds(w: World, id: string, terms: Terms, at: UnixTime, h: string, io: Io)
    requires id in w.tables.trades && w.tables.trades[id].state.SettlementPending?
    ensures Ends(Point(w, SettleFinish(id, terms, at, h)), io,
                 w.(tables := WithTrade(w.tables, id, T.Moved(w.tables.trades[id], Settled, SetPayout(h), io.clock))))
  {
  }

  /** The worlds a signed payout passes through. */
  function PayoutPoints(w: World, id: string, now: UnixTime, h: string): seq<Point>
    requires id in w.tables.trades
  {
    var t := w.tables.trades[id];
    var w1 := Marked(w, id, now);
    var w2 := w1.(sends := w1.sends + [PayoutSend(id, t.terms)]);
    var w3 := w2.(ledger := w2.ledger + [PayoutLine(id, t.terms, now, h)]);
    var w4 := w3.(ledger := w3.ledger + [FeeLine(id, t.terms, now)]);
    [ Point(w, SettleRead(id)), Point(w, SettleMark(id)), Point(w1, SettleSend(id, t.terms, now)),
      Point(w2, SettleBookPayout(id, t.terms, now, h)), Point(w3, SettleBookFee(id, t.terms, now, h)),
      Point(w4, SettleFinish(id, t.terms, now, h)) ]
  }

  lemma FinalWorld(w: World, id: string, now: UnixTime, h: string)
    requires id in w.tables.trades && IsPayable(w.tables.trades[id])
    ensures var last := PayoutPoints(w, id, now, h)[5].world;
            id in last.tables.trades && last.tables.trades[id].state.SettlementPending? && Paid(w, id, now, Some(h))
              == last.(tables := WithTrade(last.tables, id, T.Moved(last.tables.trades[id], Settled, SetPayout(h), now)))
  {
    var t := w.tables.trades[id];
    var last := PayoutPoints(w, id, now, h)[5].world;
    assert last.ledger == w.ledger + [PayoutLine(id, t.terms, now, h), FeeLine(id, t.terms, now)];
    assert T.Moved(last.tables.trades[id], Settled, SetPayout(h), now) == PaidRow(t, now, Some(h));
    assert last.tables.trades[id := PaidRow(t, now, Some(h))] == w.tables.trades[id := PaidRow(t, now, Some(h))];
  }

  lemma SignedPayout(w: World, id: string, now: UnixTime, h: string)
    requires id in w.tables.trades && IsPayable(w.tables.trades[id])
    ensures IsExecution(PayoutPoints(w, id, now, h), Io(now, Some(h)), Paid(w, id, now, Some(h)))
  {
    var io, points, terms := Io(now, Some(h)), PayoutPoints(w, id, now, h), w.tables.trades[id].terms;
    ReadGoes(w, id, io);
    MarkGoes(w, id, io);
    SendGoes(points[2].world, id, terms, now, io);
    BookGoes(points[3].world, id, terms, now, h, io);
    BookGoes(points[4].world, id, terms, now, h, io);
    FinalWorld(w, id, now, h);
    FinishEnds(points[5].world, id, terms, now, h, io);
  }

  lemma UnsignedPayout(w: World, id: string, now: UnixTime)
    requires id in w.tables.trades && IsPayable(w.tables.trades[id])
    ensures IsExecution(PayoutPoints(w, id, now, "")[..3], Io(now, None), Paid(w, id, now, None))
  {
    var io := Io(now, None);
    ReadGoes(w, id, io);
    MarkGoes(w, id, io);
    SendGoes(PayoutPoints(w, id, now, "")[2].world, id, w.tables.trades[id].terms, now, io);
    assert w.ledger + [] == w.ledger;
  }

  /** A call that does not pay reads the trade and stops, or tries to mark it and stops. */
  lemma IdlePayout(w: World, id: string, io: Io) returns (points: seq<Point>)
    requires id !in w.tables.trades || !IsPayable(w.tables.trades[id])
    ensures IsExecution(points, io, w) && points[0] == Point(w, SettleRead(id))
  {
    points := [Point(w, SettleRead(id))];
    if TaskStep(w, SettleRead(id), io).next.Some? {
      assert Goes(points[0], io, Point(w, SettleMark(id)));
      points := points + [Point(w, SettleMark(id))];
      assert Ends(points[1], io, w);
    }
  }

  lemma PaidIsExecution(w: World, id: string, now: UnixTime, answer: Option<string>) returns (points: seq<Point>)
    ensures IsExecution(points, Io(now, answer), Paid(w, id, now, answer)) && points[0] == Point(w, SettleRead(id))
  {
    if id !in w.tables.trades || !IsPayable(w.tables.trades[id]) {
      points := IdlePayout(w, id, Io(now, answer));
    } else if answer.None? {
      points := PayoutPoints(w, id, now, "")[..3];
      UnsignedPayout(w, id, now);
    } else {
      points := PayoutPoints(w, id, now, answer.value);
      SignedPayout(w, id, now, answer.value);
    }
  }

  // ---- Refund ----

  function RefundPoints(w: World, id: string, now: UnixTime, h: string): seq<Point>
    requires id in w.tables.trades
  {
    var t := w.tables.trades[id];
    var w1 := w.(tables := WithTrade(w.tables, id, RepaidRow(t, now, None)));
    var w2 := w1.(sends := w1.sends + [RefundSendOf(id, t.terms)]);
    var w3 := w2.(ledger := w2.ledger + [RefundLine(id, t.terms, now, h)]);
    [ Point(w, RefundRead(id)), Point(w, RefundMark(id)), Point(w1, RefundSend(id, t.terms, now)),
      Point(w2, RefundBook(id, t.terms, now, h)), Point(w3, RefundFinish(id, t.terms, now, h)) ]
  }

  lemma RefundStarts(w: World, id: string, now: UnixTime, h: string, io: Io)
    requires id in w.tables.trades && IsRefundable(w.tables.trades[id]) && io.clock == now
    ensures var points := RefundPoints(w, id, now, h); Goes(points[0], io, points[1]) && Goes(points[1], io, points[2])
  {
  }

  lemma RefundSends(w: World, id: string, terms: Terms, at: UnixTime, io: Io)
    ensures var sent := w.(sends := w.sends + [RefundSendOf(id, terms)]);
            match io.signed
            case None => Ends(Point(w, RefundSend(id, terms, at)), io, sent)
            case Some(h) => Goes(Point(w, RefundSend(id, terms, at)), io, Point(sent, RefundBook(id, terms, at, h)))
  {
  }

  lemma RefundBooks(w: World, id: string, terms: Terms, at: UnixTime, h: string, io: Io)
    ensures Goes(Point(w, RefundBook(id, terms, at, h)), io,
                 Point(w.(ledger := w.ledger + [RefundLine(id, terms, at, h)]), RefundFinish(id, terms, at, h)))
  {
  }

  lemma RefundEnds(w: World, id: string, terms: Terms, at: UnixTime, h: string, io: Io)
    requires id in w.tables.trades && w.tables.trades[id].state.RefundPending?
    ensures Ends(Point(w, RefundFinish(id, terms, at, h)), io,
                 w.(tables := WithTrade(w.tables, id, T.Moved(w.tables.trades[id], Refunded, SetRefund(h), io.clock))))
  {
  }

  lemma FinalRefund(w: World, id: string, now: UnixTime, h: string)
    requires id in w.tables.trades && IsRefundable(w.tables.trades[id])
    ensures var last := RefundPoints(w, id, now, h)[4].world;
            id in last.tables.trades && last.tables.trades[id].state.RefundPending? && Repaid(w, id, now, Some(h))
              == last.(tables := WithTrade(last.tables, id, T.Moved(last.tables.trades[id], Refunded, SetRefund(h), now)))
  {
    var t := w.tables.trades[id];
    var last := RefundPoints(w, id, now, h)[4].world;
    assert T.Moved(last.tables.trades[id], Refunded, SetRefund(h), now) == RepaidRow(t, now, Some(h));
    assert last.tables.trades[id := RepaidRow(t, now, Some(h))] == w.tables.trades[id := RepaidRow(t, now, Some(h))];
  }

  lemma SignedRefund(w: World, id: string, now: UnixTime, h: string)
    requires id in w.tables.trades && IsRefundable(w.tables.trades[id])
    ensures IsExecution(RefundPoints(w, id, now, h), Io(now, Some(h)), Repaid(w, id, now, Some(h)))
  {
    var io, points, terms := Io(now, Some(h)), RefundPoints(w, id, now, h), w.tables.trades[id].terms;
    RefundStarts(w, id, now, h, io);
    RefundSends(points[2].world, id, terms, now, io);
    RefundBooks(points[3].world, id, terms, now, h, io);
    FinalRefund(w, id, now, h);
    RefundEnds(points[4].world, id, terms, now, h, io);
  }

  lemma UnsignedRefund(w: World, id: string, now: UnixTime)
    requires id in w.tables.trades && IsRefundable(w.tables.trades[id])
    ensures IsExecution(RefundPoints(w, id, now, "")[..3], Io(now, None), Repaid(w, id, now, None))
  {
    RefundStarts(w, id, now, "", Io(now, None));
    RefundSends(RefundPoints(w, id, now, "")[2].world, id, w.tables.trades[id].terms, now, Io(now, None));
    assert w.ledger + [] == w.ledger;
  }

  lemma IdleRefund(w: World, id: string, io: Io) returns (points: seq<Point>)
    requires id !in w.tables.trades || !IsRefundable(w.tables.trades[id])
    ensures IsExecution(points, io, w) && points[0] == Point(w, RefundRead(id))
  {
    points := [Point(w, RefundRead(id))];
    if TaskStep(w, RefundRead(id), io).next.Some? {
      assert Goes(points[0], io, Point(w, RefundMark(id)));
      points := points + [Point(w, RefundMark(id))];
      assert Ends(points[1], io, w);
    }
  }

  lemma RepaidIsExecution(w: World, id: string, now: UnixTime, answer: Option<string>) returns (points: seq<Point>)
    ensures IsExecution(points, Io(now, answer), Repaid(w, id, now, answer)) && points[0] == Point(w, RefundRead(id))
  {
    if id !in w.tables.trades || !IsRefundable(w.tables.trades[id]) {
      points := IdleRefund(w, id, Io(now, answer));
    } else if answer.None? {
      points := RefundPoints(w, id, now, "")[..3];
      UnsignedRefund(w, id, now);
    } else {
      points := RefundPoints(w, id, now, answer.value);
      SignedRefund(w, id, now, answer.value);
    }
  }

  // ---- Whole calls ----

  lemma StartedRun(s: System, pid: nat, points: seq<Point>, io: Io, last: World)
    requires IsExecution(points, io, last) && pid !in s.tasks && points[0].world == s.world
    requires MayStart(s, points[0].task) && Evidence(s, points[0].task) == {}
    ensures Run(s, [Start(pid, points[0].task)] + Advances(pid, io, |points|)) == s.(world := last)
  {
    assert [Start(pid, points[0].task)][..0] == [];
    assert Run(s, [Start(pid, points[0].task)]) == Next(s, Start(pid, points[0].task));
    assert s.resolved + {} == s.resolved;
    assert Next(s, Start(pid, points[0].task)) == At(s, pid, points[0]);
    RunOn(s, [Start(pid, points[0].task)], Advances(pid, io, |points|));
    ExecutionIsRun(s, pid, points, io, last);
  }

  lemma CalledRun(s: System, pid: nat, points: seq<Point>, io: Io, last: World)
    requires IsExecution(points, io, last) && pid in s.tasks && points[0] == Point(s.world, s.tasks[pid])
    ensures Run(s, Advances(pid, io, |points|)) == s.(world := last, tasks := s.tasks - {pid})
  {
    var others := s.(tasks := s.tasks - {pid});
    assert others.tasks[pid := s.tasks[pid]] == s.tasks;
    assert At(others, pid, points[0]) == s;
    ExecutionIsRun(others, pid, points, io, last);
  }

  /** In any state of the system in which a task calls Settle, the whole undisturbed call is the run of that task. */
  lemma SettleIsRun(s: System, pid: nat, id: string, now: UnixTime, answer: Option<string>)
    requires pid in s.tasks && s.tasks[pid] == SettleRead(id)
    ensures exists n: nat :: Run(s, Advances(pid, Io(now, answer), n)) == s.(world := Paid(s.world, id, now, answer), tasks := s.tasks - {pid})
  {
    var points := PaidIsExecution(s.world, id, now, answer);
    CalledRun(s, pid, points, Io(now, answer), Paid(s.world, id, now, answer));
  }

  /** The same for Refund. */
  lemma RefundIsRun(s: System, pid: nat, id: string, now: UnixTime, answer: Option<string>)
    requires pid in s.tasks && s.tasks[pid] == RefundRead(id)
    ensures exists n: nat :: Run(s, Advances(pid, Io(now, answer), n)) == s.(world := Repaid(s.world, id, now, answer), tasks := s.tasks - {pid})
  {
    var points := RepaidIsExecution(s.world, id, now, answer);
    CalledRun(s, pid, points, Io(now, answer), Repaid(s.world, id, now, answer));
  }
}
