/** Every event keeps the escrow invariant. */
module EscrowPreservation {
  import opened Wrappers
  import opened Trades
  import opened AddressText
  import opened ChainTypes
  import opened EscrowSystem
  import opened EscrowInvariant
  import opened MarketplaceInvariant
  import L = Ledger
  import T = MarketplaceTables

  ghost predicate NobodyWorksOn(tasks: map<nat, Task>, id: string) {
    forall p :: p in tasks ==> WorksOn(tasks[p]) != Some(id)
  }

  lemma FewerTasksOk(w: World, chain: Chain, resolved: set<Resolution>, tasks: map<nat, Task>, pid: nat)
    requires TasksOk(w, chain, resolved, tasks) && OneWorker(tasks)
    ensures TasksOk(w, chain, resolved, tasks - {pid}) && OneWorker(tasks - {pid})
  {
  }

  lemma DropTask(s: System, pid: nat)
    requires Inv(s)
    ensures Inv(s.(tasks := s.tasks - {pid}))
    ensures pid in s.tasks && WorksOn(s.tasks[pid]).Some? ==> NobodyWorksOn(s.tasks - {pid}, WorksOn(s.tasks[pid]).value)
  {
    FewerTasksOk(s.world, s.chain, s.resolved, s.tasks, pid);
  }

  lemma MoreTasksOk(w: World, chain: Chain, resolved: set<Resolution>, tasks: map<nat, Task>, pid: nat, task: Task)
    requires TasksOk(w, chain, resolved, tasks) && TaskOk(w, chain, resolved, task)
    ensures TasksOk(w, chain, resolved, tasks[pid := task])
  {
  }

  lemma StillOneWorker(tasks: map<nat, Task>, pid: nat, task: Task)
    requires OneWorker(tasks) && pid !in tasks
    requires WorksOn(task).Some? ==> NobodyWorksOn(tasks, WorksOn(task).value)
    ensures OneWorker(tasks[pid := task])
  {
  }

  lemma AddTask(s: System, pid: nat, task: Task)
    requires Inv(s) && pid !in s.tasks && TaskOk(s.world, s.chain, s.resolved, task)
    requires WorksOn(task).Some? ==> NobodyWorksOn(s.tasks, WorksOn(task).value)
    ensures Inv(s.(tasks := s.tasks[pid := task]))
  {
    MoreTasksOk(s.world, s.chain, s.resolved, s.tasks, pid, task);
    StillOneWorker(s.tasks, pid, task);
  }

  /** An unmarked trade has no running worker. */
  lemma UnmarkedIsIdle(s: System, id: string)
    requires TasksOk(s.world, s.chain, s.resolved, s.tasks) && id in s.world.tables.trades
    requires s.world.tables.trades[id].payout.at == 0 && s.world.tables.trades[id].refund.at == 0
    ensures NobodyWorksOn(s.tasks, id)
  {
    forall p | p in s.tasks
      ensures WorksOn(s.tasks[p]) != Some(id)
    {
      assert TaskOk(s.world, s.chain, s.resolved, s.tasks[p]);
    }
  }

  /** The tables after a change to one row. */
  predicate OneRow(before: T.Tables, after: T.Tables, id: string) {
    && id in before.trades && id in after.trades
    && after.trades == before.trades[id := after.trades[id]]
    && after.trades[id].terms == before.trades[id].terms
  }

  lemma TaskSurvivesRow(w: World, chain: Chain, resolved: set<Resolution>, task: Task, after: T.Tables, id: string)
    requires TaskOk(w, chain, resolved, task) && OneRow(w.tables, after, id)
    requires WorksOn(task) != Some(id)
    requires IsDeposited(w.tables.trades[id].state) ==>
      IsDeposited(after.trades[id].state) && after.trades[id].deposit == w.tables.trades[id].deposit
    ensures TaskOk(w.(tables := after), chain, resolved, task)
  {
  }

  lemma RowsAfterRow(w: World, chain: Chain, resolved: set<Resolution>, after: T.Tables, id: string)
    requires RowsOk(w, chain, resolved) && OneRow(w.tables, after, id) && RowOk(w.(tables := after), chain, resolved, id)
    ensures RowsOk(w.(tables := after), chain, resolved)
  {
    forall k | k in after.trades
      ensures RowOk(w.(tables := after), chain, resolved, k)
    {
      if k != id {
        assert RowOk(w, chain, resolved, k);
      }
    }
  }

  lemma TasksAfterRow(w: World, chain: Chain, resolved: set<Resolution>, tasks: map<nat, Task>, after: T.Tables, id: string)
    requires TasksOk(w, chain, resolved, tasks) && OneRow(w.tables, after, id) && NobodyWorksOn(tasks, id)
    requires IsDeposited(w.tables.trades[id].state) ==>
      IsDeposited(after.trades[id].state) && after.trades[id].deposit == w.tables.trades[id].deposit
    ensures TasksOk(w.(tables := after), chain, resolved, tasks)
  {
    forall p | p in tasks
      ensures TaskOk(w.(tables := after), chain, resolved, tasks[p])
    {
      TaskSurvivesRow(w, chain, resolved, tasks[p], after, id);
    }
  }

  lemma BooksStayKnown(w: World, after: T.Tables)
    requires BooksKnown(w) && w.tables.trades.Keys <= after.trades.Keys
    ensures BooksKnown(w.(tables := after))
  {
  }

  /** One row changes while nobody works on it. */
  lemma UpdateRow(s: System, after: T.Tables, id: string)
    requires Inv(s) && OneRow(s.world.tables, after, id) && NobodyWorksOn(s.tasks, id)
    requires TablesOk(after)
    requires RowOk(s.world.(tables := after), s.chain, s.resolved, id)
    requires IsDeposited(s.world.tables.trades[id].state) ==>
      IsDeposited(after.trades[id].state) && after.trades[id].deposit == s.world.tables.trades[id].deposit
    ensures Inv(s.(world := s.world.(tables := after)))
  {
    RowsAfterRow(s.world, s.chain, s.resolved, after, id);
    TasksAfterRow(s.world, s.chain, s.resolved, s.tasks, after, id);
    BooksStayKnown(s.world, after);
  }

  lemma TaskSurvivesBooks(w: World, chain: Chain, resolved: set<Resolution>, task: Task, w': World, id: string)
    requires TaskOk(w, chain, resolved, task) && WorksOn(task) != Some(id)
    requires w'.tables == w.tables && w'.escrow == w.escrow
    requires forall k :: k != id ==> SendsOf(w'.sends, k) == SendsOf(w.sends, k) && L.EntriesOf(w'.ledger, k) == L.EntriesOf(w.ledger, k)
    ensures TaskOk(w', chain, resolved, task)
  {
  }

  /** Only the books of one trade differ. */
  ghost predicate OneBook(w: World, w': World, id: string) {
    && w'.tables == w.tables && w'.escrow == w.escrow
    && forall k :: k != id ==> SendsOf(w'.sends, k) == SendsOf(w.sends, k) && L.EntriesOf(w'.ledger, k) == L.EntriesOf(w.ledger, k)
  }

  lemma RowsAfterBooks(w: World, chain: Chain, resolved: set<Resolution>, w': World, id: string)
    requires RowsOk(w, chain, resolved) && OneBook(w, w', id) && id in w.tables.trades
    requires BooksOk(id, w'.tables.trades[id], SendsOf(w'.sends, id), L.EntriesOf(w'.ledger, id))
    ensures RowsOk(w', chain, resolved)
  {
    forall k | k in w'.tables.trades
      ensures RowOk(w', chain, resolved, k)
    {
      assert RowOk(w, chain, resolved, k);
    }
  }

  lemma TasksAfterBooks(w: World, chain: Chain, resolved: set<Resolution>, tasks: map<nat, Task>, w': World, id: string)
    requires TasksOk(w, chain, resolved, tasks) && OneBook(w, w', id) && NobodyWorksOn(tasks, id)
    ensures TasksOk(w', chain, resolved, tasks)
  {
    forall p | p in tasks
      ensures TaskOk(w', chain, resolved, tasks[p])
    {
      TaskSurvivesBooks(w, chain, resolved, tasks[p], w', id);
    }
  }

  /** The books of one trade grow while nobody else works on it. */
  lemma UpdateBooks(s: System, w': World, id: string)
    requires Inv(s) && id in s.world.tables.trades && NobodyWorksOn(s.tasks, id)
    requires OneBook(s.world, w', id) && BooksKnown(w')
    requires BooksOk(id, w'.tables.trades[id], SendsOf(w'.sends, id), L.EntriesOf(w'.ledger, id))
    ensures Inv(s.(world := w'))
  {
    RowsAfterBooks(s.world, s.chain, s.resolved, w', id);
    TasksAfterBooks(s.world, s.chain, s.resolved, s.tasks, w', id);
  }
}
