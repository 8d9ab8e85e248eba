/** The inbox store as concurrent calls: one lock per mailbox, every SQL statement a step of its own, any number of
    calls interleaved and crashing anywhere (backend/inbox_store.go). */
module InboxStores {
  import opened Wrappers
  import opened AddressText
  import opened Sets
  import Addresses

  const MAX_MAILBOX := 100
  const MAX_PER_SENDER := 10

  /** What the store does with a valid request: compact addresses, a nonce, and the id it drew. */
  datatype Request = Request(sender: string, recipient: string, nonce: string, id: string, receivedAt: int)

  /** A stored row, under its id. */
  datatype Message = Message(sender: string, recipient: string, nonce: string, receivedAt: int)

  type Rows = map<string, Message>

  function RowsTo(rows: Rows, recipient: string): set<string> {
    set id | id in rows && rows[id].recipient == recipient
  }

  function RowsFrom(rows: Rows, recipient: string, sender: string): set<string> {
    set id | id in rows && rows[id].recipient == recipient && rows[id].sender == sender
  }

  function WithNonce(rows: Rows, sender: string, nonce: string): set<string> {
    set id | id in rows && rows[id].sender == sender && rows[id].nonce == nonce
  }

  /** The points between two statements of a call, with what it has read so far. */
  datatype Call =
    | PutLock(req: Request)
    | PutFind(req: Request)
    | PutCountAll(req: Request)
    | PutCountSender(req: Request, total: nat)
    | PutInsert(req: Request)
    | PutFindAgain(req: Request)
    | ListLock(recipient: string, cutoff: int)
    | ListPurge(recipient: string, cutoff: int)
    | ListSelect(recipient: string)
    | DeleteLock(recipient: string, id: string)
    | DeleteRow(recipient: string, id: string)

  datatype Reply =
    | Stored(id: string)
    | Duplicate(id: string)
    | TooMany
    | Listed(ids: set<string>)
    | Deleted
    | NotFound

  datatype Store = Store(rows: Rows, locks: map<string, nat>, calls: map<nat, Call>, replies: map<nat, Reply>)

  const EMPTY := Store(map[], map[], map[], map[])

  /** The mailbox whose lock a call holds. */
  function Holding(c: Call): Option<string> {
    match c
    case PutLock(_) => None
    case ListLock(_, _) => None
    case DeleteLock(_, _) => None
    case PutFind(req) => Some(req.recipient)
    case PutCountAll(req) => Some(req.recipient)
    case PutCountSender(req, _) => Some(req.recipient)
    case PutInsert(req) => Some(req.recipient)
    case PutFindAgain(req) => Some(req.recipient)
    case ListPurge(recipient, _) => Some(recipient)
    case ListSelect(recipient) => Some(recipient)
    case DeleteRow(recipient, _) => Some(recipient)
  }

  datatype Progress = Goes(rows: Rows, next: Call) | Ends(rows: Rows, reply: Reply) | Waits

  /** `findBySenderNonce`, and what the caller makes of a hit. */
  ghost function Find(rows: Rows, req: Request): Option<string> {
    if WithNonce(rows, req.sender, req.nonce) == {} then None
    else
      var id :| id in WithNonce(rows, req.sender, req.nonce);
      Some(id)
  }

  function Inserted(rows: Rows, req: Request): Rows {
    rows[req.id := Message(req.sender, req.recipient, req.nonce, req.receivedAt)]
  }

  function Without(rows: Rows, gone: set<string>): Rows {
    map id | id in rows && id !in gone :: rows[id]
  }

  function Outdated(rows: Rows, recipient: string, cutoff: int): set<string> {
    set id | id in rows && rows[id].recipient == recipient && rows[id].receivedAt < cutoff
  }

  predicate Free(s: Store, recipient: string) {
    recipient !in s.locks
  }

  /** One statement of a call, or one attempt at its lock. */
  ghost function Step(s: Store, c: Call): Progress {
    match c
    case PutLock(req) => if Free(s, req.recipient) then Goes(s.rows, PutFind(req)) else Waits
    case PutFind(req) =>
      (match Find(s.rows, req)
       case Some(id) => Ends(s.rows, Duplicate(id))
       case None => Goes(s.rows, PutCountAll(req)))
    case PutCountAll(req) => Goes(s.rows, PutCountSender(req, |RowsTo(s.rows, req.recipient)|))
    case PutCountSender(req, total) =>
      if total >= MAX_MAILBOX || |RowsFrom(s.rows, req.recipient, req.sender)| >= MAX_PER_SENDER then Ends(s.rows, TooMany)
      else Goes(s.rows, PutInsert(req))
    case PutInsert(req) =>
      if req.id in s.rows || WithNonce(s.rows, req.sender, req.nonce) != {} then Goes(s.rows, PutFindAgain(req))
      else Ends(Inserted(s.rows, req), Stored(req.id))
    case PutFindAgain(req) =>
      (match Find(s.rows, req)
       case Some(id) => Ends(s.rows, Duplicate(id))
       case None => Ends(s.rows, NotFound))
    case ListLock(recipient, cutoff) => if Free(s, recipient) then Goes(s.rows, ListPurge(recipient, cutoff)) else Waits
    case ListPurge(recipient, cutoff) => Goes(Without(s.rows, Outdated(s.rows, recipient, cutoff)), ListSelect(recipient))
    case ListSelect(recipient) => Ends(s.rows, Listed(RowsTo(s.rows, recipient)))
    case DeleteLock(recipient, id) => if Free(s, recipient) then Goes(s.rows, DeleteRow(recipient, id)) else Waits
    case DeleteRow(recipient, id) =>
      if id in RowsTo(s.rows, recipient) then Ends(Without(s.rows, {id}), Deleted) else Ends(s.rows, NotFound)
  }

  function Unlocked(locks: map<string, nat>, c: Call): map<string, nat> {
    match Holding(c) case Some(r) => locks - {r} case None => locks
  }

  function Locked(locks: map<string, nat>, c: Call, pid: nat): map<string, nat> {
    match Holding(c) case Some(r) => locks[r := pid] case None => locks
  }

  datatype Event =
    | Begin(pid: nat, call: Call)
    | Advance(pid: nat)
    | Crash(pid: nat)

  /** The calls of the interface, on valid addresses. */
  predicate MayBegin(c: Call) {
    match c
    case PutLock(req) =>
      && Addresses.IsValidCompact(req.sender) && Addresses.IsValidCompact(req.recipient)
    case ListLock(recipient, _) => Addresses.IsValidCompact(recipient)
    case DeleteLock(recipient, _) => Addresses.IsValidCompact(recipient)
    case _ => false
  }

  ghost function Next(s: Store, e: Event): Store {
    match e
    case Begin(pid, c) =>
      if pid !in s.calls && pid !in s.replies && MayBegin(c) then s.(calls := s.calls[pid := c]) else s
    case Advance(pid) =>
      if pid !in s.calls then s
      else
        (match Step(s, s.calls[pid])
         case Goes(rows, next) => s.(rows := rows, locks := Locked(s.locks, next, pid), calls := s.calls[pid := next])
         case Ends(rows, reply) =>
           s.(rows := rows, locks := Unlocked(s.locks, s.calls[pid]), calls := s.calls - {pid}, replies := s.replies[pid := reply])
         case Waits => s)
    case Crash(pid) =>
      if pid in s.calls then s.(locks := Unlocked(s.locks, s.calls[pid]), calls := s.calls - {pid}) else s
  }

  ghost function Run(events: seq<Event>): Store {
    if |events| == 0 then EMPTY else Next(Run(events[..|events| - 1]), events[|events| - 1])
  }

  // ---- The invariant ----

  ghost predicate Capped(rows: Rows) {
    && (forall r :: |RowsTo(rows, r)| <= MAX_MAILBOX)
    && (forall r, s :: |RowsFrom(rows, r, s)| <= MAX_PER_SENDER)
  }

  ghost predicate NoncesUnique(rows: Rows) {
    forall i, j :: i in rows && j in rows && i != j ==> rows[i].sender != rows[j].sender || rows[i].nonce != rows[j].nonce
  }

  /** Exactly the calls past their lock hold it. */
  ghost predicate LocksOk(s: Store) {
    forall pid :: pid in s.calls && Holding(s.calls[pid]).Some? ==>
      Holding(s.calls[pid]).value in s.locks && s.locks[Holding(s.calls[pid]).value] == pid
  }

  /** What a call has counted still bounds its mailbox. */
  predicate CountOk(rows: Rows, c: Call) {
    match c
    case PutCountSender(req, total) => |RowsTo(rows, req.recipient)| <= total
    case PutInsert(req) =>
      |RowsTo(rows, req.recipient)| < MAX_MAILBOX && |RowsFrom(rows, req.recipient, req.sender)| < MAX_PER_SENDER
    case _ => true
  }

  ghost predicate CountsOk(s: Store) {
    forall pid :: pid in s.calls ==> CountOk(s.rows, s.calls[pid])
  }

  ghost predicate Inv(s: Store) {
    Capped(s.rows) && NoncesUnique(s.rows) && LocksOk(s) && CountsOk(s)
  }

  lemma FewerTo(rows: Rows, gone: set<string>, recipient: string)
    ensures |RowsTo(Without(rows, gone), recipient)| <= |RowsTo(rows, recipient)|
  {
    SubsetSize(RowsTo(Without(rows, gone), recipient), RowsTo(rows, recipient));
  }

  lemma FewerFrom(rows: Rows, gone: set<string>, recipient: string, sender: string)
    ensures |RowsFrom(Without(rows, gone), recipient, sender)| <= |RowsFrom(rows, recipient, sender)|
  {
    SubsetSize(RowsFrom(Without(rows, gone), recipient, sender), RowsFrom(rows, recipient, sender));
  }

  lemma RemovalKeepsCaps(rows: Rows, gone: set<string>)
    requires Capped(rows) && NoncesUnique(rows)
    ensures Capped(Without(rows, gone)) && NoncesUnique(Without(rows, gone))
  {
    forall r
      ensures |RowsTo(Without(rows, gone), r)| <= MAX_MAILBOX
    {
      FewerTo(rows, gone, r);
    }
    forall r, s
      ensures |RowsFrom(Without(rows, gone), r, s)| <= MAX_PER_SENDER
    {
      FewerFrom(rows, gone, r, s);
    }
  }

  lemma RemovalKeepsCount(rows: Rows, gone: set<string>, c: Call)
    requires CountOk(rows, c)
    ensures CountOk(Without(rows, gone), c)
  {
    match c
    case PutCountSender(req, _) => FewerTo(rows, gone, req.recipient);
    case PutInsert(req) =>
      FewerTo(rows, gone, req.recipient);
      FewerFrom(rows, gone, req.recipient, req.sender);
    case _ =>
  }

  lemma OneMoreTo(rows: Rows, req: Request, recipient: string)
    requires req.id !in rows
    ensures |RowsTo(Inserted(rows, req), recipient)| == |RowsTo(rows, recipient)| + if recipient == req.recipient then 1 else 0
  {
    if recipient == req.recipient {
      assert RowsTo(Inserted(rows, req), recipient) == RowsTo(rows, recipient) + {req.id};
    } else {
      assert RowsTo(Inserted(rows, req), recipient) == RowsTo(rows, recipient);
    }
  }

  lemma OneMoreFrom(rows: Rows, req: Request, recipient: string, sender: string)
    requires req.id !in rows
    ensures |RowsFrom(Inserted(rows, req), recipient, sender)|
         == |RowsFrom(rows, recipient, sender)| + if recipient == req.recipient && sender == req.sender then 1 else 0
  {
    if recipient == req.recipient && sender == req.sender {
      assert RowsFrom(Inserted(rows, req), recipient, sender) == RowsFrom(rows, recipient, sender) + {req.id};
    } else {
      assert RowsFrom(Inserted(rows, req), recipient, sender) == RowsFrom(rows, recipient, sender);
    }
  }

  lemma InsertKeepsCaps(rows: Rows, req: Request)
    requires Capped(rows) && NoncesUnique(rows) && CountOk(rows, PutInsert(req))
    requires req.id !in rows && WithNonce(rows, req.sender, req.nonce) == {}
    ensures Capped(Inserted(rows, req)) && NoncesUnique(Inserted(rows, req))
  {
    forall r
      ensures |RowsTo(Inserted(rows, req), r)| <= MAX_MAILBOX
    {
      OneMoreTo(rows, req, r);
    }
    forall r, s
      ensures |RowsFrom(Inserted(rows, req), r, s)| <= MAX_PER_SENDER
    {
      OneMoreFrom(rows, req, r, s);
    }
    forall i | i in rows
      ensures rows[i].sender != req.sender || rows[i].nonce != req.nonce
    {
      assert i !in WithNonce(rows, req.sender, req.nonce);
    }
  }

  lemma InsertKeepsCount(rows: Rows, req: Request, c: Call)
    requires req.id !in rows && CountOk(rows, c) && Holding(c) != Some(req.recipient)
    ensures CountOk(Inserted(rows, req), c)
  {
    match c
    case PutCountSender(other, _) => OneMoreTo(rows, req, other.recipient);
    case PutInsert(other) =>
      OneMoreTo(rows, req, other.recipient);
      OneMoreFrom(rows, req, other.recipient, other.sender);
    case _ =>
  }

  // ---- Every step keeps it ----

  /** The rows after a step: unchanged, fewer, or one more in a mailbox whose lock the call holds. */
  ghost predicate RowsMove(rows: Rows, after: Rows, c: Call) {
    || after == rows
    || (exists gone :: after == Without(rows, gone))
    || (c.PutInsert? && c.req.id !in rows && WithNonce(rows, c.req.sender, c.req.nonce) == {} && after == Inserted(rows, c.req))
  }

  ghost function RowsAfter(s: Store, c: Call): Rows {
    match Step(s, c) case Goes(rows, _) => rows case Ends(rows, _) => rows case Waits => s.rows
  }

  lemma StepMoves(s: Store, c: Call)
    ensures RowsMove(s.rows, RowsAfter(s, c), c)
  {
  }

  lemma RowsStayCapped(rows: Rows, after: Rows, c: Call)
    requires Capped(rows) && NoncesUnique(rows) && CountOk(rows, c) && RowsMove(rows, after, c)
    ensures Capped(after) && NoncesUnique(after)
  {
    if after != rows {
      if exists gone :: after == Without(rows, gone) {
        var gone :| after == Without(rows, gone);
        RemovalKeepsCaps(rows, gone);
      } else {
        InsertKeepsCaps(rows, c.req);
      }
    }
  }

  lemma CountStays(rows: Rows, after: Rows, c: Call, other: Call)
    requires CountOk(rows, other) && RowsMove(rows, after, c)
    requires Holding(c).Some? ==> Holding(other) != Holding(c)
    ensures CountOk(after, other)
  {
    if after != rows {
      if exists gone :: after == Without(rows, gone) {
        var gone :| after == Without(rows, gone);
        RemovalKeepsCount(rows, gone, other);
      } else {
        InsertKeepsCount(rows, c.req, other);
      }
    }
  }

  /** A call's own count is fresh. */
  lemma OwnCount(s: Store, c: Call)
    requires Capped(s.rows) && CountOk(s.rows, c) && Step(s, c).Goes?
    ensures CountOk(Step(s, c).rows, Step(s, c).next)
    ensures Holding(Step(s, c).next).Some?
    ensures Holding(c).Some? ==> Holding(Step(s, c).next) == Holding(c)
    ensures Holding(c).None? ==> Holding(Step(s, c).next).value !in s.locks
  {
  }

  lemma MailboxesDiffer(s: Store, p: nat, q: nat)
    requires LocksOk(s) && p in s.calls && q in s.calls && p != q && Holding(s.calls[p]).Some?
    ensures Holding(s.calls[q]) != Holding(s.calls[p])
  {
  }

  lemma AdvanceKeepsCounts(s: Store, pid: nat)
    requires Inv(s) && pid in s.calls
    ensures CountsOk(Next(s, Advance(pid))) && Capped(Next(s, Advance(pid)).rows) && NoncesUnique(Next(s, Advance(pid)).rows)
  {
    var c := s.calls[pid];
    var s' := Next(s, Advance(pid));
    StepMoves(s, c);
    RowsStayCapped(s.rows, RowsAfter(s, c), c);
    assert s'.rows == RowsAfter(s, c);
    forall q | q in s'.calls
      ensures CountOk(s'.rows, s'.calls[q])
    {
      if q == pid {
        if Step(s, c).Goes? {
          OwnCount(s, c);
        }
      } else {
        if Holding(c).Some? {
          MailboxesDiffer(s, pid, q);
        }
        CountStays(s.rows, s'.rows, c, s.calls[q]);
      }
    }
  }

  lemma AdvanceKeepsLocks(s: Store, pid: nat)
    requires Inv(s) && pid in s.calls
    ensures LocksOk(Next(s, Advance(pid)))
  {
    var c := s.calls[pid];
    if Step(s, c).Goes? {
      OwnCount(s, c);
    }
  }

  lemma NextOk(s: Store, e: Event)
    requires Inv(s)
    ensures Inv(Next(s, e))
  {
    match e
    case Begin(pid, c) =>
    case Crash(pid) =>
    case Advance(pid) =>
      if pid in s.calls {
        AdvanceKeepsCounts(s, pid);
        AdvanceKeepsLocks(s, pid);
      }
  }

  lemma {:induction false} RunOk(events: seq<Event>)
    ensures Inv(Run(events))
  {
    if |events| == 0 {
      assert forall r :: RowsTo(EMPTY.rows, r) == {};
      assert forall r, s :: RowsFrom(EMPTY.rows, r, s) == {};
    } else {
      RunOk(events[..|events| - 1]);
      NextOk(Run(events[..|events| - 1]), events[|events| - 1]);
    }
  }

  /** In every run no mailbox exceeds 100 messages, none of its senders 10, and no sender's nonce is stored twice. */
  lemma MailboxesAreBounded(events: seq<Event>, recipient: string, sender: string, nonce: string)
    ensures var rows := Run(events).rows;
      && |set id | id in rows && rows[id].recipient == recipient| <= 100
      && |set id | id in rows && rows[id].recipient == recipient && rows[id].sender == sender| <= 10
      && |set id | id in rows && rows[id].sender == sender && rows[id].nonce == nonce| <= 1
  {
    RunOk(events);
    var rows := Run(events).rows;
    assert RowsTo(rows, recipient) == set id | id in rows && rows[id].recipient == recipient;
    assert RowsFrom(rows, recipient, sender) == set id | id in rows && rows[id].recipient == recipient && rows[id].sender == sender;
    var own := WithNonce(rows, sender, nonce);
    assert own == set id | id in rows && rows[id].sender == sender && rows[id].nonce == nonce;
    if own != {} {
      var id :| id in own;
      assert own == {id};
    }
  }

  /** The reply a call has ended with. */
  predicate Answered(s: Store, pid: nat, reply: Reply) {
    pid !in s.calls && pid in s.replies && s.replies[pid] == reply
  }

  /** In every run, a send whose nonce is stored when it looks gets the stored id; one whose nonce is stored when it
      inserts adds nothing, and goes to look. */
  lemma RepeatIsHarmless(events: seq<Event>, pid: nat, req: Request, id: string)
    requires var s := Run(events); pid in s.calls && id in WithNonce(s.rows, req.sender, req.nonce)
    requires Run(events).calls[pid] in [PutFind(req), PutInsert(req), PutFindAgain(req)]
    ensures var s, s' := Run(events), Run(events + [Advance(pid)]);
      && s'.rows == s.rows
      && if s.calls[pid].PutInsert? then pid in s'.calls && s'.calls[pid] == PutFindAgain(req) else Answered(s', pid, Duplicate(id))
  {
    RunOk(events);
    assert (events + [Advance(pid)])[..|events|] == events;
  }

  /** What a send that met the constraint ends with, whatever happened before it looks again: the id stored under its
      nonce then, or none exactly if no row is. It adds nothing either way. */
  lemma SecondLookEnds(events: seq<Event>, pid: nat, req: Request)
    requires var s := Run(events); pid in s.calls && s.calls[pid] == PutFindAgain(req)
    ensures var s, s' := Run(events), Run(events + [Advance(pid)]);
      && s'.rows == s.rows
      && (forall id :: Answered(s', pid, Duplicate(id)) <==> id in WithNonce(s.rows, req.sender, req.nonce))
      && (Answered(s', pid, NotFound) <==> WithNonce(s.rows, req.sender, req.nonce) == {})
  {
    RunOk(events);
    assert (events + [Advance(pid)])[..|events|] == events;
  }

  // ---- What calls do to the rows ----

  /** A send that is stored adds one row, of the request's sender, recipient, nonce and time, and touches no other. */
  lemma StoredAsSent(events: seq<Event>, pid: nat, req: Request)
    requires var s := Run(events); pid in s.calls && s.calls[pid] == PutInsert(req)
    ensures var s, s' := Run(events), Run(events + [Advance(pid)]);
      if req.id !in s.rows && (forall id :: id in s.rows ==> s.rows[id].sender != req.sender || s.rows[id].nonce != req.nonce) then
        Answered(s', pid, Stored(req.id)) && s'.rows == s.rows[req.id := Message(req.sender, req.recipient, req.nonce, req.receivedAt)]
      else
        s'.rows == s.rows && pid in s'.calls && s'.calls[pid] == PutFindAgain(req)
  {
    assert (events + [Advance(pid)])[..|events|] == events;
    var s := Run(events);
    assert WithNonce(s.rows, req.sender, req.nonce) == {} <==>
      forall id :: id in s.rows ==> s.rows[id].sender != req.sender || s.rows[id].nonce != req.nonce by {
      if id :| id in s.rows && s.rows[id].sender == req.sender && s.rows[id].nonce == req.nonce {
        assert id in WithNonce(s.rows, req.sender, req.nonce);
      }
    }
  }

  /** The first count is of the whole mailbox, and of no other. */
  lemma CountsMailbox(events: seq<Event>, pid: nat, req: Request)
    requires var s := Run(events); pid in s.calls && s.calls[pid] == PutCountAll(req)
    ensures var s, s' := Run(events), Run(events + [Advance(pid)]);
      && s'.rows == s.rows && pid in s'.calls
      && s'.calls[pid] == PutCountSender(req, |set id | id in s.rows && s.rows[id].recipient == req.recipient|)
  {
    assert (events + [Advance(pid)])[..|events|] == events;
  }

  /** A send is refused as one too many exactly if a hundred rows were counted in the mailbox, or ten of the sender's
      are in it. */
  lemma TooManyIff(events: seq<Event>, pid: nat, req: Request, total: nat)
    requires var s := Run(events); pid in s.calls && s.calls[pid] == PutCountSender(req, total)
    ensures var s, s' := Run(events), Run(events + [Advance(pid)]);
      && s'.rows == s.rows
      && (Answered(s', pid, TooMany) <==>
            total >= 100 || |set id | id in s.rows && s.rows[id].recipient == req.recipient && s.rows[id].sender == req.sender| >= 10)
  {
    assert (events + [Advance(pid)])[..|events|] == events;
  }

  /** A deletion takes away that row and no other, and only from the mailbox it was asked for. */
  lemma DeletesOwnRow(events: seq<Event>, pid: nat, recipient: string, id: string)
    requires var s := Run(events); pid in s.calls && s.calls[pid] == DeleteRow(recipient, id)
    ensures var s, s' := Run(events), Run(events + [Advance(pid)]);
      if id in s.rows && s.rows[id].recipient == recipient then Answered(s', pid, Deleted) && s'.rows == s.rows - {id}
      else Answered(s', pid, NotFound) && s'.rows == s.rows
  {
    assert (events + [Advance(pid)])[..|events|] == events;
  }

  /** No message of the mailbox is older than the cutoff. */
  ghost predicate IsFresh(rows: Rows, recipient: string, cutoff: int) {
    forall id :: id in rows && rows[id].recipient == recipient ==> rows[id].receivedAt >= cutoff
  }

  /** A listing call takes the outdated messages of its mailbox away and no others. */
  lemma PurgesOutdated(s: Store, pid: nat, recipient: string, cutoff: int)
    requires pid in s.calls && s.calls[pid] == ListPurge(recipient, cutoff)
    ensures var s' := Next(s, Advance(pid));
      && pid in s'.calls && s'.calls[pid] == ListSelect(recipient) && IsFresh(s'.rows, recipient, cutoff)
      && (forall id :: id in s'.rows <==> id in s.rows && (s.rows[id].recipient == recipient ==> s.rows[id].receivedAt >= cutoff))
      && (forall id :: id in s'.rows ==> s'.rows[id] == s.rows[id])
  {
  }

  /** Nobody else adds to a mailbox whose lock is held. */
  lemma FreshStays(s: Store, e: Event, pid: nat, recipient: string, cutoff: int)
    requires Inv(s) && pid in s.calls && s.calls[pid] == ListSelect(recipient) && IsFresh(s.rows, recipient, cutoff)
    requires e.pid != pid
    ensures var s' := Next(s, e); pid in s'.calls && s'.calls[pid] == ListSelect(recipient) && IsFresh(s'.rows, recipient, cutoff)
  {
    if e.Advance? && e.pid in s.calls {
      var c := s.calls[e.pid];
      StepMoves(s, c);
      if c.PutInsert? {
        MailboxesDiffer(s, pid, e.pid);
      }
      assert Next(s, e).rows == RowsAfter(s, c);
    }
  }

  lemma {:induction false} FreshThrough(events: seq<Event>, more: seq<Event>, pid: nat, recipient: string, cutoff: int)
    requires var s := Run(events); pid in s.calls && s.calls[pid] == ListSelect(recipient) && IsFresh(s.rows, recipient, cutoff)
    requires forall i :: 0 <= i < |more| ==> more[i].pid != pid
    ensures var s := Run(events + more); pid in s.calls && s.calls[pid] == ListSelect(recipient) && IsFresh(s.rows, recipient, cutoff)
  {
    if |more| == 0 {
      assert events + more == events;
    } else {
      var init, e := more[..|more| - 1], more[|more| - 1];
      FreshThrough(events, init, pid, recipient, cutoff);
      RunOk(events + init);
      FreshStays(Run(events + init), e, pid, recipient, cutoff);
      assert (events + more)[..|events + more| - 1] == events + init;
    }
  }

  lemma OneMore(events: seq<Event>, e: Event)
    ensures Run(events + [e]) == Next(Run(events), e)
  {
    assert (events + [e])[..|events|] == events;
  }

  /** Whatever others do between its two statements, a listing call answers with all messages of its mailbox, no message
      of another, and none older than its cutoff. */
  lemma ListsOwnFresh(events: seq<Event>, more: seq<Event>, pid: nat, recipient: string, cutoff: int)
    requires var s := Run(events); pid in s.calls && s.calls[pid] == ListPurge(recipient, cutoff)
    requires forall i :: 0 <= i < |more| ==> more[i].pid != pid
    ensures var s := Run(events + [Advance(pid)] + more + [Advance(pid)]);
      && Answered(s, pid, Listed(set id | id in s.rows && s.rows[id].recipient == recipient))
      && IsFresh(s.rows, recipient, cutoff)
  {
    var purged := events + [Advance(pid)];
    OneMore(events, Advance(pid));
    PurgesOutdated(Run(events), pid, recipient, cutoff);
    FreshThrough(purged, more, pid, recipient, cutoff);
    OneMore(purged + more, Advance(pid));
  }

  /** No call begins on an address that is not valid in compact form, nor under a number already taken. */
  lemma OnlyValidBegin(s: Store, pid: nat, c: Call)
    ensures pid in Next(s, Begin(pid, c)).calls && pid !in s.calls ==>
      && pid !in s.replies
      && (c.PutLock? || c.ListLock? || c.DeleteLock?)
      && (if c.PutLock? then Addresses.IsValidCompact(c.req.sender) && Addresses.IsValidCompact(c.req.recipient)
          else Addresses.IsValidCompact(c.recipient))
    ensures Next(s, Begin(pid, c)).rows == s.rows
  {
  }
}
