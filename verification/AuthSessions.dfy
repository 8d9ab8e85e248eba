/** The session handler as interleaved tasks: read the challenge, consume it, check its scopes, insert the session,
    each a statement of its own, beside any other store calls (backend/auth_handlers.go, backend/auth_store.go). */
module AuthSessions {
  import opened Wrappers
  import opened AddressText
  import opened ScopedAuth

  datatype Task =
    | ReadChallenge(id: string)
    | ConsumeIt(id: string)
    | CheckScopes(id: string, grant: Grant)
    | InsertSession(id: string, grant: Grant)

  /** `issuedFor` remembers which challenge each token was issued for. */
  datatype System = System(tables: Tables, tasks: map<nat, Task>, issuedFor: map<string, string>)

  const INITIAL := System(Tables(map[], map[], map[]), map[], map[])

  datatype Event =
    | Register(audience: string, owner: string, scopes: set<string>)
    | Ask(id: string, grant: Grant, expiresAt: int)
    | Begin(pid: nat, id: string)
    | Advance(pid: nat, signed: bool, token: string, now: int)
    | Crash(pid: nat)
    | Revoke(gone: set<string>)

  datatype Progress = Goes(tables: Tables, next: Task) | Issues(token: string, grant: Grant) | Stops

  /** One statement of a handler; `signed` says whether the wallet's signature over the challenge holds. */
  function Step(a: Tables, task: Task, signed: bool, token: string, now: int): Progress {
    match task
    case ReadChallenge(id) => if IsOpen(a, id, now) && signed then Goes(a, ConsumeIt(id)) else Stops
    case ConsumeIt(id) => if IsOpen(a, id, now) then Goes(Consumed(a, id), CheckScopes(id, a.challenges[id].grant)) else Stops
    case CheckScopes(id, grant) => if ScopesAllowed(a, grant.audience, grant.scopes) then Goes(a, InsertSession(id, grant)) else Stops
    case InsertSession(id, grant) => if token in a.sessions then Stops else Issues(token, grant)
  }

  function Next(s: System, e: Event): System {
    match e
    case Register(audience, owner, scopes) =>
      if scopes <= KNOWN_SCOPES then s.(tables := Upserted(s.tables, audience, owner, scopes)) else s
    case Ask(id, grant, expiresAt) =>
      if id !in s.tables.challenges && ScopesAllowed(s.tables, grant.audience, grant.scopes)
      then s.(tables := s.tables.(challenges := s.tables.challenges[id := Challenge(grant, expiresAt, false)])) else s
    case Begin(pid, id) => if pid in s.tasks then s else s.(tasks := s.tasks[pid := ReadChallenge(id)])
    case Advance(pid, signed, token, now) =>
      if pid !in s.tasks then s
      else
        (match Step(s.tables, s.tasks[pid], signed, token, now)
         case Goes(tables, next) => s.(tables := tables, tasks := s.tasks[pid := next])
         case Issues(t, grant) =>
           System(Inserted(s.tables, t, grant, now), s.tasks - {pid}, s.issuedFor[t := s.tasks[pid].id])
         case Stops => s.(tasks := s.tasks - {pid}))
    case Crash(pid) => s.(tasks := s.tasks - {pid})
    case Revoke(gone) => s.(tables := s.tables.(sessions := Revoked(s.tables.sessions, gone)))
  }

  function RunFrom(s: System, events: seq<Event>): System {
    if |events| == 0 then s else Next(RunFrom(s, events[..|events| - 1]), events[|events| - 1])
  }

  function Run(events: seq<Event>): System {
    RunFrom(INITIAL, events)
  }

  // ---- One session per challenge ----

  /** The challenge a task has consumed. */
  function Spent(t: Task): Option<string> {
    match t
    case CheckScopes(id, _) => Some(id)
    case InsertSession(id, _) => Some(id)
    case _ => None
  }

  predicate IsConsumed(a: Tables, id: string) {
    id in a.challenges && a.challenges[id].consumed
  }

  ghost predicate OneUse(s: System) {
    && (forall p :: p in s.tasks && Spent(s.tasks[p]).Some? ==> IsConsumed(s.tables, Spent(s.tasks[p]).value))
    && (forall t :: t in s.issuedFor ==> t in s.tables.sessions && IsConsumed(s.tables, s.issuedFor[t]))
    && (forall p, q :: p in s.tasks && q in s.tasks && p != q && Spent(s.tasks[p]).Some? ==> Spent(s.tasks[p]) != Spent(s.tasks[q]))
    && (forall p, t :: p in s.tasks && t in s.issuedFor ==> Spent(s.tasks[p]) != Some(s.issuedFor[t]))
    && (forall t, u :: t in s.issuedFor && u in s.issuedFor && t != u ==> s.issuedFor[t] != s.issuedFor[u])
    && (forall t :: t in s.tables.sessions ==> t in s.issuedFor)
  }

  lemma StopKeepsOneUse(s: System, pid: nat)
    requires OneUse(s)
    ensures OneUse(s.(tasks := s.tasks - {pid}))
  {
  }

  lemma ConsumeKeepsOneUse(s: System, pid: nat, id: string, grant: Grant)
    requires OneUse(s) && pid in s.tasks && s.tasks[pid] == ConsumeIt(id)
    requires id in s.tables.challenges && !s.tables.challenges[id].consumed
    ensures OneUse(s.(tables := Consumed(s.tables, id), tasks := s.tasks[pid := CheckScopes(id, grant)]))
  {
  }

  lemma ReplaceKeepsOneUse(s: System, pid: nat, next: Task)
    requires OneUse(s) && pid in s.tasks && (Spent(next).None? || Spent(next) == Spent(s.tasks[pid]))
    ensures OneUse(s.(tasks := s.tasks[pid := next]))
  {
  }

  lemma GoKeepsOneUse(s: System, pid: nat, signed: bool, token: string, now: int)
    requires OneUse(s) && pid in s.tasks && Step(s.tables, s.tasks[pid], signed, token, now).Goes?
    ensures OneUse(Next(s, Advance(pid, signed, token, now)))
  {
    var r := Step(s.tables, s.tasks[pid], signed, token, now);
    if s.tasks[pid].ConsumeIt? {
      ConsumeKeepsOneUse(s, pid, s.tasks[pid].id, r.next.grant);
    } else {
      ReplaceKeepsOneUse(s, pid, r.next);
    }
  }

  lemma IssueKeepsOneUse(s: System, pid: nat, signed: bool, token: string, now: int)
    requires OneUse(s) && pid in s.tasks && Step(s.tables, s.tasks[pid], signed, token, now).Issues?
    ensures OneUse(Next(s, Advance(pid, signed, token, now)))
  {
  }

  lemma AdvanceKeepsOneUse(s: System, pid: nat, signed: bool, token: string, now: int)
    requires OneUse(s) && pid in s.tasks
    ensures OneUse(Next(s, Advance(pid, signed, token, now)))
  {
    match Step(s.tables, s.tasks[pid], signed, token, now)
    case Goes(_, _) => GoKeepsOneUse(s, pid, signed, token, now);
    case Issues(_, _) => IssueKeepsOneUse(s, pid, signed, token, now);
    case Stops => StopKeepsOneUse(s, pid);
  }

  lemma NextKeepsOneUse(s: System, e: Event)
    requires OneUse(s)
    ensures OneUse(Next(s, e))
  {
    match e
    case Advance(pid, signed, token, now) =>
      if pid in s.tasks {
        AdvanceKeepsOneUse(s, pid, signed, token, now);
      }
    case _ =>
  }

  lemma {:induction false} RunKeepsOneUse(events: seq<Event>)
    ensures OneUse(Run(events))
  {
    if |events| > 0 {
      RunKeepsOneUse(events[..|events| - 1]);
      NextKeepsOneUse(Run(events[..|events| - 1]), events[|events| - 1]);
    }
  }

  /** However the handlers interleave, two sessions never stem from one challenge. */
  lemma ChallengeYieldsOneSession(events: seq<Event>, t: string, u: string)
    requires t in Run(events).tables.sessions && u in Run(events).tables.sessions && t != u
    ensures var s := Run(events); t in s.issuedFor && u in s.issuedFor && s.issuedFor[t] != s.issuedFor[u]
  {
    RunKeepsOneUse(events);
  }

  // ---- Signed ----

  /** The event at `i` found the challenge's signature good, before the challenge expired. */
  predicate SignsAt(events: seq<Event>, i: nat, id: string)
    requires i < |events|
  {
    var s := Run(events[..i]);
    && events[i].Advance? && events[i].signed && events[i].pid in s.tasks && s.tasks[events[i].pid] == ReadChallenge(id)
    && id in s.tables.challenges && events[i].now < s.tables.challenges[id].expiresAt
  }

  ghost predicate WasSigned(events: seq<Event>, id: string) {
    exists i :: 0 <= i < |events| && SignsAt(events, i, id)
  }

  /** The event at `i` found the grant's scopes, not none, among those its app, enabled, declares. */
  predicate ChecksAt(events: seq<Event>, i: nat, id: string, grant: Grant)
    requires i < |events|
  {
    var s := Run(events[..i]);
    && events[i].Advance? && events[i].pid in s.tasks && s.tasks[events[i].pid] == CheckScopes(id, grant)
    && grant.scopes != {} && grant.audience in s.tables.apps && s.tables.apps[grant.audience].enabled
    && grant.scopes <= s.tables.apps[grant.audience].scopes
  }

  ghost predicate WasChecked(events: seq<Event>, id: string, grant: Grant) {
    exists i :: 0 <= i < |events| && ChecksAt(events, i, id, grant)
  }

  /** The challenge a task works for has been signed, and the grant it carries is the challenge's. */
  ghost predicate TaskSigned(events: seq<Event>, a: Tables, task: Task) {
    match task
    case ReadChallenge(_) => true
    case ConsumeIt(id) => WasSigned(events, id)
    case CheckScopes(id, grant) => WasSigned(events, id) && id in a.challenges && a.challenges[id].grant == grant
    case InsertSession(id, grant) =>
      WasSigned(events, id) && WasChecked(events, id, grant) && id in a.challenges && a.challenges[id].grant == grant
  }

  ghost predicate SessionSigned(events: seq<Event>, s: System, t: string)
    requires t in s.tables.sessions && t in s.issuedFor
  {
    var id := s.issuedFor[t];
    && WasSigned(events, id) && WasChecked(events, id, s.tables.sessions[t].grant)
    && id in s.tables.challenges && s.tables.sessions[t].grant == s.tables.challenges[id].grant
  }

  ghost predicate AllSigned(events: seq<Event>, s: System) {
    && (forall p :: p in s.tasks ==> TaskSigned(events, s.tables, s.tasks[p]))
    && (forall t :: t in s.tables.sessions ==> t in s.issuedFor && SessionSigned(events, s, t))
  }

  predicate KeepsChallenges(a: Tables, b: Tables) {
    forall id :: id in a.challenges ==> id in b.challenges && b.challenges[id].grant == a.challenges[id].grant
  }

  lemma SignedBefore(events: seq<Event>, e: Event)
    ensures forall id :: WasSigned(events, id) ==> WasSigned(events + [e], id)
    ensures forall id, grant :: WasChecked(events, id, grant) ==> WasChecked(events + [e], id, grant)
  {
    forall id, grant | WasChecked(events, id, grant)
      ensures WasChecked(events + [e], id, grant)
    {
      var i :| 0 <= i < |events| && ChecksAt(events, i, id, grant);
      assert (events + [e])[i] == events[i] && (events + [e])[..i] == events[..i];
      assert ChecksAt(events + [e], i, id, grant);
    }
    forall id | WasSigned(events, id)
      ensures WasSigned(events + [e], id)
    {
      var i :| 0 <= i < |events| && SignsAt(events, i, id);
      assert (events + [e])[i] == events[i] && (events + [e])[..i] == events[..i];
      assert SignsAt(events + [e], i, id);
    }
  }

  lemma SignedNow(events: seq<Event>, e: Event)
    ensures var s := Run(events);
      e.Advance? && e.signed && e.pid in s.tasks && s.tasks[e.pid].ReadChallenge? && IsOpen(s.tables, s.tasks[e.pid].id, e.now) ==>
        WasSigned(events + [e], s.tasks[e.pid].id)
  {
    var s, all := Run(events), events + [e];
    assert all[|events|] == e && all[..|events|] == events;
    if e.Advance? && e.signed && e.pid in s.tasks && s.tasks[e.pid].ReadChallenge? && IsOpen(s.tables, s.tasks[e.pid].id, e.now) {
      assert SignsAt(all, |events|, s.tasks[e.pid].id);
    }
  }

  lemma CheckedNow(events: seq<Event>, e: Event)
    ensures var s := Run(events);
      e.Advance? && e.pid in s.tasks && s.tasks[e.pid].CheckScopes?
      && ScopesAllowed(s.tables, s.tasks[e.pid].grant.audience, s.tasks[e.pid].grant.scopes) ==>
        WasChecked(events + [e], s.tasks[e.pid].id, s.tasks[e.pid].grant)
  {
    var s, all := Run(events), events + [e];
    assert all[|events|] == e && all[..|events|] == events;
    if e.Advance? && e.pid in s.tasks && s.tasks[e.pid].CheckScopes?
       && ScopesAllowed(s.tables, s.tasks[e.pid].grant.audience, s.tasks[e.pid].grant.scopes) {
      assert ChecksAt(all, |events|, s.tasks[e.pid].id, s.tasks[e.pid].grant);
    }
  }

  lemma TaskStillSigned(events: seq<Event>, e: Event, a: Tables, b: Tables, task: Task)
    requires TaskSigned(events, a, task) && KeepsChallenges(a, b)
    ensures TaskSigned(events + [e], b, task)
  {
    SignedBefore(events, e);
  }

  lemma SessionStillSigned(events: seq<Event>, e: Event, s: System, s': System, t: string)
    requires t in s.tables.sessions && t in s.issuedFor && SessionSigned(events, s, t) && KeepsChallenges(s.tables, s'.tables)
    requires t in s'.tables.sessions && t in s'.issuedFor && s'.issuedFor[t] == s.issuedFor[t]
    requires s'.tables.sessions[t].grant == s.tables.sessions[t].grant
    ensures SessionSigned(events + [e], s', t)
  {
    SignedBefore(events, e);
  }

  /** Tables that keep challenges and grants keep what was signed. */
  lemma StillSigned(events: seq<Event>, e: Event, s: System, s': System)
    requires AllSigned(events, s) && KeepsChallenges(s.tables, s'.tables)
    requires forall t :: t in s.tables.sessions ==>
      t in s'.issuedFor && s'.issuedFor[t] == s.issuedFor[t] && t in s'.tables.sessions
      && s'.tables.sessions[t].grant == s.tables.sessions[t].grant
    requires forall p :: p in s'.tasks ==> TaskSigned(events + [e], s'.tables, s'.tasks[p]) || (p in s.tasks && s'.tasks[p] == s.tasks[p])
    requires forall t :: t in s'.tables.sessions ==> t in s.tables.sessions || (t in s'.issuedFor && SessionSigned(events + [e], s', t))
    ensures AllSigned(events + [e], s')
  {
    forall p | p in s'.tasks
      ensures TaskSigned(events + [e], s'.tables, s'.tasks[p])
    {
      if p in s.tasks && s'.tasks[p] == s.tasks[p] {
        TaskStillSigned(events, e, s.tables, s'.tables, s.tasks[p]);
      }
    }
    forall t | t in s'.tables.sessions
      ensures t in s'.issuedFor && SessionSigned(events + [e], s', t)
    {
      if t in s.tables.sessions {
        SessionStillSigned(events, e, s, s', t);
      }
    }
  }

  lemma GoesOnSigned(events: seq<Event>, e: Event)
    requires var s := Run(events); e.Advance? && e.pid in s.tasks && AllSigned(events, s)
    requires var s := Run(events); Step(s.tables, s.tasks[e.pid], e.signed, e.token, e.now).Goes?
    ensures var s := Run(events); var r := Step(s.tables, s.tasks[e.pid], e.signed, e.token, e.now);
      KeepsChallenges(s.tables, r.tables) && r.tables.sessions == s.tables.sessions && TaskSigned(events + [e], r.tables, r.next)
  {
    SignedBefore(events, e);
    SignedNow(events, e);
    CheckedNow(events, e);
  }

  lemma AdvanceSigned(events: seq<Event>, e: Event)
    requires AllSigned(events, Run(events)) && e.Advance?
    ensures AllSigned(events + [e], Next(Run(events), e))
  {
    var s := Run(events);
    if e.pid in s.tasks {
      var r := Step(s.tables, s.tasks[e.pid], e.signed, e.token, e.now);
      match r
      case Goes(tables, next) =>
        GoesOnSigned(events, e);
        StillSigned(events, e, s, Next(s, e));
      case Issues(t, grant) => IssueSigned(events, e);
      case Stops => StillSigned(events, e, s, Next(s, e));
    } else {
      StillSigned(events, e, s, s);
    }
  }

  lemma IssueSigned(events: seq<Event>, e: Event)
    requires var s := Run(events); e.Advance? && e.pid in s.tasks && AllSigned(events, s)
    requires var s := Run(events); Step(s.tables, s.tasks[e.pid], e.signed, e.token, e.now).Issues?
    ensures AllSigned(events + [e], Next(Run(events), e))
  {
    var s := Run(events);
    var s' := Next(s, e);
    TaskStillSigned(events, e, s.tables, s'.tables, s.tasks[e.pid]);
    assert SessionSigned(events + [e], s', e.token);
    StillSigned(events, e, s, s');
  }

  lemma OtherSigned(events: seq<Event>, e: Event)
    requires AllSigned(events, Run(events)) && !e.Advance?
    ensures AllSigned(events + [e], Next(Run(events), e))
  {
    NextOnlyRevokes(Run(events), e);
    OtherKeeps(Run(events), e);
    StillSigned(events, e, Run(events), Next(Run(events), e));
  }

  lemma OtherKeeps(s: System, e: Event)
    requires !e.Advance?
    ensures var s' := Next(s, e);
      && KeepsChallenges(s.tables, s'.tables) && s'.issuedFor == s.issuedFor && s'.tables.sessions.Keys == s.tables.sessions.Keys
      && forall p :: p in s'.tasks ==> s'.tasks[p].ReadChallenge? || (p in s.tasks && s'.tasks[p] == s.tasks[p])
  {
  }

  lemma {:induction false} EverySigned(events: seq<Event>)
    ensures AllSigned(events, Run(events))
  {
    if |events| > 0 {
      var init, e := events[..|events| - 1], events[|events| - 1];
      EverySigned(init);
      if e.Advance? {
        AdvanceSigned(init, e);
      } else {
        OtherSigned(init, e);
      }
      assert events == init + [e];
    }
  }

  /** Every session stems from a challenge whose signature a handler found good before it expired, grants what that
      challenge asked for, to the address it was made for, and its scopes were found declared. */
  lemma SessionsAreSigned(events: seq<Event>, t: string)
    requires t in Run(events).tables.sessions
    ensures var s := Run(events);
      && t in s.issuedFor && s.issuedFor[t] in s.tables.challenges
      && s.tables.sessions[t].grant == s.tables.challenges[s.issuedFor[t]].grant
      && (exists i :: 0 <= i < |events| && SignsAt(events, i, s.issuedFor[t]))
      && (exists i :: 0 <= i < |events| && ChecksAt(events, i, s.issuedFor[t], s.tables.sessions[t].grant))
  {
    EverySigned(events);
  }

  // ---- Consent ----

  lemma NextOnlyRevokes(s: System, e: Event)
    ensures OnlyRevokes(s.tables, Next(s, e).tables)
  {
  }

  /** Revocation is permanent, and no session ever changes its grant. */
  lemma {:induction false} RevocationIsPermanent(s: System, events: seq<Event>)
    ensures OnlyRevokes(s.tables, RunFrom(s, events).tables)
  {
    if |events| > 0 {
      RevocationIsPermanent(s, events[..|events| - 1]);
      NextOnlyRevokes(RunFrom(s, events[..|events| - 1]), events[|events| - 1]);
    }
  }

  /** An insert whose scopes are still declared, and any other event. */
  predicate IsTimely(s: System, e: Event) {
    e.Advance? && e.pid in s.tasks && s.tasks[e.pid].InsertSession? && e.token !in s.tables.sessions ==>
      var grant := s.tasks[e.pid].grant;
      grant.audience in s.tables.apps && grant.scopes <= s.tables.apps[grant.audience].scopes
  }

  /** A step keeps consent exactly if it is not an insert that an app change has overtaken. */
  lemma ConsentIffTimely(s: System, e: Event)
    requires Consent(s.tables)
    ensures Consent(Next(s, e).tables) <==> IsTimely(s, e)
  {
    match e
    case Register(audience, owner, scopes) => UpsertKeepsConsent(s.tables, audience, owner, scopes);
    case Revoke(gone) => RevokingKeepsConsent(s.tables, gone);
    case Advance(pid, signed, token, now) =>
      if pid in s.tasks && s.tasks[pid].InsertSession? && token !in s.tables.sessions {
        InsertKeepsConsentIff(s.tables, token, s.tasks[pid].grant, now);
      }
    case _ =>
  }

  ghost predicate AllTimely(events: seq<Event>) {
    |events| == 0 || (AllTimely(events[..|events| - 1]) && IsTimely(Run(events[..|events| - 1]), events[|events| - 1]))
  }

  /** Consent holds all the way through a run exactly if no scope check and insert of the run are separated by an app
      change, as when the two are one call. */
  lemma {:induction false} ConsentHolds(events: seq<Event>)
    ensures (forall n :: 0 <= n <= |events| ==> Consent(Run(events[..n]).tables)) <==> AllTimely(events)
  {
    assert events[..|events|] == events;
    if |events| > 0 {
      var init, last := events[..|events| - 1], events[|events| - 1];
      ConsentHolds(init);
      assert forall n :: 0 <= n <= |init| ==> init[..n] == events[..n];
      assert init[..|init|] == init;
      if Consent(Run(init).tables) {
        ConsentIffTimely(Run(init), last);
      }
    }
  }

  // ---- The race ----

  const GRANT := Grant("A", "shop", {"inbox:read"})

  const SIGN := Advance(0, true, "t", 1)

  /** A handler has checked the scopes and is about to insert the session. */
  const ABOUT_TO_ISSUE: seq<Event> :=
    [ Register("shop", "o", {"inbox:read"}), Ask("c", GRANT, 300), Begin(0, "c"), SIGN, SIGN, SIGN ]

  function Stage(consumed: bool, task: Task): System {
    System(Tables(map["shop" := App("o", {"inbox:read"}, true)], map["c" := Challenge(GRANT, 300, consumed)], map[]),
           map[0 := task], map[])
  }

  lemma RunsOn(events: seq<Event>, e: Event)
    ensures Run(events + [e]) == Next(Run(events), e)
  {
    assert (events + [e])[..|events|] == events;
  }

  lemma HandlerStarts()
    ensures Run(ABOUT_TO_ISSUE[..3]) == Stage(false, ReadChallenge("c"))
  {
    var all := ABOUT_TO_ISSUE;
    assert all[..0] == [] && all[..1] == all[..0] + [all[0]] && all[..2] == all[..1] + [all[1]] && all[..3] == all[..2] + [all[2]];
    RunsOn(all[..0], all[0]);
    RunsOn(all[..1], all[1]);
    RunsOn(all[..2], all[2]);
    assert Run(all[..1]).tables.apps == map["shop" := App("o", {"inbox:read"}, true)];
    assert Run(all[..2]).tables == Stage(false, ReadChallenge("c")).tables;
  }

  lemma HandlerChecks()
    ensures Run(ABOUT_TO_ISSUE) == Stage(true, InsertSession("c", GRANT))
  {
    var all := ABOUT_TO_ISSUE;
    HandlerStarts();
    assert all[..4] == all[..3] + [SIGN] && all[..5] == all[..4] + [SIGN] && all == all[..5] + [SIGN];
    RunsOn(all[..3], SIGN);
    assert Run(all[..4]) == Stage(false, ConsumeIt("c"));
    RunsOn(all[..4], SIGN);
    assert Run(all[..5]) == Stage(true, CheckScopes("c", GRANT));
    RunsOn(all[..5], SIGN);
    assert Run(all).tasks == map[0 := InsertSession("c", GRANT)];
  }

  /** The scope check and the insert are two statements: an app that drops a scope in between does not stop the
      session, so this run ends with a live session whose scope its app no longer declares. */
  lemma ConsentCanBeOvertaken()
    ensures !Consent(Run(ABOUT_TO_ISSUE + [Register("shop", "o", {"profile:write"})] + [SIGN]).tables)
  {
    HandlerChecks();
    var drop := Register("shop", "o", {"profile:write"});
    RunsOn(ABOUT_TO_ISSUE, drop);
    RunsOn(ABOUT_TO_ISSUE + [drop], SIGN);
    var s := Next(Run(ABOUT_TO_ISSUE), drop);
    assert "inbox:read" in GRANT.scopes && "inbox:read" !in s.tables.apps["shop"].scopes;
    UpsertKeepsConsent(Run(ABOUT_TO_ISSUE).tables, "shop", "o", {"profile:write"});
    ConsentIffTimely(s, SIGN);
  }
}
