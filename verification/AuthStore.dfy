/** Scoped authorization: apps, challenges and sessions, each store call one transaction over mutable tables
    (backend/auth_store.go, backend/app_registry.go). */
module ScopedAuth {
  import opened Wrappers
  import opened AddressText

  /** `scopes` are the declared scope rows of the app. */
  datatype App = App(owner: string, scopes: set<string>, enabled: bool)

  datatype Grant = Grant(address: string, audience: string, scopes: set<string>)

  datatype Challenge = Challenge(grant: Grant, expiresAt: int, consumed: bool)

  /** A session, kept under the digest of its token. */
  datatype Session = Session(grant: Grant, expiresAt: int, revoked: bool)

  datatype Tables = Tables(apps: map<string, App>, challenges: map<string, Challenge>, sessions: map<string, Session>)

  const CHALLENGE_TTL := 5 * 60
  const SESSION_TTL := 7 * 24 * 60 * 60

  const KNOWN_SCOPES: set<string> :=
    { "friends:read", "friends:write", "inbox:read", "inbox:send", "inbox:delete", "profile:write", "backup:read",
      "backup:write", "marketplace:read", "marketplace:trade", "achievements:read" }

  // ---- What each call does ----

  function Elements(scopes: seq<string>): set<string> {
    set i | 0 <= i < |scopes| :: scopes[i]
  }

  predicate ScopesAllowed(a: Tables, audience: string, scopes: set<string>) {
    scopes != {} && audience in a.apps && a.apps[audience].enabled && scopes <= a.apps[audience].scopes
  }

  function Revoked(sessions: map<string, Session>, gone: set<string>): map<string, Session> {
    map t | t in sessions :: if t in gone then sessions[t].(revoked := true) else sessions[t]
  }

  function LiveFor(sessions: map<string, Session>, audience: string): set<string> {
    set t | t in sessions && sessions[t].grant.audience == audience && !sessions[t].revoked
  }

  function LiveOf(sessions: map<string, Session>, address: string): set<string> {
    set t | t in sessions && sessions[t].grant.address == Compact(address) && !sessions[t].revoked
  }

  predicate AppChanges(a: Tables, audience: string, owner: string, scopes: set<string>) {
    audience in a.apps && (a.apps[audience].scopes != scopes || a.apps[audience].owner != owner)
  }

  /** The app mirrored from the catalog; if it had another owner or other scopes, its live sessions are revoked. */
  function Upserted(a: Tables, audience: string, owner: string, scopes: set<string>): Tables {
    var enabled := audience in a.apps ==> a.apps[audience].enabled;
    a.(apps := a.apps[audience := App(owner, scopes, enabled)],
       sessions := if AppChanges(a, audience, owner, scopes) then Revoked(a.sessions, LiveFor(a.sessions, audience)) else a.sessions)
  }

  function Inserted(a: Tables, token: string, grant: Grant, now: int): Tables {
    a.(sessions := a.sessions[token := Session(grant, now + SESSION_TTL, false)])
  }

  predicate IsOpen(a: Tables, id: string, now: int) {
    id in a.challenges && !a.challenges[id].consumed && a.challenges[id].expiresAt > now
  }

  function Consumed(a: Tables, id: string): Tables
    requires id in a.challenges
  {
    a.(challenges := a.challenges[id := a.challenges[id].(consumed := true)])
  }

  /** An app has been mirrored: a new one is enabled, a known one stays as enabled as it was; its sessions are revoked
      exactly if it had another owner or other scopes, and no other session is touched. */
  ghost predicate MirrorsApp(a: Tables, b: Tables, audience: string, owner: string, scopes: set<string>) {
    && b.apps == a.apps[audience := App(owner, scopes, if audience in a.apps then a.apps[audience].enabled else true)]
    && b.challenges == a.challenges && b.sessions.Keys == a.sessions.Keys
    && forall t :: t in a.sessions ==>
         b.sessions[t] ==
           if a.sessions[t].grant.audience == audience && audience in a.apps
              && (a.apps[audience].owner != owner || a.apps[audience].scopes != scopes)
           then a.sessions[t].(revoked := true) else a.sessions[t]
  }

  // ---- Consent ----

  /** Every unrevoked session's scopes are among those its app declares now. */
  ghost predicate Consent(a: Tables) {
    forall t :: t in a.sessions && !a.sessions[t].revoked ==>
      a.sessions[t].grant.audience in a.apps && a.sessions[t].grant.scopes <= a.apps[a.sessions[t].grant.audience].scopes
  }

  /** Sessions are never forgotten, changed, or un-revoked. */
  ghost predicate OnlyRevokes(a: Tables, b: Tables) {
    forall t :: t in a.sessions ==>
      t in b.sessions && b.sessions[t].grant == a.sessions[t].grant && (a.sessions[t].revoked ==> b.sessions[t].revoked)
  }

  /** Mirroring an app keeps consent, and revokes every live session of the app exactly if its owner or its scopes
      change. */
  lemma UpsertKeepsConsent(a: Tables, audience: string, owner: string, scopes: set<string>)
    requires Consent(a)
    ensures var b := Upserted(a, audience, owner, scopes);
      && Consent(b) && OnlyRevokes(a, b)
      && LiveFor(b.sessions, audience) == (if AppChanges(a, audience, owner, scopes) then {} else LiveFor(a.sessions, audience))
  {
    var b := Upserted(a, audience, owner, scopes);
    if AppChanges(a, audience, owner, scopes) {
      assert forall t :: t in a.sessions && a.sessions[t].grant.audience == audience && !a.sessions[t].revoked ==> t in LiveFor(a.sessions, audience);
    }
  }

  lemma RevokingKeepsConsent(a: Tables, gone: set<string>)
    requires Consent(a)
    ensures Consent(a.(sessions := Revoked(a.sessions, gone))) && OnlyRevokes(a, a.(sessions := Revoked(a.sessions, gone)))
  {
  }

  /** A new session keeps consent exactly if its scopes are declared at that moment. */
  lemma InsertKeepsConsentIff(a: Tables, token: string, grant: Grant, now: int)
    requires Consent(a) && token !in a.sessions
    ensures OnlyRevokes(a, Inserted(a, token, grant, now))
    ensures Consent(Inserted(a, token, grant, now)) <==> grant.audience in a.apps && grant.scopes <= a.apps[grant.audience].scopes
  {
    var b := Inserted(a, token, grant, now);
    assert b.sessions[token].grant == grant && !b.sessions[token].revoked;
  }

  datatype AuthError = ScopeNotAllowed | ChallengeUnavailable | SessionUnavailable | InvalidApp | Collision

  class AuthStore {
    var apps: map<string, App>
    var challenges: map<string, Challenge>
    var sessions: map<string, Session>

    constructor ()
      ensures State() == Tables(map[], map[], map[])
    {
      apps, challenges, sessions := map[], map[], map[];
    }

    function State(): Tables reads this {
      Tables(apps, challenges, sessions)
    }

    /** The distinct scopes of a request. */
    static method CanonicalScopes(scopes: seq<string>) returns (unique: set<string>)
      ensures unique == Elements(scopes)
    {
      unique := {};
      var i := 0;
      while i < |scopes|
        invariant 0 <= i <= |scopes|
        invariant unique == Elements(scopes[..i])
      {
        assert scopes[..i + 1] == scopes[..i] + [scopes[i]];
        assert Elements(scopes[..i + 1]) == Elements(scopes[..i]) + {scopes[i]} by {
          assert scopes[..i + 1][i] == scopes[i];
          assert forall k :: 0 <= k < i ==> scopes[..i + 1][k] == scopes[..i][k];
        }
        unique := unique + {scopes[i]};
        i := i + 1;
      }
      assert scopes[..|scopes|] == scopes;
    }

    method ValidateScopes(audience: string, requested: seq<string>) returns (r: Outcome<set<string>, AuthError>)
      ensures r == if ScopesAllowed(State(), audience, Elements(requested)) then Ok(Elements(requested)) else Fail(ScopeNotAllowed)
      ensures r.Ok? <==> |requested| > 0 && audience in apps && apps[audience].enabled
                         && forall i :: 0 <= i < |requested| ==> requested[i] in apps[audience].scopes
    {
      var canonical := CanonicalScopes(requested);
      assert forall i :: 0 <= i < |requested| ==> requested[i] in Elements(requested);
      assert |requested| > 0 ==> requested[0] in Elements(requested);
      if canonical == {} {
        return Fail(ScopeNotAllowed);
      }
      var allowed: set<string> := if audience in apps && apps[audience].enabled then apps[audience].scopes else {};
      var left := canonical;
      while left != {}
        invariant left <= canonical
        invariant canonical - left <= allowed
        decreases left
      {
        var scope :| scope in left;
        if scope !in allowed {
          return Fail(ScopeNotAllowed);
        }
        left := left - {scope};
      }
      r := Ok(canonical);
    }

    method CreateChallenge(id: string, address: string, audience: string, scopes: seq<string>, now: int)
      returns (r: Outcome<Grant, AuthError>)
      modifies this
      ensures r.Fail? ==> State() == old(State())
      ensures r.Fail? <==> id in old(challenges) || !ScopesAllowed(old(State()), audience, Elements(scopes))
      ensures r.Ok? ==> r.value == Grant(Compact(address), audience, Elements(scopes))
      ensures r.Ok? ==> State() == old(State()).(challenges := old(challenges)[id := Challenge(r.value, now + 300, false)])
    {
      var canonical := ValidateScopes(audience, scopes);
      if canonical.Fail? {
        return Fail(canonical.error);
      }
      if id in challenges {
        return Fail(Collision);
      }
      var grant := Grant(Compact(address), audience, canonical.value);
      challenges := challenges[id := Challenge(grant, now + CHALLENGE_TTL, false)];
      r := Ok(grant);
    }

    /** Succeeds at most once per challenge, and before it expires. */
    method ConsumeChallenge(id: string, now: int) returns (r: Outcome<Grant, AuthError>)
      modifies this
      ensures if IsOpen(old(State()), id, now)
              then r == Ok(old(challenges[id]).grant) && State() == Consumed(old(State()), id) && !IsOpen(State(), id, now)
              else r == Fail(ChallengeUnavailable) && State() == old(State())
      ensures r.Ok? <==> id in old(challenges) && !old(challenges)[id].consumed && now < old(challenges)[id].expiresAt
      ensures r.Ok? ==> challenges == old(challenges)[id := old(challenges)[id].(consumed := true)]
    {
      if id !in challenges || challenges[id].consumed || challenges[id].expiresAt <= now {
        return Fail(ChallengeUnavailable);
      }
      r := Ok(challenges[id].grant);
      challenges := challenges[id := challenges[id].(consumed := true)];
    }

    method IssueSession(token: string, address: string, audience: string, scopes: seq<string>, now: int)
      returns (r: Outcome<Grant, AuthError>)
      modifies this
      ensures r.Fail? ==> State() == old(State())
      ensures r.Fail? <==> token in old(sessions) || !ScopesAllowed(old(State()), audience, Elements(scopes))
      ensures r.Ok? ==> r.value == Grant(Compact(address), audience, Elements(scopes)) && State() == Inserted(old(State()), token, r.value, now)
      ensures r.Ok? ==> sessions == old(sessions)[token := Session(r.value, now + 604800, false)]
      ensures Consent(old(State())) ==> Consent(State())
    {
      var canonical := ValidateScopes(audience, scopes);
      if canonical.Fail? {
        return Fail(canonical.error);
      }
      if token in sessions {
        return Fail(Collision);
      }
      var grant := Grant(Compact(address), audience, canonical.value);
      sessions := sessions[token := Session(grant, now + SESSION_TTL, false)];
      r := Ok(grant);
    }

    /** A session resolves only while it is unrevoked, unexpired, and its app enabled. */
    method ResolveSession(token: string, now: int) returns (r: Outcome<Grant, AuthError>)
      ensures r.Ok? <==> token in sessions && !sessions[token].revoked && sessions[token].expiresAt > now
                         && sessions[token].grant.audience in apps && apps[sessions[token].grant.audience].enabled
      ensures r.Ok? ==> r.value == sessions[token].grant
      ensures r.Ok? && Consent(State()) ==> r.value.scopes <= apps[r.value.audience].scopes
    {
      if token !in sessions {
        return Fail(SessionUnavailable);
      }
      var s := sessions[token];
      if s.revoked || s.expiresAt <= now || s.grant.audience !in apps || !apps[s.grant.audience].enabled {
        return Fail(SessionUnavailable);
      }
      r := Ok(s.grant);
    }

    method RevokeSession(token: string) returns (r: Outcome<(), AuthError>)
      modifies this
      ensures r.Ok? <==> token in old(sessions) && !old(sessions[token]).revoked
      ensures State() == old(State()).(sessions := Revoked(old(sessions), {token}))
      ensures sessions == if r.Ok? then old(sessions)[token := old(sessions)[token].(revoked := true)] else old(sessions)
    {
      if token !in sessions || sessions[token].revoked {
        assert Revoked(sessions, {token}) == sessions;
        return Fail(SessionUnavailable);
      }
      sessions := sessions[token := sessions[token].(revoked := true)];
      assert sessions == Revoked(old(sessions), {token});
      r := Ok(());
    }

    method RevokeAllSessions(address: string) returns (count: nat)
      modifies this
      ensures count == |LiveOf(old(sessions), address)|
      ensures State() == old(State()).(sessions := Revoked(old(sessions), LiveOf(old(sessions), address)))
      ensures LiveOf(sessions, address) == {}
      ensures sessions.Keys == old(sessions).Keys
      ensures forall t :: t in old(sessions) ==>
        sessions[t] == if old(sessions)[t].grant.address == Compact(address) then old(sessions)[t].(revoked := true) else old(sessions)[t]
      ensures count == |set t | t in old(sessions) && old(sessions)[t].grant.address == Compact(address) && !old(sessions)[t].revoked|
    {
      var live := LiveOf(sessions, address);
      count := |live|;
      sessions := Revoked(sessions, live);
    }

    /** Mirrors an app record; `valid` stands for the form of its audience. */
    method UpsertApp(audience: string, valid: bool, owner: string, scopes: seq<string>) returns (r: Outcome<(), AuthError>)
      modifies this
      ensures r.Ok? <==> valid && Elements(scopes) <= KNOWN_SCOPES
      ensures State() == if r.Ok? then Upserted(old(State()), audience, owner, Elements(scopes)) else old(State())
      ensures r.Ok? ==> MirrorsApp(old(State()), State(), audience, owner, Elements(scopes))
      ensures Consent(old(State())) ==> Consent(State())
    {
      if !valid {
        return Fail(InvalidApp);
      }
      var canonical := CanonicalScopes(scopes);
      if !(canonical <= KNOWN_SCOPES) {
        return Fail(InvalidApp);
      }
      ghost var before := State();
      var existed := audience in apps;
      var prior := if existed then apps[audience] else App("", {}, true);
      apps := apps[audience := App(owner, canonical, prior.enabled)];
      if existed && (prior.scopes != canonical || prior.owner != owner) {
        sessions := Revoked(sessions, LiveFor(sessions, audience));
      }
      if Consent(before) {
        UpsertKeepsConsent(before, audience, owner, canonical);
      }
      r := Ok(());
    }
  }
}
