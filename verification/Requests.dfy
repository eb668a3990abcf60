/** What each request does to the whole state, told without the functions that compute it; and what that means along
    runs. */
module Requests {
  import opened Basics
  import opened Sessions
  import opened Accounts
  import opened Limiter
  import opened Auth
  import opened Runs

  // ---------------------------------------------------------------- login

  /** A new session: one live record under a fresh number, and an access token at the user's version. */
  ghost predicate OpensSession(w: World, v: World, userId: nat, mint: Mint) {
    && userId in w.users
    && v.tokens == w.tokens[mint.jti := Token(userId, mint.family, mint.expiresAt, None, None)]
    && v.granted == w.granted + [AccessToken(userId, w.users[userId].version, mint.family)]
  }

  /** A throttled login changes nothing; a successful one clears the account's counter and opens a session; a failed one
      counts against account and address and opens none. */
  lemma LoginExactly(w: World, e: Event)
    requires e.Login?
    ensures var v := Step(w, e);
      && v.users == w.users && v.decisions == w.decisions && v.now == w.now && v.spent == w.spent
      && (GrantOf(w, e).Some? <==> !TooMany(w.counters, e.email, e.ip, w.now) && MaySignIn(w.users, e.found, e.opens))
      && if TooMany(w.counters, e.email, e.ip, w.now) then v == w
         else if MaySignIn(w.users, e.found, e.opens) then
           && OpensSession(w, v, e.found.value, e.mint)
           && Forgets(w.counters, v.counters, e.email) && Reading(v.counters, Account(e.email), v.now) == 0
         else
           && CountsFailure(w.counters, v.counters, e.email, e.ip, w.now)
           && v.tokens == w.tokens && v.granted == w.granted
  {
    LoginMeaning(w.users, w.counters, e.email, e.ip, e.found, e.opens, w.now);
    CountersMeaning(w.counters, e.email, e.ip, w.now);
  }

  /** In every run, whoever logs in is the administrator and has presented a password that opens the stored hash. */
  lemma OnlyTheAdministratorLogsIn(events: seq<Event>, n: nat)
    requires Possible(START, events) && n < |events| && events[n].Login?
    requires GrantOf(Exec(START, events, n), events[n]).Some?
    ensures var w, e := Exec(START, events, n), events[n];
      && e.found.Some? && Admins(w.users) == {e.found.value} && w.users[e.found.value].email == e.email
      && w.users[e.found.value].passwordHash.Some? && e.opens(w.users[e.found.value].passwordHash.value)
  {
    var w, e := Exec(START, events, n), events[n];
    LoginExactly(w, e);
    assert Enabled(w, e);
    forall a | a in Admins(w.users)
      ensures a == e.found.value
    {
      AtMostOneAdmin(events, n, a, e.found.value);
    }
  }

  /** A signed-in workforce user opens a session; an unknown user none. */
  lemma ExchangeExactly(w: World, e: Event)
    requires e.Exchange?
    ensures var v := Step(w, e);
      && v.users == w.users && v.counters == w.counters && v.decisions == w.decisions
      && if e.userId in w.users then OpensSession(w, v, e.userId, e.mint) else v == w
  {
  }

  // ---------------------------------------------------------------- refresh and logout

  /** A refresh is granted exactly to the live record of a user in good standing, and rotates it; how a refusal touches
      the other records depends on its ground. Nothing else changes. */
  lemma RefreshExactly(w: World, e: Event)
    requires e.Refresh?
    ensures var p, v := e.payload, Step(w, e);
      && v.users == w.users && v.counters == w.counters && v.decisions == w.decisions && v.now == w.now
      && (GrantOf(w, e).Some? <==> MayRefresh(w.tokens, w.users, p, e.hashOk, w.now))
      && (GrantOf(w, e).None? ==> v.granted == w.granted && v.spent == w.spent)
      && if p.None? || p.value.exp <= w.now then v.tokens == w.tokens
         else if p.value.jti !in w.tokens then Silences(w.tokens, v.tokens, p.value.sub, Some(p.value.family), w.now)
         else
           var t := w.tokens[p.value.jti];
           if t.revokedAt.Some? || t.expiresAt <= w.now then v.tokens == w.tokens
           else if !e.hashOk || t.userId !in w.users then Silences(w.tokens, v.tokens, t.userId, Some(t.family), w.now)
           else if w.users[t.userId].status in {Some(Rejected), Some(Revoked)} then
             Silences(w.tokens, v.tokens, t.userId, None, w.now) && NoneLive(v.tokens, t.userId)
           else
             && v.tokens == w.tokens[p.value.jti := Token(t.userId, t.family, t.expiresAt, Some(w.now), Some(e.jti))]
                                    [e.jti := Token(t.userId, t.family, e.expiresAt, None, None)]
             && v.spent == w.spent + {p.value.jti}
             && v.granted == w.granted + [AccessToken(t.userId, w.users[t.userId].version, t.family)]
  {
    RefreshMeaning(w.tokens, w.users, e.payload, e.hashOk, e.jti, e.expiresAt, w.now);
  }

  /** A stolen copy whose hash does not fit ends the family it was taken from. */
  lemma WrongHashEndsFamily(w: World, e: Event)
    requires Inv(w) && e.Refresh? && !e.hashOk && e.payload.Some? && w.now < e.payload.value.exp
    requires var j := e.payload.value.jti;
      j in w.tokens && w.tokens[j].Live() && w.now < w.tokens[j].expiresAt
    ensures Dead(Step(w, e), w.tokens[e.payload.value.jti].family) && GrantOf(w, e).None?
  {
    RefreshExactly(w, e);
    StepKeepsIds(w, e);
    var family := w.tokens[e.payload.value.jti].family;
    forall j | j in Step(w, e).tokens && Step(w, e).tokens[j].family == family
      ensures !Step(w, e).tokens[j].Live()
    {
      assert w.tokens[j].userId == w.tokens[e.payload.value.jti].userId;
    }
  }

  /** A logout revokes the presented record if it is live and leaves all others as they are. */
  lemma LogoutExactly(w: World, e: Event)
    requires e.Logout?
    ensures var v := Step(w, e);
      && v == w.(tokens := v.tokens) && v.tokens.Keys == w.tokens.Keys
      && forall j | j in w.tokens ::
           v.tokens[j] ==
             if e.presented == Some(j) && w.tokens[j].revokedAt == None then w.tokens[j].(revokedAt := Some(w.now))
             else w.tokens[j]
  {
  }

  /** With the live record its whole family ends. */
  lemma LogoutEndsFamily(w: World, e: Event, j: nat)
    requires Inv(w) && e.Logout? && e.presented == Some(j) && j in w.tokens && w.tokens[j].Live()
    ensures Dead(Step(w, e), w.tokens[j].family)
  {
    LogoutExactly(w, e);
    StepKeepsIds(w, e);
  }

  /** A logout from all devices revokes every live record of the user and touches no other. */
  lemma LogoutAllExactly(w: World, e: Event)
    requires e.LogoutAll?
    ensures var v := Step(w, e);
      v == w.(tokens := v.tokens) && Silences(w.tokens, v.tokens, e.userId, None, w.now) && NoneLive(v.tokens, e.userId)
  {
    WithdrawalsSilence(w.tokens, e.userId, 0, w.now);
  }

  // ---------------------------------------------------------------- decisions

  /** A decision that applies moves the one user, with role and version, and logs it; a rejection or a revocation
      silences the user's records, and the other three actions touch none. A decision that does not apply changes
      nothing. */
  lemma DecisionExactly(w: World, e: Event)
    requires e.Decide?
    ensures var v := Step(w, e);
      if to :| Applies(w.users, e.userId, e.action, to) then
        var u := w.users[e.userId];
        && v.users == w.users[e.userId :=
             u.(status := Some(to), role := if to == Approved then Some(Ops) else None, version := u.version + 1)]
        && v.decisions == w.decisions + [Decision(e.userId, e.actor, u.status.value, to, e.action)]
        && (if e.action in {Reject, Revoke} then
              Silences(w.tokens, v.tokens, e.userId, None, w.now) && NoneLive(v.tokens, e.userId)
            else v.tokens == w.tokens)
        && v == w.(users := v.users, decisions := v.decisions, tokens := v.tokens)
      else v == w
  {
    var a := e.action;
    JudgeMeaning(w.users, e.userId, a);
    WithdrawalsSilence(w.tokens, e.userId, 0, w.now);
    forall to: Status | Applies(w.users, e.userId, a, to)
      ensures to == To(a) && (ClosesSessions(to) <==> a in {Reject, Revoke})
    {
      ActionsMeaning(a, w.users[e.userId].status.value, to);
    }
  }

  // ---------------------------------------------------------------- passwords

  /** A password change takes the current password of an administrator; it then replaces hash, flag and version and
      silences all the user's records. Otherwise nothing changes. */
  lemma PasswordExactly(w: World, e: Event)
    requires e.ChangePassword?
    ensures var v := Step(w, e);
      if KnowsPassword(w.users, e.userId, e.opens) then
        var u := w.users[e.userId];
        && v.users == w.users[e.userId :=
             u.(passwordHash := Some(e.hash), mustChangePassword := false, version := u.version + 1)]
        && Silences(w.tokens, v.tokens, e.userId, None, w.now) && NoneLive(v.tokens, e.userId)
        && v == w.(users := v.users, tokens := v.tokens)
      else v == w
  {
    PasswordMeaning(w.users, e.userId, e.opens);
    WithdrawalsSilence(w.tokens, e.userId, 0, w.now);
  }

  /** After a change the new password signs in and the old one does not, unless it opens the new hash. */
  lemma NewPasswordSignsIn(w: World, e: Event, login: Event)
    requires Inv(w) && e.ChangePassword? && KnowsPassword(w.users, e.userId, e.opens)
    requires login.Login? && login.found == Some(e.userId)
    requires !TooMany(w.counters, login.email, login.ip, w.now)
    ensures GrantOf(Step(w, e), login).Some? <==> login.opens(e.hash)
  {
    PasswordExactly(w, e);
    LoginExactly(Step(w, e), login);
    assert UserOk(w, e.userId);
  }

  // ---------------------------------------------------------------- users

  /** The bootstrap creates an administrator with this address and password if there is none, restricted until the
      password has been changed. */
  lemma BootstrapExactly(w: World, e: Event, family: nat, route: Route)
    requires e.Bootstrap? && Enabled(w, e)
    ensures var v := Step(w, e);
      if forall id | id in w.users :: w.users[id].role != Some(Admin) then
        && v.users == w.users[e.id := v.users[e.id]]
        && v.users[e.id].email == e.email && v.users[e.id].provider == Local && v.users[e.id].role == Some(Admin)
        && v.users[e.id].passwordHash == Some(e.hash) && v.users[e.id].version == 1
        && v.users[e.id].status == None && v.users[e.id].directoryId == None
        && (!route.isPublic && route.endpoint !in OPEN_ENDPOINTS ==>
              Admit(v.users, Some(AccessToken(e.id, 1, family)), route, false) == Forbidden)
        && v == w.(users := v.users, ids := v.ids)
      else v == w
  {
    assert (forall id | id in w.users :: w.users[id].role != Some(Admin)) <==> Admins(w.users) == {} by {
      if id :| id in w.users && w.users[id].role == Some(Admin) {
        assert id in Admins(w.users);
      }
    }
  }

  /** A directory sign-in refreshes the address of the user it finds, or adds a pending user without role, password and
      session rights. */
  lemma SignInExactly(w: World, e: Event, family: nat, route: Route)
    requires e.SignIn? && Enabled(w, e)
    ensures var v := Step(w, e);
      && v == w.(users := v.users, ids := v.ids)
      && match e.existing
         case Some(u) =>
           && u in w.users && w.users[u].directoryId == Some(e.directoryId)
           && v.users == w.users[u := w.users[u].(email := e.email)]
         case None =>
           && v.users == w.users[e.id := v.users[e.id]]
           && v.users[e.id].email == e.email && v.users[e.id].provider == Entra
           && v.users[e.id].status == Some(Pending) && v.users[e.id].role == None && v.users[e.id].version == 1
           && v.users[e.id].passwordHash == None && v.users[e.id].directoryId == Some(e.directoryId)
           && (!route.isPublic && route.endpoint !in OPEN_ENDPOINTS ==>
                 Admit(v.users, Some(AccessToken(e.id, 1, family)), route, false) == Forbidden)
  {
  }

  // ---------------------------------------------------------------- clean-ups and the clock

  /** Which records a clean-up leaves: the unexpired ones; the live ones and those revoked within the given days; those
      not expired for 30 days. None is changed. */
  lemma CleanUpExactly(w: World, e: Event, j: nat)
    requires CleansUp(e)
    ensures var v := Step(w, e);
      && v == w.(tokens := v.tokens)
      && (j in v.tokens ==> j in w.tokens && v.tokens[j] == w.tokens[j])
      && (j in w.tokens ==>
            (j in v.tokens <==>
              if e.CleanupExpired? then w.now <= w.tokens[j].expiresAt
              else if e.StoreExpiry? then w.now <= w.tokens[j].expiresAt + 30 * 24 * 60 * 60
              else w.tokens[j].Live() || w.now <= w.tokens[j].revokedAt.value + e.days * 24 * 60 * 60))
  {
  }

  lemma TickExactly(w: World, e: Event)
    requires e.Tick?
    ensures Step(w, e) == w.(now := w.now + e.seconds)
  {
  }

  // ---------------------------------------------------------------- the guard

  /** What the user may do beyond the open endpoints: a workforce user once the last decision has approved, an
      administrator once the initial password is gone or in development. */
  ghost predicate InGoodStanding(w: World, id: nat, development: bool)
    requires id in w.users
  {
    var ds := DecisionsOn(w, id);
    if w.users[id].provider == Entra then |ds| > 0 && ds[|ds| - 1].next == Approved
    else development || !w.users[id].mustChangePassword
  }

  lemma StandingMeaning(w: World, id: nat, development: bool)
    requires Inv(w) && id in w.users
    ensures Restricted(w.users[id], development) <==> !InGoodStanding(w, id, development)
  {
    assert UserOk(w, id);
  }

  /** The guard's answer on every route: public routes admit everybody; elsewhere a missing token, an unknown user or,
      unless the route allows it, another version is unauthorized; beyond the four endpoints a user not in good standing
      is forbidden; all others are admitted. */
  lemma GuardExactly(w: World, token: Option<AccessToken>, route: Route, development: bool)
    requires Inv(w)
    ensures var answer := Admit(w.users, token, route, development);
      var known := token.Some? && token.value.userId in w.users
        && (route.allowStale || token.value.version == w.users[token.value.userId].version);
      && (answer == Unauthorized <==> !route.isPublic && !known)
      && (answer == Forbidden <==>
            && !route.isPublic && known && !InGoodStanding(w, token.value.userId, development)
            && route.endpoint != "GET:/users/me" && route.endpoint != "GET:/auth/access-status"
            && route.endpoint != "POST:/auth/logout-all" && route.endpoint != "POST:/users/me/change-password")
  {
    if token.Some? && token.value.userId in w.users {
      StandingMeaning(w, token.value.userId, development);
    }
  }
}
