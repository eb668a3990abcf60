/** Login, refresh, logout and password change over the user, session and limiter services, and the guard. */
module Auth {
  import opened Basics
  import opened Sessions
  import opened Accounts
  import opened Limiter

  /** What an access token says; the family is that of the refresh token issued with it. */
  datatype AccessToken = AccessToken(userId: nat, version: nat, family: nat)

  /** A refresh token whose signature and type have been checked, with its signed expiry. */
  datatype Payload = Payload(jti: nat, sub: nat, family: nat, exp: int)

  /** The identifiers and expiry of a refresh token about to be issued. */
  datatype Mint = Mint(jti: nat, family: nat, expiresAt: int)

  // ---------------------------------------------------------------- login

  datatype LoginCode = Throttled | BadCredentials | SignedIn

  predicate FoundBy(users: Users, email: string, found: Option<nat>) {
    match found
    case Some(id) => id in users && users[id].email == email
    case None => forall u | u in users :: users[u].email != email
  }

  predicate IsLocalAdmin(u: User) {
    u.provider == Local && u.role == Some(Admin) && u.passwordHash.Some?
  }

  /** `opens` tells whether the presented password matches a stored hash. */
  function LoginOutcome(
    users: Users, counters: Counters, email: string, ip: string, found: Option<nat>, opens: nat -> bool, now: int)
    : LoginCode
  {
    if Blocked(counters, email, ip, now) then Throttled
    else if found.None? || found.value !in users || !IsLocalAdmin(users[found.value]) then BadCredentials
    else if !opens(users[found.value].passwordHash.value) then BadCredentials
    else SignedIn
  }

  /** The user found is a local administrator, and the presented password opens the stored hash. */
  predicate MaySignIn(users: Users, found: Option<nat>, opens: nat -> bool) {
    match found
    case None => false
    case Some(id) =>
      && id in users && users[id].provider == Local && users[id].role == Some(Admin)
      && match users[id].passwordHash
         case None => false
         case Some(hash) => opens(hash)
  }

  /** A login succeeds exactly if neither key has failed too often and the user found may sign in. */
  lemma LoginMeaning(
    users: Users, counters: Counters, email: string, ip: string, found: Option<nat>, opens: nat -> bool, now: int)
    ensures var code := LoginOutcome(users, counters, email, ip, found, opens, now);
      && (code == Throttled <==> TooMany(counters, email, ip, now))
      && (code == SignedIn <==> !TooMany(counters, email, ip, now) && MaySignIn(users, found, opens))
  {
  }

  function CountersAfterLogin(code: LoginCode, counters: Counters, email: string, ip: string, now: int): Counters {
    match code
    case Throttled => counters
    case BadCredentials => Failed(counters, email, ip, now)
    case SignedIn => Cleared(counters, email)
  }

  function Issued(tokens: Store, userId: nat, mint: Mint): Store {
    tokens[mint.jti := Token(userId, mint.family, mint.expiresAt, None, None)]
  }

  // ---------------------------------------------------------------- refresh

  /** Verification rejects a token past its signed expiry like one with a bad signature. */
  predicate Verifies(p: Option<Payload>, now: int) {
    p.Some? && now < p.value.exp
  }

  datatype RefreshCode = InvalidType | ReuseDetected | ExpiredOrRevoked | HashMismatch | NoSuchUser | Granted

  function RefreshOutcome(tokens: Store, users: Users, p: Option<Payload>, hashOk: bool, now: int): RefreshCode {
    if !Verifies(p, now) then InvalidType
    else if p.value.jti !in tokens then ReuseDetected
    else
      var record := tokens[p.value.jti];
      if record.revokedAt.Some? || record.expiresAt <= now then ExpiredOrRevoked
      else if !hashOk then HashMismatch
      else if record.userId !in users then NoSuchUser
      else if users[record.userId].status in {Some(Rejected), Some(Revoked)} then ExpiredOrRevoked
      else Granted
  }

  function TokensAfterRefresh(
    tokens: Store, users: Users, p: Option<Payload>, hashOk: bool, jti: nat, expiresAt: int, now: int): Store
  {
    if !Verifies(p, now) then tokens
    else if p.value.jti !in tokens then Withdrawn(tokens, OfFamily(p.value.sub, p.value.family), now)
    else
      var record := tokens[p.value.jti];
      if record.revokedAt.Some? || record.expiresAt <= now then tokens
      else if !hashOk || record.userId !in users then
        Withdrawn(tokens, OfFamily(record.userId, record.family), now)
      else if users[record.userId].status in {Some(Rejected), Some(Revoked)} then
        Withdrawn(tokens, OfUser(record.userId), now)
      else Rotated(tokens, p.value.jti, jti, expiresAt, now)
  }

  /** The record of the presented token: live, unexpired, the stored hash opened, and its user neither rejected nor
      revoked. */
  predicate MayRefresh(tokens: Store, users: Users, p: Option<Payload>, hashOk: bool, now: int) {
    && p.Some? && now < p.value.exp && p.value.jti in tokens
    && tokens[p.value.jti].revokedAt == None && now < tokens[p.value.jti].expiresAt && hashOk
    && tokens[p.value.jti].userId in users
    && users[tokens[p.value.jti].userId].status != Some(Rejected)
    && users[tokens[p.value.jti].userId].status != Some(Revoked)
  }

  /** A refresh succeeds exactly then. A refusal leaves the store alone if the token is invalid, or its record revoked or
      expired; a missing record ends the family the token names, a wrong hash or a missing user the record's family, and
      a rejected or revoked user all of the user's sessions. */
  lemma RefreshMeaning(tokens: Store, users: Users, p: Option<Payload>, hashOk: bool, jti: nat, expiresAt: int, now: int)
    ensures RefreshOutcome(tokens, users, p, hashOk, now) == Granted <==> MayRefresh(tokens, users, p, hashOk, now)
    ensures var after := TokensAfterRefresh(tokens, users, p, hashOk, jti, expiresAt, now);
      if p.None? || p.value.exp <= now then after == tokens
      else if p.value.jti !in tokens then Silences(tokens, after, p.value.sub, Some(p.value.family), now)
      else
        var t := tokens[p.value.jti];
        if t.revokedAt.Some? || t.expiresAt <= now then after == tokens
        else if !hashOk || t.userId !in users then Silences(tokens, after, t.userId, Some(t.family), now)
        else if users[t.userId].status == Some(Rejected) || users[t.userId].status == Some(Revoked) then
          Silences(tokens, after, t.userId, None, now) && NoneLive(after, t.userId)
        else after == tokens[p.value.jti := Token(t.userId, t.family, t.expiresAt, Some(now), Some(jti))]
                            [jti := Token(t.userId, t.family, expiresAt, None, None)]
  {
  }

  /** No clean-up ever costs a refresh: what is granted afterwards, now or later, is what would have been
      granted without it. */
  lemma CleanupDeniesNothing(tokens: Store, users: Users, p: Option<Payload>, hashOk: bool, now: int, later: int,
                             days: nat)
    requires now <= later
    ensures RefreshOutcome(tokens, users, p, hashOk, later) == Granted <==>
      RefreshOutcome(WithoutExpired(tokens, now), users, p, hashOk, later) == Granted
    ensures RefreshOutcome(tokens, users, p, hashOk, later) == Granted <==>
      RefreshOutcome(WithoutOldRevoked(tokens, now, days), users, p, hashOk, later) == Granted
  {
  }

  // ---------------------------------------------------------------- password change

  predicate MayChangePassword(users: Users, id: nat, opens: nat -> bool) {
    && id in users && users[id].passwordHash.Some? && users[id].role == Some(Admin)
    && opens(users[id].passwordHash.value)
  }

  /** The administrator presents the current password. */
  predicate KnowsPassword(users: Users, id: nat, opens: nat -> bool) {
    && id in users && users[id].role == Some(Admin)
    && match users[id].passwordHash
       case None => false
       case Some(hash) => opens(hash)
  }

  lemma PasswordMeaning(users: Users, id: nat, opens: nat -> bool)
    ensures MayChangePassword(users, id, opens) <==> KnowsPassword(users, id, opens)
  {
  }

  // ---------------------------------------------------------------- guard

  datatype Route = Route(isPublic: bool, allowStale: bool, endpoint: string)

  datatype Answer = Admitted | Unauthorized | Forbidden

  /** Endpoints open to restricted users, as method and versionless path. */
  const OPEN_ENDPOINTS: set<string> :=
    {"GET:/users/me", "GET:/auth/access-status", "POST:/auth/logout-all", "POST:/users/me/change-password"}

  predicate Restricted(u: User, development: bool) {
    || (u.provider == Entra && u.status != Some(Approved))
    || (!development && u.role == Some(Admin) && u.mustChangePassword)
  }

  /** `token` is absent when it is missing or does not verify. */
  function Admit(users: Users, token: Option<AccessToken>, route: Route, development: bool): Answer {
    if route.isPublic then Admitted
    else if token.None? || token.value.userId !in users then Unauthorized
    else
      var u := users[token.value.userId];
      if !route.allowStale && token.value.version != u.version then Unauthorized
      else if Restricted(u, development) && route.endpoint !in OPEN_ENDPOINTS then Forbidden
      else Admitted
  }

  // ---------------------------------------------------------------- the service

  class AuthService {
    const users: UserService
    const sessions: SessionService
    const limits: LoginRateLimitService

    constructor (users: UserService, sessions: SessionService, limits: LoginRateLimitService)
      ensures this.users == users && this.sessions == sessions && this.limits == limits
    {
      this.users := users;
      this.sessions := sessions;
      this.limits := limits;
    }

    method IssueSession(id: nat, mint: Mint) returns (access: AccessToken)
      requires id in users.users
      modifies sessions
      ensures sessions.tokens == Issued(old(sessions.tokens), id, mint)
      ensures access == AccessToken(id, users.users[id].version, mint.family)
    {
      var user := users.FindUserById(id);
      access := AccessToken(id, user.value.version, mint.family);
      sessions.StoreNew(mint.jti, id, mint.family, mint.expiresAt);
    }

    method Login(email: string, ip: string, opens: nat -> bool, mint: Mint, now: int)
      returns (access: Option<AccessToken>, ghost found: Option<nat>)
      modifies sessions, limits
      ensures found.None? || FoundBy(users.users, email, found)
      ensures var code := LoginOutcome(users.users, old(limits.counters), email, ip, found, opens, now);
        && (code != Throttled ==> FoundBy(users.users, email, found))
        && limits.counters == CountersAfterLogin(code, old(limits.counters), email, ip, now)
        && (access.Some? <==> code == SignedIn)
        && (access.Some? ==> access.value == AccessToken(found.value, users.users[found.value].version, mint.family))
        && sessions.tokens ==
             if code == SignedIn then Issued(old(sessions.tokens), found.value, mint) else old(sessions.tokens)
      ensures var blocked := TooMany(old(limits.counters), email, ip, now);
        && (access.Some? <==> !blocked && MaySignIn(users.users, found, opens))
        && (blocked ==> limits.counters == old(limits.counters))
        && (access.Some? ==> Forgets(old(limits.counters), limits.counters, email))
        && (!blocked && access.None? ==> CountsFailure(old(limits.counters), limits.counters, email, ip, now))
    {
      access, found := None, None;
      CountersMeaning(limits.counters, email, ip, now);
      var blocked := limits.IsBlocked(email, ip, now);
      if blocked {
        return;
      }
      var id := users.FindUserByEmail(email);
      found := id;
      if id.None? {
        limits.RecordFailure(email, ip, now);
        return;
      }
      var user := users.FindUserById(id.value);
      if user.value.provider != Local || user.value.role != Some(Admin) || user.value.passwordHash.None? {
        limits.RecordFailure(email, ip, now);
        return;
      }
      if !opens(user.value.passwordHash.value) {
        limits.RecordFailure(email, ip, now);
        return;
      }
      limits.ResetAccount(email);
      var session := IssueSession(id.value, mint);
      access := Some(session);
    }

    method Refresh(p: Option<Payload>, hashOk: bool, jti: nat, expiresAt: int, now: int)
      returns (code: RefreshCode, access: Option<AccessToken>)
      modifies sessions
      ensures code == RefreshOutcome(old(sessions.tokens), users.users, p, hashOk, now)
      ensures sessions.tokens == TokensAfterRefresh(old(sessions.tokens), users.users, p, hashOk, jti, expiresAt, now)
      ensures access.Some? <==> code == Granted
      ensures access.Some? ==>
        var record := old(sessions.tokens)[p.value.jti];
        access.value == AccessToken(record.userId, users.users[record.userId].version, record.family)
    {
      access := None;
      if p.None? || p.value.exp <= now {
        return InvalidType, None;
      }
      var record := sessions.FindByJti(p.value.jti);
      if record.None? {
        sessions.RevokeFamilyForUser(p.value.sub, p.value.family, now);
        return ReuseDetected, None;
      }
      var t := record.value;
      if t.revokedAt.Some? || t.expiresAt <= now {
        return ExpiredOrRevoked, None;
      }
      if !hashOk {
        sessions.RevokeFamilyForUser(t.userId, t.family, now);
        return HashMismatch, None;
      }
      var user := users.FindUserById(t.userId);
      if user.None? {
        sessions.RevokeFamilyForUser(t.userId, t.family, now);
        return NoSuchUser, None;
      }
      if user.value.status == Some(Rejected) || user.value.status == Some(Revoked) {
        sessions.RevokeAllForUser(t.userId, now);
        return ExpiredOrRevoked, None;
      }
      sessions.Rotate(p.value.jti, jti, expiresAt, now);
      code := Granted;
      access := Some(AccessToken(t.userId, user.value.version, t.family));
    }

    /** The token is decoded without being verified. */
    method Logout(jti: Option<nat>, now: int)
      modifies sessions
      ensures sessions.tokens ==
        match jti case Some(j) => RevokedOne(old(sessions.tokens), j, now) case None => old(sessions.tokens)
    {
      if jti.Some? {
        sessions.RevokeByJti(jti.value, now);
      }
    }

    method LogoutAll(id: nat, now: int)
      modifies sessions
      ensures sessions.tokens == Withdrawn(old(sessions.tokens), OfUser(id), now)
    {
      sessions.RevokeAllForUser(id, now);
    }

    method ChangeAdminPassword(id: nat, opens: nat -> bool, hash: nat, now: int) returns (changed: bool)
      modifies users, sessions
      ensures changed == KnowsPassword(old(users.users), id, opens)
      ensures changed == MayChangePassword(old(users.users), id, opens)
      ensures users.users == if changed then old(users.users)[id := PasswordChanged(old(users.users)[id], hash)]
                             else old(users.users)
      ensures sessions.tokens == if changed then Withdrawn(old(sessions.tokens), OfUser(id), now)
                                 else old(sessions.tokens)
    {
      var user := users.FindUserById(id);
      if user.None? || user.value.passwordHash.None? || user.value.role != Some(Admin) {
        return false;
      }
      if !opens(user.value.passwordHash.value) {
        return false;
      }
      users.ChangeAdminPassword(id, hash);
      sessions.RevokeAllForUser(id, now);
      changed := true;
    }
  }
}
