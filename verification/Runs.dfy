/** The session and access state machine: one atomic step per request, and what holds over every run. */
module Runs {
  import opened Basics
  import opened Sessions
  import opened Accounts
  import opened Limiter
  import opened Auth

  /** The stores, the clock, every identifier used so far, and three records of the past: the access tokens
      granted, the refresh tokens signed, and those that have succeeded. */
  datatype World = World(
    users: Users,
    tokens: Store,
    decisions: seq<Decision>,
    counters: Counters,
    now: int,
    ids: set<nat>,
    granted: seq<AccessToken>,
    minted: map<nat, Payload>,
    spent: set<nat>)

  datatype Event =
    | Bootstrap(id: nat, email: string, hash: nat)
    | SignIn(directoryId: nat, email: string, existing: Option<nat>, id: nat)
    | Exchange(userId: nat, mint: Mint)
    | Login(email: string, ip: string, found: Option<nat>, opens: nat -> bool, mint: Mint)
    | Refresh(payload: Option<Payload>, hashOk: bool, jti: nat, expiresAt: int)
    | Logout(presented: Option<nat>)
    | LogoutAll(userId: nat)
    | ChangePassword(userId: nat, opens: nat -> bool, hash: nat)
    | Decide(actor: nat, userId: nat, action: Action)
    | CleanupExpired
    | CleanupRevoked(days: nat)
    | StoreExpiry
    | Tick(seconds: nat)

  /** How long the database keeps an expired record. */
  const TTL_DAYS := 30

  const START := World(map[], map[], [], map[], 0, {}, [], map[], {})

  /** Fresh identifiers are fresh, lookups report what is there, and the directory id is unique. */
  ghost predicate Enabled(w: World, e: Event) {
    match e
    case Bootstrap(id, _, _) => id !in w.ids
    case SignIn(d, _, existing, id) =>
      && id !in w.ids
      && (match existing
          case Some(u) => u in w.users && w.users[u].directoryId == Some(d)
          case None => forall u | u in w.users :: w.users[u].directoryId != Some(d))
    case Exchange(_, mint) => FreshMint(w, mint)
    case Login(email, _, found, _, mint) => FreshMint(w, mint) && FoundBy(w.users, email, found)
    case Refresh(_, _, jti, _) => jti !in w.ids
    case _ => true
  }

  predicate FreshMint(w: World, mint: Mint) {
    mint.jti !in w.ids && mint.family !in w.ids && mint.jti != mint.family
  }

  function Issue(w: World, userId: nat, mint: Mint): World
    requires userId in w.users
  {
    w.(tokens := Issued(w.tokens, userId, mint),
       ids := w.ids + {mint.jti, mint.family},
       minted := w.minted[mint.jti := Payload(mint.jti, userId, mint.family, mint.expiresAt)],
       granted := w.granted + [AccessToken(userId, w.users[userId].version, mint.family)])
  }

  function LoginCodeOf(w: World, e: Event): LoginCode
    requires e.Login?
  {
    LoginOutcome(w.users, w.counters, e.email, e.ip, e.found, e.opens, w.now)
  }

  function RefreshCodeOf(w: World, e: Event): RefreshCode
    requires e.Refresh?
  {
    RefreshOutcome(w.tokens, w.users, e.payload, e.hashOk, w.now)
  }

  function Step(w: World, e: Event): World {
    match e
    case Bootstrap(id, email, hash) =>
      if Admins(w.users) == {} then w.(users := w.users[id := NewAdmin(email, hash)], ids := w.ids + {id}) else w
    case SignIn(d, email, existing, id) =>
      (match existing
       case Some(u) => if u in w.users then w.(users := w.users[u := w.users[u].(email := email)]) else w
       case None => w.(users := w.users[id := NewWorkforce(email, d)], ids := w.ids + {id}))
    case Exchange(userId, mint) =>
      if userId in w.users then Issue(w, userId, mint) else w
    case Login(email, ip, found, opens, mint) =>
      var code := LoginCodeOf(w, e);
      var v := w.(counters := CountersAfterLogin(code, w.counters, email, ip, w.now));
      if code == SignedIn then Issue(v, found.value, mint) else v
    case Refresh(p, hashOk, jti, expiresAt) =>
      var v := w.(tokens := TokensAfterRefresh(w.tokens, w.users, p, hashOk, jti, expiresAt, w.now));
      if RefreshCodeOf(w, e) == Granted then
        var record := w.tokens[p.value.jti];
        v.(ids := w.ids + {jti},
           minted := w.minted[jti := Payload(jti, record.userId, record.family, expiresAt)],
           granted := w.granted + [AccessToken(record.userId, w.users[record.userId].version, record.family)],
           spent := w.spent + {p.value.jti})
      else v
    case Logout(presented) =>
      if presented.Some? then w.(tokens := RevokedOne(w.tokens, presented.value, w.now)) else w
    case LogoutAll(userId) => w.(tokens := Withdrawn(w.tokens, OfUser(userId), w.now))
    case ChangePassword(userId, opens, hash) =>
      if MayChangePassword(w.users, userId, opens) then
        w.(users := w.users[userId := PasswordChanged(w.users[userId], hash)],
           tokens := Withdrawn(w.tokens, OfUser(userId), w.now))
      else w
    case Decide(actor, userId, action) =>
      w.(users := UsersAfter(w.users, userId, action),
         tokens := TokensAfter(w.users, w.tokens, userId, action, w.now),
         decisions := LogAfter(w.users, w.decisions, actor, userId, action))
    case CleanupExpired => w.(tokens := WithoutExpired(w.tokens, w.now))
    case CleanupRevoked(days) => w.(tokens := WithoutOldRevoked(w.tokens, w.now, days))
    case StoreExpiry => w.(tokens := WithoutExpired(w.tokens, w.now - TTL_DAYS * DAY))
    case Tick(seconds) => w.(now := w.now + seconds)
  }

  ghost function Stepper(): (World, Event) -> World {
    (w: World, e: Event) => Step(w, e)
  }

  /** The state after the first `n` events of a run. */
  ghost function Run(step: (World, Event) -> World, w: World, events: seq<Event>, n: nat): World
    requires n <= |events|
  {
    if n == 0 then w else step(Run(step, w, events, n - 1), events[n - 1])
  }

  ghost function Exec(w: World, events: seq<Event>, n: nat): World
    requires n <= |events|
  {
    Run(Stepper(), w, events, n)
  }

  /** Every event of the run is enabled when its turn comes. */
  ghost predicate Possible(w: World, events: seq<Event>) {
    forall n | 0 <= n < |events| :: Enabled(Exec(w, events, n), events[n])
  }

  // ---------------------------------------------------------------- invariant

  ghost predicate TokensOk(w: World) {
    && (forall j | j in w.tokens :: j in w.ids && w.tokens[j].family in w.ids && w.tokens[j].userId in w.users)
    && (forall j, k | j in w.tokens && k in w.tokens && w.tokens[j].family == w.tokens[k].family ::
          w.tokens[j].userId == w.tokens[k].userId)
    && (forall j, k | j in w.tokens && k in w.tokens && w.tokens[j].Live() && w.tokens[k].Live()
                      && w.tokens[j].family == w.tokens[k].family :: j == k)
  }

  function PayloadOf(j: nat, t: Token): Payload {
    Payload(j, t.userId, t.family, t.expiresAt)
  }

  /** Every record agrees with the token signed for it, and all tokens of a family are one user's. */
  ghost predicate MintedOk(w: World) {
    && (forall j | j in w.tokens :: j in w.minted && w.minted[j] == PayloadOf(j, w.tokens[j]))
    && (forall j | j in w.minted :: j in w.ids && w.minted[j].family in w.ids)
    && (forall j, k | j in w.minted && k in w.minted && w.minted[j].family == w.minted[k].family ::
          w.minted[j].sub == w.minted[k].sub)
  }

  /** Spent tokens are never live. */
  ghost predicate SpentAreDead(w: World) {
    forall j | j in w.spent && j in w.tokens :: !w.tokens[j].Live()
  }

  ghost predicate HistoryOk(w: World) {
    && w.spent <= w.ids
    && SpentAreDead(w)
    && (forall i | 0 <= i < |w.granted| :: GrantOk(w, w.granted[i]))
  }

  predicate GrantOk(w: World, a: AccessToken) {
    a.userId in w.users && a.version <= w.users[a.userId].version && a.family in w.ids
  }

  /** A user's decisions, oldest first. */
  function About(userId: nat): Decision -> bool {
    (d: Decision) => d.userId == userId
  }

  function DecisionsOn(w: World, userId: nat): seq<Decision> {
    Filter(w.decisions, About(userId))
  }

  function LastStatus(ds: seq<Decision>): Status {
    if |ds| == 0 then Pending else ds[|ds| - 1].next
  }

  /** Each decision starts where the one before it ended, the first at pending, and each is one of the four
      actions on a status it applies to. */
  ghost predicate Chained(ds: seq<Decision>) {
    forall i | 0 <= i < |ds| ::
      && ds[i].previous == LastStatus(ds[..i])
      && (ds[i].action, ds[i].previous, ds[i].next) in PERMITTED
  }

  ghost predicate UserOk(w: World, id: nat)
    requires id in w.users
  {
    var u := w.users[id];
    var ds := DecisionsOn(w, id);
    match u.provider
    case Entra =>
      && u.version == 1 + |ds|
      && Chained(ds)
      && u.status == Some(LastStatus(ds))
      && u.role == (if u.status == Some(Approved) then Some(Ops) else None)
    case Local =>
      u.role == Some(Admin) && u.status.None? && u.version >= 1
  }

  ghost predicate UsersOk(w: World) {
    && (forall id | id in w.users :: id in w.ids && UserOk(w, id))
    && (forall d | d in w.decisions :: d.userId in w.users)
    && (forall a, b | a in w.users && b in w.users && w.users[a].role == Some(Admin) && w.users[b].role == Some(Admin) ::
          a == b)
  }

  ghost predicate Bounded(w: World) {
    CountersBounded(w.counters, w.now)
  }

  ghost predicate Inv(w: World) {
    TokensOk(w) && MintedOk(w) && HistoryOk(w) && UsersOk(w) && Bounded(w)
  }

  // ---------------------------------------------------------------- steps keep the invariant

  /** The users of a step: none disappears, versions never fall, directory and provider stay. */
  ghost predicate UsersGrow(u: Users, v: Users) {
    forall id | id in u :: id in v && u[id].version <= v[id].version && u[id].provider == v[id].provider
  }

  predicate TouchesUsers(e: Event) {
    e.Bootstrap? || e.SignIn? || e.ChangePassword? || e.Decide?
  }

  lemma OthersKeepUsers(w: World, e: Event)
    requires !TouchesUsers(e)
    ensures Step(w, e).users == w.users
  {
  }

  lemma StepGrowsUsers(w: World, e: Event)
    requires w.users.Keys <= w.ids && Enabled(w, e)
    ensures UsersGrow(w.users, Step(w, e).users)
  {
    if !TouchesUsers(e) {
      OthersKeepUsers(w, e);
    } else if e.Bootstrap? {
      assert e.id !in w.users;
    } else if e.SignIn? {
      assert e.id !in w.users;
    }
  }

  lemma StepKeepsIds(w: World, e: Event)
    ensures w.ids <= Step(w, e).ids
  {
  }

  /** `v` adds live record `j`, minted now, to a fresh family or in place of the family's one live record. */
  ghost predicate Joins(w: World, v: World, j: nat) {
    && j in v.tokens && j !in w.ids && j in v.ids && v.tokens[j].family in v.ids
    && v.tokens[j].Live() && v.tokens[j].userId in w.users
    && v.minted == w.minted[j := PayloadOf(j, v.tokens[j])]
    && (v.tokens[j].family !in w.ids || InFamilyOf(w, v.tokens[j]))
    && Weakens(w.tokens, v.tokens - {j})
    && (forall k | k in v.tokens && k != j && v.tokens[k].family == v.tokens[j].family ::
          !v.tokens[k].Live() && v.tokens[k].userId == v.tokens[j].userId)
  }

  ghost predicate InFamilyOf(w: World, t: Token) {
    exists k :: k in w.tokens && w.tokens[k].family == t.family && w.tokens[k].userId == t.userId
  }

  lemma IssueJoins(w: World, userId: nat, mint: Mint, v: World)
    requires TokensOk(w) && FreshMint(w, mint) && userId in w.users
    requires v.tokens == Issued(w.tokens, userId, mint) && v.ids == w.ids + {mint.jti, mint.family}
    requires v.minted == w.minted[mint.jti := Payload(mint.jti, userId, mint.family, mint.expiresAt)]
    ensures Joins(w, v, mint.jti)
  {
  }

  lemma RotateJoins(w: World, j: nat, jti: nat, expiresAt: int, v: World)
    requires TokensOk(w) && j in w.tokens && w.tokens[j].Live() && jti !in w.ids
    requires v.tokens == Rotated(w.tokens, j, jti, expiresAt, w.now) && v.ids == w.ids + {jti}
    requires v.minted == w.minted[jti := Payload(jti, w.tokens[j].userId, w.tokens[j].family, expiresAt)]
    ensures Joins(w, v, jti)
  {
    forall k | k in v.tokens && k != jti && v.tokens[k].family == v.tokens[jti].family
      ensures !v.tokens[k].Live() && v.tokens[k].userId == v.tokens[jti].userId
    {
      assert k in w.tokens;
    }
  }

  lemma RefusalWeakens(w: World, e: Event)
    requires e.Refresh? && RefreshCodeOf(w, e) != Granted
    ensures Weakens(w.tokens, Step(w, e).tokens) && Step(w, e).minted == w.minted
  {
    if Verifies(e.payload, w.now) {
      var p := e.payload.value;
      var user, family := p.sub, p.family;
      if p.jti in w.tokens {
        user, family := w.tokens[p.jti].userId, w.tokens[p.jti].family;
      }
      WithdrawalsWeaken(w.tokens, OfFamily(user, family), p.jti, w.now, 0);
      WithdrawalsWeaken(w.tokens, OfUser(user), p.jti, w.now, 0);
      assert Step(w, e).tokens in
        [w.tokens, Withdrawn(w.tokens, OfFamily(user, family), w.now), Withdrawn(w.tokens, OfUser(user), w.now)];
    }
  }

  lemma RefreshTokens(w: World, e: Event)
    requires TokensOk(w) && Enabled(w, e) && e.Refresh?
    ensures var v := Step(w, e);
      if RefreshCodeOf(w, e) == Granted then Joins(w, v, e.jti)
      else Weakens(w.tokens, v.tokens) && v.minted == w.minted
  {
    var v := Step(w, e);
    if RefreshCodeOf(w, e) == Granted {
      RotateJoins(w, e.payload.value.jti, e.jti, e.expiresAt, v);
    } else {
      RefusalWeakens(w, e);
    }
  }

  lemma IssueTokens(w: World, e: Event)
    requires TokensOk(w) && Enabled(w, e) && (e.Exchange? || e.Login?)
    ensures var v := Step(w, e);
      if GrantOf(w, e).Some? then Joins(w, v, e.mint.jti) else v.tokens == w.tokens && v.minted == w.minted
  {
    match e
    case Exchange(userId, mint) =>
      if userId in w.users {
        IssueJoins(w, userId, mint, Step(w, e));
      }
    case Login(_, _, found, _, mint) =>
      if LoginCodeOf(w, e) == SignedIn {
        IssueJoins(w, found.value, mint, Step(w, e));
      }
    case _ =>
  }

  predicate CleansUp(e: Event) {
    e.CleanupExpired? || e.CleanupRevoked? || e.StoreExpiry?
  }

  predicate Withdraws(e: Event) {
    e.Logout? || e.LogoutAll? || e.ChangePassword? || e.Decide?
  }

  lemma CleanupsWeaken(w: World, e: Event)
    requires CleansUp(e)
    ensures Weakens(w.tokens, Step(w, e).tokens) && Step(w, e).minted == w.minted
  {
    var days := if e.CleanupRevoked? then e.days else 0;
    var now := if e.StoreExpiry? then w.now - TTL_DAYS * DAY else w.now;
    WithdrawalsWeaken(w.tokens, OfUser(0), 0, now, days);
    assert Step(w, e).tokens ==
      if e.CleanupRevoked? then WithoutOldRevoked(w.tokens, now, days) else WithoutExpired(w.tokens, now);
  }

  lemma RevocationsWeaken(w: World, e: Event)
    requires Withdraws(e)
    ensures Weakens(w.tokens, Step(w, e).tokens) && Step(w, e).minted == w.minted
  {
    var user := if e.Logout? then 0 else e.userId;
    var jti := if e.Logout? && e.presented.Some? then e.presented.value else 0;
    WithdrawalsWeaken(w.tokens, OfUser(user), jti, w.now, 0);
    assert Step(w, e).tokens in
      [w.tokens, RevokedOne(w.tokens, jti, w.now), Withdrawn(w.tokens, OfUser(user), w.now)];
  }

  lemma OthersKeepTokens(w: World, e: Event)
    requires !CleansUp(e) && !Withdraws(e) && !e.Exchange? && !e.Login? && !e.Refresh?
    ensures Step(w, e).tokens == w.tokens && Step(w, e).minted == w.minted
  {
  }

  /** Requests that issue nothing, and the clean-ups, revoke and delete only. */
  lemma OthersWeaken(w: World, e: Event)
    requires !e.Exchange? && !e.Login? && !e.Refresh?
    ensures Weakens(w.tokens, Step(w, e).tokens) && Step(w, e).minted == w.minted
  {
    if CleansUp(e) {
      CleanupsWeaken(w, e);
    } else if Withdraws(e) {
      RevocationsWeaken(w, e);
    } else {
      OthersKeepTokens(w, e);
    }
  }

  /** A step revokes and deletes records, or adds one to a family without another live one. */
  lemma StepTokens(w: World, e: Event)
    requires TokensOk(w) && Enabled(w, e)
    ensures var v := Step(w, e); (Weakens(w.tokens, v.tokens) && v.minted == w.minted) || exists j :: Joins(w, v, j)
  {
    if e.Exchange? || e.Login? {
      IssueTokens(w, e);
    } else if e.Refresh? {
      RefreshTokens(w, e);
    } else {
      OthersWeaken(w, e);
    }
  }

  lemma StepKeepsTokens(w: World, e: Event)
    requires Inv(w) && Enabled(w, e)
    ensures TokensOk(Step(w, e))
  {
    StepTokens(w, e);
    StepGrowsUsers(w, e);
    StepKeepsIds(w, e);
    var v := Step(w, e);
    if Weakens(w.tokens, v.tokens) {
      WeakerTokensOk(w, v);
    } else {
      var j :| Joins(w, v, j);
      JoinedTokensOk(w, v, j);
    }
  }

  lemma WeakerTokensOk(w: World, v: World)
    requires TokensOk(w) && Weakens(w.tokens, v.tokens) && UsersGrow(w.users, v.users) && w.ids <= v.ids
    ensures TokensOk(v)
  {
  }

  lemma JoinedTokensOk(w: World, v: World, j: nat)
    requires TokensOk(w) && Joins(w, v, j) && UsersGrow(w.users, v.users) && w.ids <= v.ids
    ensures TokensOk(v)
  {
    assert forall k | k in v.tokens && k != j :: k in v.tokens - {j};
  }

  lemma StepKeepsMinted(w: World, e: Event)
    requires TokensOk(w) && MintedOk(w) && Enabled(w, e)
    ensures MintedOk(Step(w, e))
  {
    StepTokens(w, e);
    StepKeepsIds(w, e);
    var v := Step(w, e);
    if Weakens(w.tokens, v.tokens) && v.minted == w.minted {
      WeakerMintedOk(w, v);
    } else {
      var j :| Joins(w, v, j);
      JoinedMintedOk(w, v, j);
    }
  }

  lemma WeakerMintedOk(w: World, v: World)
    requires MintedOk(w) && Weakens(w.tokens, v.tokens) && v.minted == w.minted && w.ids <= v.ids
    ensures MintedOk(v)
  {
  }

  lemma JoinedMintedOk(w: World, v: World, j: nat)
    requires MintedOk(w) && Joins(w, v, j) && w.ids <= v.ids
    ensures MintedOk(v)
  {
    forall k | k in v.tokens
      ensures k in v.minted && v.minted[k] == PayloadOf(k, v.tokens[k])
    {
      assert k != j ==> k in v.tokens - {j};
    }
    forall k | k in w.minted && w.minted[k].family == v.tokens[j].family
      ensures w.minted[k].sub == v.tokens[j].userId
    {
      var i :| i in w.tokens && w.tokens[i].family == v.tokens[j].family && w.tokens[i].userId == v.tokens[j].userId;
      assert w.minted[i] == PayloadOf(i, w.tokens[i]);
    }
  }

  lemma SpentStayDead(w: World, v: World)
    requires w.spent <= w.ids && SpentAreDead(w)
    requires Weakens(w.tokens, v.tokens) || exists j :: Joins(w, v, j)
    ensures forall j | j in w.spent && j in v.tokens :: !v.tokens[j].Live()
  {
    forall k | k in w.spent && k in v.tokens
      ensures !v.tokens[k].Live()
    {
      if !Weakens(w.tokens, v.tokens) {
        var j :| Joins(w, v, j);
        assert k in v.tokens - {j};
      }
    }
  }

  /** The access token a step grants, if any. */
  function GrantOf(w: World, e: Event): Option<AccessToken> {
    match e
    case Exchange(userId, mint) =>
      if userId in w.users then Some(AccessToken(userId, w.users[userId].version, mint.family)) else None
    case Login(_, _, found, _, mint) =>
      if LoginCodeOf(w, e) == SignedIn then Some(AccessToken(found.value, w.users[found.value].version, mint.family))
      else None
    case Refresh(p, _, _, _) =>
      if RefreshCodeOf(w, e) == Granted then
        var t := w.tokens[p.value.jti];
        Some(AccessToken(t.userId, w.users[t.userId].version, t.family))
      else None
    case _ => None
  }

  /** What a step adds to the two records of the past. */
  lemma StepHistory(w: World, e: Event)
    requires TokensOk(w) && Enabled(w, e)
    ensures var v := Step(w, e);
      && (if e.Refresh? && RefreshCodeOf(w, e) == Granted then
            && v.spent == w.spent + {e.payload.value.jti}
            && e.payload.value.jti in w.ids
            && e.payload.value.jti in v.tokens && !v.tokens[e.payload.value.jti].Live()
          else v.spent == w.spent)
      && (match GrantOf(w, e)
          case None => v.granted == w.granted
          case Some(a) =>
            && v.granted == w.granted + [a] && v.users == w.users
            && a.userId in w.users && a.version == w.users[a.userId].version && a.family in v.ids)
  {
  }

  lemma GrantsStayOk(w: World, v: World, grant: Option<AccessToken>)
    requires forall i | 0 <= i < |w.granted| :: GrantOk(w, w.granted[i])
    requires UsersGrow(w.users, v.users) && w.ids <= v.ids
    requires v.granted == w.granted + (match grant case Some(a) => [a] case None => [])
    requires grant.Some? ==> GrantOk(v, grant.value)
    ensures forall i | 0 <= i < |v.granted| :: GrantOk(v, v.granted[i])
  {
    forall i | 0 <= i < |v.granted|
      ensures GrantOk(v, v.granted[i])
    {
      if i < |w.granted| {
        assert GrantOk(w, w.granted[i]);
      }
    }
  }

  lemma StepKeepsGrants(w: World, e: Event)
    requires Inv(w) && Enabled(w, e)
    ensures var v := Step(w, e); forall i | 0 <= i < |v.granted| :: GrantOk(v, v.granted[i])
  {
    StepHistory(w, e);
    StepGrowsUsers(w, e);
    StepKeepsIds(w, e);
    GrantsStayOk(w, Step(w, e), GrantOf(w, e));
  }

  lemma StepKeepsSpent(w: World, e: Event)
    requires TokensOk(w) && w.spent <= w.ids && SpentAreDead(w) && Enabled(w, e)
    ensures var v := Step(w, e); v.spent <= v.ids && SpentAreDead(v)
  {
    StepHistory(w, e);
    StepKeepsIds(w, e);
    StepTokens(w, e);
    SpentStayDead(w, Step(w, e));
  }

  lemma StepKeepsHistory(w: World, e: Event)
    requires Inv(w) && Enabled(w, e)
    ensures HistoryOk(Step(w, e))
  {
    StepKeepsGrants(w, e);
    StepKeepsSpent(w, e);
  }

  ghost predicate CountersBounded(counters: Counters, now: int) {
    forall k | k in counters :: 1 <= counters[k].count <= LimitOf(k) && counters[k].expiresAt <= now + WINDOW
  }

  lemma LoginKeepsBounded(code: LoginCode, counters: Counters, email: string, ip: string, now: int)
    requires CountersBounded(counters, now)
    requires code.Throttled? <==> Blocked(counters, email, ip, now)
    ensures CountersBounded(CountersAfterLogin(code, counters, email, ip, now), now)
  {
    if code.BadCredentials? {
      assert Reading(counters, Account(email), now) < ACCOUNT_LIMIT;
      assert Reading(counters, Address(ip), now) < ADDRESS_LIMIT;
    }
  }

  /** Only logins touch the counters, and the clock never runs back. */
  lemma StepCounters(w: World, e: Event)
    ensures Step(w, e).now >= w.now
    ensures Step(w, e).counters ==
      if e.Login? then CountersAfterLogin(LoginCodeOf(w, e), w.counters, e.email, e.ip, w.now) else w.counters
  {
  }

  lemma StepKeepsBounded(w: World, e: Event)
    requires Bounded(w)
    ensures Bounded(Step(w, e))
  {
    StepCounters(w, e);
    if e.Login? {
      LoginKeepsBounded(LoginCodeOf(w, e), w.counters, e.email, e.ip, w.now);
    }
    assert CountersBounded(Step(w, e).counters, Step(w, e).now);
  }

  lemma AboutOthers(ds: seq<Decision>, d: Decision, id: nat)
    ensures Filter(ds + [d], About(id)) == Filter(ds, About(id)) + if d.userId == id then [d] else []
  {
    assert (ds + [d])[..|ds|] == ds && (ds + [d])[..|ds| + 1] == ds + [d];
    FilterSnoc(ds + [d], |ds|, About(id));
  }

  lemma NobodyNew(w: World, id: nat)
    requires UsersOk(w) && id !in w.users
    ensures DecisionsOn(w, id) == []
  {
    FilterNone(w.decisions, About(id));
  }

  lemma ChainedSnoc(ds: seq<Decision>, d: Decision)
    requires Chained(ds) && d.previous == LastStatus(ds) && d.previous in From(d.action) && d.next == To(d.action)
    ensures Chained(ds + [d])
  {
    var es := ds + [d];
    ActionsMeaning(d.action, d.previous, d.next);
    forall i | 0 <= i < |es|
      ensures es[i].previous == LastStatus(es[..i]) && (es[i].action, es[i].previous, es[i].next) in PERMITTED
    {
      assert es[..i] == ds[..i];
    }
  }

  /** A decision moves one workforce user and is logged for that user only. */
  lemma DecisionStep(w: World, e: Event)
    requires e.Decide?
    ensures var v := Step(w, e);
      && v.ids == w.ids
      && if Judge(w.users, e.userId, e.action) == Applied then
           && e.userId in w.users && w.users[e.userId].provider == Entra
           && w.users[e.userId].status.Some? && w.users[e.userId].status.value in From(e.action)
           && v.users == w.users[e.userId := Moved(w.users[e.userId], To(e.action))]
           && v.decisions == w.decisions
                + [Decision(e.userId, e.actor, w.users[e.userId].status.value, To(e.action), e.action)]
         else v.users == w.users && v.decisions == w.decisions
  {
  }

  lemma MovedUserOk(w: World, v: World, d: Decision, id: nat)
    requires id in w.users && UserOk(w, id) && d.userId in w.users
    requires w.users[d.userId].provider == Entra && w.users[d.userId].status == Some(d.previous)
    requires d.previous in From(d.action) && d.next == To(d.action)
    requires v.users == w.users[d.userId := Moved(w.users[d.userId], d.next)] && v.decisions == w.decisions + [d]
    ensures UserOk(v, id)
  {
    AboutOthers(w.decisions, d, id);
    if id == d.userId {
      ChainedSnoc(DecisionsOn(w, id), d);
    }
  }

  lemma MovedUsersOk(w: World, v: World, d: Decision)
    requires UsersOk(w) && v.ids == w.ids && d.userId in w.users
    requires w.users[d.userId].provider == Entra && w.users[d.userId].status == Some(d.previous)
    requires d.previous in From(d.action) && d.next == To(d.action)
    requires v.users == w.users[d.userId := Moved(w.users[d.userId], d.next)] && v.decisions == w.decisions + [d]
    ensures UsersOk(v)
  {
    forall id | id in v.users
      ensures id in v.ids && UserOk(v, id)
    {
      MovedUserOk(w, v, d, id);
    }
  }

  lemma DecideKeepsUsers(w: World, e: Event)
    requires UsersOk(w) && e.Decide?
    ensures UsersOk(Step(w, e))
  {
    DecisionStep(w, e);
    var v := Step(w, e);
    if Judge(w.users, e.userId, e.action) == Applied {
      MovedUsersOk(w, v, Decision(e.userId, e.actor, w.users[e.userId].status.value, To(e.action), e.action));
    } else {
      assert forall id | id in v.users :: UserOk(w, id) && DecisionsOn(v, id) == DecisionsOn(w, id);
    }
  }

  lemma OtherStepsDecideNothing(w: World, e: Event)
    requires !e.Decide?
    ensures Step(w, e).decisions == w.decisions
  {
  }

  /** What a step other than a decision may make of user `id`: a new address, an administrator's new password,
      or a new record. */
  ghost predicate MayBecome(w: World, e: Event, v: World, id: nat)
    requires id in v.users
  {
    if id in w.users then
      || v.users[id] == w.users[id].(email := v.users[id].email)
      || (w.users[id].role == Some(Admin) && v.users[id].passwordHash.Some?
          && v.users[id] == PasswordChanged(w.users[id], v.users[id].passwordHash.value))
    else
      && id in v.ids
      && ((e.SignIn? && v.users[id] == NewWorkforce(v.users[id].email, e.directoryId))
          || (Admins(w.users) == {} && v.users == w.users[id := v.users[id]] && v.users[id].passwordHash.Some?
              && v.users[id] == NewAdmin(v.users[id].email, v.users[id].passwordHash.value)))
  }

  lemma BootstrapStep(w: World, e: Event, id: nat)
    requires w.users.Keys <= w.ids && Enabled(w, e) && e.Bootstrap? && id in Step(w, e).users
    ensures MayBecome(w, e, Step(w, e), id)
  {
  }

  lemma SignInStep(w: World, e: Event, id: nat)
    requires w.users.Keys <= w.ids && Enabled(w, e) && e.SignIn? && id in Step(w, e).users
    ensures MayBecome(w, e, Step(w, e), id)
  {
  }

  lemma PasswordStep(w: World, e: Event, id: nat)
    requires e.ChangePassword? && id in Step(w, e).users
    ensures MayBecome(w, e, Step(w, e), id)
  {
  }

  lemma OtherStep(w: World, e: Event, id: nat)
    requires w.users.Keys <= w.ids && Enabled(w, e) && !e.Decide? && id in Step(w, e).users
    ensures MayBecome(w, e, Step(w, e), id)
  {
    if e.Bootstrap? {
      BootstrapStep(w, e, id);
    } else if e.SignIn? {
      SignInStep(w, e, id);
    } else if e.ChangePassword? {
      PasswordStep(w, e, id);
    } else {
      OthersKeepUsers(w, e);
    }
  }

  lemma OtherUsers(w: World, v: World, id: nat)
    requires UsersOk(w) && id in v.users && v.decisions == w.decisions
    requires
      if id in w.users then
        || v.users[id] == w.users[id].(email := v.users[id].email)
        || (w.users[id].role == Some(Admin) && v.users[id].passwordHash.Some?
            && v.users[id] == PasswordChanged(w.users[id], v.users[id].passwordHash.value))
      else
        v.users[id].version == 1
        && (if v.users[id].provider == Entra then v.users[id].status == Some(Pending) && v.users[id].role == None
            else v.users[id].status == None && v.users[id].role == Some(Admin))
    ensures UserOk(v, id)
  {
    if id in w.users {
      assert UserOk(w, id);
    } else {
      NobodyNew(w, id);
    }
  }

  lemma OtherStepKeepsUser(w: World, e: Event, id: nat)
    requires UsersOk(w) && Enabled(w, e) && !e.Decide? && id in Step(w, e).users
    ensures id in Step(w, e).ids && UserOk(Step(w, e), id)
  {
    OtherStepsDecideNothing(w, e);
    StepKeepsIds(w, e);
    OtherStep(w, e, id);
    OtherUsers(w, Step(w, e), id);
  }

  lemma OtherStepKeepsAdmin(w: World, e: Event)
    requires UsersOk(w) && Enabled(w, e) && !e.Decide?
    ensures var v := Step(w, e);
      forall a, b | a in v.users && b in v.users && v.users[a].role == Some(Admin) && v.users[b].role == Some(Admin) ::
        a == b
  {
    var v := Step(w, e);
    forall id | id in v.users
      ensures if id in w.users then v.users[id].role == w.users[id].role
              else v.users[id].role == Some(Admin) ==> Admins(w.users) == {} && v.users == w.users[id := v.users[id]]
    {
      OtherStep(w, e, id);
    }
    OneAdmin(w, v);
  }

  lemma OtherStepKeepsUsers(w: World, e: Event)
    requires UsersOk(w) && Enabled(w, e) && !e.Decide?
    ensures UsersOk(Step(w, e))
  {
    OtherStepsDecideNothing(w, e);
    StepGrowsUsers(w, e);
    OtherStepKeepsAdmin(w, e);
    forall id | id in Step(w, e).users
      ensures id in Step(w, e).ids && UserOk(Step(w, e), id)
    {
      OtherStepKeepsUser(w, e, id);
    }
  }

  lemma StepKeepsUsers(w: World, e: Event)
    requires UsersOk(w) && Enabled(w, e)
    ensures UsersOk(Step(w, e))
  {
    if e.Decide? {
      DecideKeepsUsers(w, e);
    } else {
      OtherStepKeepsUsers(w, e);
    }
  }

  /** Only the bootstrap creates an administrator, and only when there is none. */
  lemma OneAdmin(w: World, v: World)
    requires forall a, b | a in w.users && b in w.users && w.users[a].role == Some(Admin)
                           && w.users[b].role == Some(Admin) :: a == b
    requires forall id | id in v.users ::
      if id in w.users then v.users[id].role == w.users[id].role
      else v.users[id].role == Some(Admin) ==> Admins(w.users) == {} && v.users == w.users[id := v.users[id]]
    ensures forall a, b | a in v.users && b in v.users && v.users[a].role == Some(Admin)
                          && v.users[b].role == Some(Admin) :: a == b
  {
    forall a, b | a in v.users && b in v.users && v.users[a].role == Some(Admin) && v.users[b].role == Some(Admin)
      ensures a == b
    {
      assert a in w.users ==> a in Admins(w.users);
      assert b in w.users ==> b in Admins(w.users);
    }
  }

  lemma StepKeepsInv(w: World, e: Event)
    requires Inv(w) && Enabled(w, e)
    ensures Inv(Step(w, e))
  {
    StepKeepsTokens(w, e);
    StepKeepsMinted(w, e);
    StepKeepsHistory(w, e);
    StepKeepsUsers(w, e);
    StepKeepsBounded(w, e);
  }

  // ---------------------------------------------------------------- runs

  ghost function Enabler(): (World, Event) -> bool {
    (w: World, e: Event) => Enabled(w, e)
  }

  ghost predicate EnabledAt(
    step: (World, Event) -> World, enabled: (World, Event) -> bool, w: World, events: seq<Event>, k: nat)
    requires k < |events|
  {
    enabled(Run(step, w, events, k), events[k])
  }

  /** Induction over a run: what the start satisfies and every enabled step hands on holds all along. */
  lemma {:induction false} RunInvariant(
    step: (World, Event) -> World, enabled: (World, Event) -> bool, holds: World -> bool,
    w: World, events: seq<Event>, n: nat)
    requires n <= |events| && holds(w)
    requires forall k | 0 <= k < |events| :: EnabledAt(step, enabled, w, events, k)
    requires forall v: World, e: Event | enabled(v, e) && holds(v) :: holds(step(v, e))
    ensures holds(Run(step, w, events, n))
  {
    if n > 0 {
      RunInvariant(step, enabled, holds, w, events, n - 1);
      assert EnabledAt(step, enabled, w, events, n - 1);
    }
  }

  /** What a run turns bad was turned bad by one of its steps. */
  lemma {:induction false} RunCause(
    step: (World, Event) -> World, enabled: (World, Event) -> bool, holds: World -> bool, bad: World -> bool,
    cause: (World, Event) -> bool, w: World, events: seq<Event>, n: nat) returns (m: nat)
    requires n <= |events| && holds(w) && !bad(w)
    requires forall k | 0 <= k < |events| :: EnabledAt(step, enabled, w, events, k)
    requires forall v: World, e: Event | enabled(v, e) && holds(v) :: holds(step(v, e))
    requires forall v: World, e: Event | enabled(v, e) && holds(v) :: bad(step(v, e)) ==> bad(v) || cause(v, e)
    requires bad(Run(step, w, events, n))
    ensures m < n && cause(Run(step, w, events, m), events[m])
  {
    RunInvariant(step, enabled, holds, w, events, n - 1);
    assert EnabledAt(step, enabled, w, events, n - 1);
    if bad(Run(step, w, events, n - 1)) {
      m := RunCause(step, enabled, holds, bad, cause, w, events, n - 1);
    } else {
      m := n - 1;
    }
  }

  lemma PossibleIsEnabled(w: World, events: seq<Event>)
    requires Possible(w, events)
    ensures forall k | 0 <= k < |events| :: EnabledAt(Stepper(), Enabler(), w, events, k)
  {
    forall k | 0 <= k < |events|
      ensures EnabledAt(Stepper(), Enabler(), w, events, k)
    {
      assert Enabled(Exec(w, events, k), events[k]);
    }
  }

  /** The invariant holds along a run from any state that satisfies it. */
  lemma InvAlong(w: World, events: seq<Event>, n: nat)
    requires Inv(w) && Possible(w, events) && n <= |events|
    ensures Inv(Exec(w, events, n))
  {
    var holds := (v: World) => Inv(v);
    forall v: World, e: Event | Enabler()(v, e) && holds(v)
      ensures holds(Stepper()(v, e))
    {
      StepKeepsInv(v, e);
    }
    PossibleIsEnabled(w, events);
    RunInvariant(Stepper(), Enabler(), holds, w, events, n);
    assert holds(Exec(w, events, n));
  }

  lemma StartOk()
    ensures Inv(START)
  {
  }

  /** In every reachable state a token family has at most one unrevoked token. */
  lemma OneLiveTokenPerFamily(events: seq<Event>, n: nat, j: nat, k: nat)
    requires Possible(START, events) && n <= |events|
    requires var t := Exec(START, events, n).tokens;
      j in t && k in t && t[j].family == t[k].family && t[j].Live() && t[k].Live()
    ensures j == k
  {
    InvAlong(START, events, n);
  }

  /** In every reachable state there is at most one administrator. */
  lemma AtMostOneAdmin(events: seq<Event>, n: nat, a: nat, b: nat)
    requires Possible(START, events) && n <= |events|
    requires a in Admins(Exec(START, events, n).users) && b in Admins(Exec(START, events, n).users)
    ensures a == b
  {
    InvAlong(START, events, n);
  }

  /** For every workforce user in every reachable state: the version counts the logged decisions, the log is a
      chain of permitted transitions from pending to the current status, and only the approved have a role. */
  lemma DecisionsExplainWorkforce(events: seq<Event>, n: nat, id: nat)
    requires Possible(START, events) && n <= |events|
    requires var w := Exec(START, events, n); id in w.users && w.users[id].provider == Entra
    ensures var w := Exec(START, events, n);
      var u, ds := w.users[id], DecisionsOn(w, id);
      && u.version == 1 + |ds|
      && Chained(ds) && u.status == Some(LastStatus(ds))
      && (u.role == Some(Ops) <==> u.status == Some(Approved)) && u.role != Some(Admin)
  {
    InvAlong(START, events, n);
    assert UserOk(Exec(START, events, n), id);
  }

  // ---------------------------------------------------------------- refresh tokens succeed once

  /** A spent refresh token is refused: as invalid past its signed expiry, as expired or revoked while its
      record exists, as reuse once the record is gone. */
  lemma SpentIsRefused(w: World, e: Event)
    requires SpentAreDead(w) && e.Refresh? && e.payload.Some? && e.payload.value.jti in w.spent
    ensures RefreshCodeOf(w, e) ==
      if e.payload.value.exp <= w.now then InvalidType
      else if e.payload.value.jti in w.tokens then ExpiredOrRevoked
      else ReuseDetected
  {
  }

  lemma SpentAreDeadAlong(w: World, events: seq<Event>, n: nat)
    requires Inv(w) && Possible(w, events) && n <= |events|
    ensures SpentAreDead(Exec(w, events, n))
  {
    InvAlong(w, events, n);
  }

  lemma SpentGrows(w: World, e: Event)
    ensures w.spent <= Step(w, e).spent
    ensures e.Refresh? && RefreshCodeOf(w, e) == Granted ==> e.payload.value.jti in Step(w, e).spent
  {
  }

  /** Event `i` of the run exchanges refresh token `j` for new tokens. */
  ghost predicate Succeeds(w: World, events: seq<Event>, i: nat, j: nat) {
    && i < |events| && events[i].Refresh? && events[i].payload.Some? && events[i].payload.value.jti == j
    && RefreshCodeOf(Exec(w, events, i), events[i]) == Granted
  }

  lemma SpentAfter(w: World, events: seq<Event>, i: nat, j: nat)
    requires Succeeds(w, events, i, j)
    ensures j in Exec(w, events, i + 1).spent
  {
    SpentGrows(Exec(w, events, i), events[i]);
  }

  lemma {:induction false} SpentStaysSpent(w: World, events: seq<Event>, i: nat, n: nat, j: nat)
    requires i <= n <= |events| && j in Exec(w, events, i).spent
    ensures j in Exec(w, events, n).spent
  {
    if i < n {
      SpentStaysSpent(w, events, i, n - 1, j);
      SpentGrows(Exec(w, events, n - 1), events[n - 1]);
    }
  }

  lemma SpentLater(w: World, events: seq<Event>, i: nat, k: nat, j: nat)
    requires i < k <= |events| && Succeeds(w, events, i, j)
    ensures j in Exec(w, events, k).spent
  {
    SpentAfter(w, events, i, j);
    SpentStaysSpent(w, events, i + 1, k, j);
  }

  lemma SpentFails(w: World, events: seq<Event>, k: nat, j: nat)
    requires Inv(w) && Possible(w, events) && k < |events| && j in Exec(w, events, k).spent
    ensures !Succeeds(w, events, k, j)
  {
    SpentAreDeadAlong(w, events, k);
    if events[k].Refresh? && events[k].payload.Some? && events[k].payload.value.jti == j {
      SpentIsRefused(Exec(w, events, k), events[k]);
    }
  }

  /** A refresh token that has succeeded once in a run never succeeds again, cleanup or not. */
  lemma RefreshSucceedsOnce(w: World, events: seq<Event>, i: nat, k: nat, j: nat)
    requires Inv(w) && Possible(w, events) && i < k < |events|
    requires Succeeds(w, events, i, j)
    ensures !Succeeds(w, events, k, j)
  {
    SpentLater(w, events, i, k, j);
    SpentFails(w, events, k, j);
  }

  // ---------------------------------------------------------------- dead families

  /** The family has been used and has no unrevoked token left. */
  ghost predicate Dead(w: World, family: nat) {
    family in w.ids && forall j | j in w.tokens && w.tokens[j].family == family :: !w.tokens[j].Live()
  }

  lemma IssueKeepsDead(w: World, e: Event, family: nat)
    requires Enabled(w, e) && (e.Exchange? || e.Login?) && Dead(w, family)
    ensures Dead(Step(w, e), family)
    ensures GrantOf(w, e).Some? ==> GrantOf(w, e).value.family != family
  {
  }

  lemma RefreshKeepsDead(w: World, e: Event, family: nat)
    requires TokensOk(w) && Enabled(w, e) && e.Refresh? && Dead(w, family)
    ensures Dead(Step(w, e), family)
    ensures GrantOf(w, e).Some? ==> GrantOf(w, e).value.family != family
  {
    var v := Step(w, e);
    StepKeepsIds(w, e);
    if RefreshCodeOf(w, e) == Granted {
      var t := w.tokens[e.payload.value.jti];
      assert t.Live() && t.family != family;
      assert v.tokens == Rotated(w.tokens, e.payload.value.jti, e.jti, e.expiresAt, w.now);
    } else {
      RefreshTokens(w, e);
      WeakerKeepsDead(w, v, family);
    }
  }

  lemma WeakerKeepsDead(w: World, v: World, family: nat)
    requires Weakens(w.tokens, v.tokens) && w.ids <= v.ids && Dead(w, family)
    ensures Dead(v, family)
  {
  }

  lemma StepKeepsDead(w: World, e: Event, family: nat)
    requires TokensOk(w) && Enabled(w, e) && Dead(w, family)
    ensures Dead(Step(w, e), family)
    ensures GrantOf(w, e).Some? ==> GrantOf(w, e).value.family != family
  {
    if e.Exchange? || e.Login? {
      IssueKeepsDead(w, e, family);
    } else if e.Refresh? {
      RefreshKeepsDead(w, e, family);
    } else {
      StepKeepsIds(w, e);
      OthersWeaken(w, e);
      WeakerKeepsDead(w, Step(w, e), family);
    }
  }

  lemma DeadAlong(w: World, events: seq<Event>, n: nat, family: nat)
    requires Inv(w) && Possible(w, events) && n <= |events| && Dead(w, family)
    ensures Dead(Exec(w, events, n), family)
  {
    var holds := (v: World) => Inv(v) && Dead(v, family);
    forall v: World, e: Event | Enabler()(v, e) && holds(v)
      ensures holds(Stepper()(v, e))
    {
      StepKeepsInv(v, e);
      StepKeepsDead(v, e, family);
    }
    PossibleIsEnabled(w, events);
    RunInvariant(Stepper(), Enabler(), holds, w, events, n);
    assert holds(Exec(w, events, n));
  }

  /** A dead family never has an unrevoked token again and never yields another access token. */
  lemma DeadFamilyStaysDead(w: World, events: seq<Event>, n: nat, family: nat)
    requires Inv(w) && Possible(w, events) && n < |events| && Dead(w, family)
    ensures Dead(Exec(w, events, n + 1), family)
    ensures var grant := GrantOf(Exec(w, events, n), events[n]); grant.Some? ==> grant.value.family != family
  {
    DeadAlong(w, events, n, family);
    DeadAlong(w, events, n + 1, family);
    InvAlong(w, events, n);
    StepKeepsDead(Exec(w, events, n), events[n], family);
  }

  /** The requests that end all of a user's sessions. */
  predicate EndsSessionsOf(w: World, e: Event, userId: nat) {
    match e
    case LogoutAll(u) => u == userId
    case ChangePassword(u, opens, _) => u == userId && KnowsPassword(w.users, u, opens)
    case Decide(_, u, a) =>
      u == userId && ((a == Reject && Applies(w.users, u, a, Rejected)) || (a == Revoke && Applies(w.users, u, a, Revoked)))
    case _ => false
  }

  lemma EndingKillsFamilies(w: World, e: Event, j: nat)
    requires TokensOk(w) && j in w.tokens && EndsSessionsOf(w, e, w.tokens[j].userId)
    ensures Dead(Step(w, e), w.tokens[j].family)
  {
    StepKeepsIds(w, e);
    if e.Decide? {
      JudgeMeaning(w.users, e.userId, e.action);
      ActionsMeaning(e.action, To(e.action), To(e.action));
    }
    assert Step(w, e).tokens == Withdrawn(w.tokens, OfUser(w.tokens[j].userId), w.now);
  }

  /** A session that was open at a logout from all devices, a password change, a rejection or a revocation
      yields no further access token in any continuation, even if the user is approved again. */
  lemma EndedSessionsYieldNothing(w: World, e: Event, j: nat, events: seq<Event>, n: nat)
    requires Inv(w) && Enabled(w, e) && j in w.tokens && EndsSessionsOf(w, e, w.tokens[j].userId)
    requires Possible(Step(w, e), events) && n < |events|
    ensures var grant := GrantOf(Exec(Step(w, e), events, n), events[n]);
      grant.Some? ==> grant.value.family != w.tokens[j].family
  {
    EndingKillsFamilies(w, e, j);
    StepKeepsInv(w, e);
    DeadFamilyStaysDead(Step(w, e), events, n, w.tokens[j].family);
  }

  // ---------------------------------------------------------------- reuse detection

  /** The payload is that of a token the service has signed. */
  ghost predicate Genuine(w: World, p: Payload) {
    p.jti in w.minted && w.minted[p.jti] == p
  }

  /** The token's record has been deleted before the token itself has expired. */
  predicate Orphaned(w: World, p: Payload) {
    p.jti !in w.tokens && w.now < p.exp
  }

  lemma ReuseKillsFamily(w: World, p: Payload, v: World)
    requires MintedOk(w) && Genuine(w, p) && w.ids <= v.ids
    requires v.tokens == Withdrawn(w.tokens, OfFamily(p.sub, p.family), w.now)
    ensures Dead(v, p.family)
  {
    forall k | k in v.tokens && v.tokens[k].family == p.family
      ensures !v.tokens[k].Live()
    {
      assert w.minted[k] == PayloadOf(k, w.tokens[k]);
    }
  }

  /** What replaying a spent token does to its family: it ends the family exactly when the token's record has
      been deleted while the token is still valid. In all other cases no record changes at all, so a family
      that was alive lives on. */
  lemma ReplayEndsFamily(w: World, e: Event)
    requires Inv(w) && Enabled(w, e) && e.Refresh? && e.payload.Some?
    requires Genuine(w, e.payload.value) && e.payload.value.jti in w.spent
    ensures Dead(Step(w, e), e.payload.value.family) <==>
      Dead(w, e.payload.value.family) || Orphaned(w, e.payload.value)
    ensures !Orphaned(w, e.payload.value) ==> Step(w, e).tokens == w.tokens
  {
    var p, v := e.payload.value, Step(w, e);
    SpentIsRefused(w, e);
    StepKeepsIds(w, e);
    if Orphaned(w, p) {
      ReuseKillsFamily(w, p, v);
    } else {
      assert v.tokens == w.tokens;
    }
  }

  /** The clean-up of revoked records deletes this record while its token is valid. */
  ghost predicate Orphans(w: World, e: Event, j: nat) {
    && e.CleanupRevoked? && j in w.tokens && w.tokens[j].revokedAt.Some?
    && w.tokens[j].revokedAt.value + e.days * DAY < w.now < w.tokens[j].expiresAt
  }

  lemma OthersDeleteNothing(w: World, e: Event)
    requires !CleansUp(e)
    ensures w.tokens.Keys <= Step(w, e).tokens.Keys
  {
  }

  /** Records go by expiry or by the clean-up of revoked ones. */
  lemma RecordsGo(w: World, e: Event, j: nat)
    requires j in w.tokens && j !in Step(w, e).tokens
    ensures w.tokens[j].expiresAt <= w.now || Orphans(w, e, j)
  {
    if !CleansUp(e) {
      OthersDeleteNothing(w, e);
    } else if e.CleanupRevoked? {
      assert Step(w, e).tokens == WithoutOldRevoked(w.tokens, w.now, e.days);
    }
  }

  /** A step mints nothing, or one token together with its record. */
  lemma StepMints(w: World, e: Event, j: nat)
    requires TokensOk(w) && MintedOk(w) && Enabled(w, e)
    ensures j in w.minted ==> j in Step(w, e).minted && Step(w, e).minted[j] == w.minted[j]
    ensures j in Step(w, e).minted && j !in w.minted ==> j in Step(w, e).tokens
  {
    StepTokens(w, e);
  }

  lemma OrphanStep(w: World, e: Event, j: nat)
    requires Inv(w) && Enabled(w, e) && j in Step(w, e).minted && j !in Step(w, e).tokens
    requires Step(w, e).now < Step(w, e).minted[j].exp
    ensures j in w.minted && w.now < w.minted[j].exp && (j in w.tokens ==> Orphans(w, e, j))
  {
    StepMints(w, e, j);
    ClockStep(w, e);
    if j in w.tokens {
      assert w.minted[j] == PayloadOf(j, w.tokens[j]);
      RecordsGo(w, e, j);
    }
  }

  /** Signed, still valid, and without a record. */
  ghost predicate IsOrphan(w: World, j: nat) {
    j in w.minted && j !in w.tokens && w.now < w.minted[j].exp
  }

  /** Reuse detection can fire for a token only if, earlier in the run, the clean-up of revoked records deleted
      its record, so only for tokens that outlive the retention of revoked records. */
  lemma OrphansAreRevokedLeftovers(events: seq<Event>, n: nat, j: nat)
    requires Possible(START, events) && n <= |events| && IsOrphan(Exec(START, events, n), j)
    ensures exists m: nat | m < n :: Orphans(Exec(START, events, m), events[m], j)
  {
    var holds, bad := (v: World) => Inv(v), (v: World) => IsOrphan(v, j);
    var cause := (v: World, e: Event) => Orphans(v, e, j);
    StartOk();
    forall v: World, e: Event | Enabler()(v, e) && holds(v)
      ensures holds(Stepper()(v, e))
      ensures bad(Stepper()(v, e)) ==> bad(v) || cause(v, e)
    {
      StepKeepsInv(v, e);
      if IsOrphan(Step(v, e), j) {
        OrphanStep(v, e, j);
      }
    }
    PossibleIsEnabled(START, events);
    var m := RunCause(Stepper(), Enabler(), holds, bad, cause, START, events, n);
    assert Orphans(Exec(START, events, m), events[m], j);
  }

  /** An administrator signs in, refreshes, and the spent token is presented again. */
  const REPLAY: seq<Event> := [
    Bootstrap(1, "a", 7),
    Login("a", "ip", Some(1), (h: nat) => true, Mint(10, 20, 1000)),
    Refresh(Some(Payload(10, 1, 20, 1000)), true, 11, 2000),
    Refresh(Some(Payload(10, 1, 20, 1000)), true, 12, 3000)]

  const BOOTSTRAPPED := START.(users := map[1 := NewAdmin("a", 7)], ids := {1})

  const SIGNED_IN := BOOTSTRAPPED.(
    tokens := map[10 := Token(1, 20, 1000, None, None)],
    minted := map[10 := Payload(10, 1, 20, 1000)],
    ids := {1, 10, 20},
    granted := [AccessToken(1, 1, 20)])

  const REFRESHED := SIGNED_IN.(
    tokens := map[10 := Token(1, 20, 1000, Some(0), Some(11)), 11 := Token(1, 20, 2000, None, None)],
    minted := map[10 := Payload(10, 1, 20, 1000), 11 := Payload(11, 1, 20, 2000)],
    ids := {1, 10, 20, 11},
    granted := [AccessToken(1, 1, 20), AccessToken(1, 1, 20)],
    spent := {10})

  lemma ReplayBootstrap()
    ensures Enabled(START, REPLAY[0]) && Step(START, REPLAY[0]) == BOOTSTRAPPED
  {
    assert Admins(map[]) == {};
  }

  lemma ReplayLogin()
    ensures Enabled(BOOTSTRAPPED, REPLAY[1]) && Step(BOOTSTRAPPED, REPLAY[1]) == SIGNED_IN
  {
    assert LoginCodeOf(BOOTSTRAPPED, REPLAY[1]) == SignedIn;
    assert Cleared(map[], "a") == map[];
  }

  lemma ReplayRefresh()
    ensures Enabled(SIGNED_IN, REPLAY[2]) && Step(SIGNED_IN, REPLAY[2]) == REFRESHED
    ensures RefreshCodeOf(SIGNED_IN, REPLAY[2]) == Granted
  {
    assert RefreshCodeOf(SIGNED_IN, REPLAY[2]) == Granted;
  }

  lemma ReplayAgain()
    ensures Enabled(REFRESHED, REPLAY[3]) && Step(REFRESHED, REPLAY[3]) == REFRESHED
    ensures RefreshCodeOf(REFRESHED, REPLAY[3]) == ExpiredOrRevoked
  {
    assert RefreshCodeOf(REFRESHED, REPLAY[3]) == ExpiredOrRevoked;
  }

  lemma RunUnfolds(step: (World, Event) -> World, w: World, events: seq<Event>, n: nat)
    requires n < |events|
    ensures Run(step, w, events, n + 1) == step(Run(step, w, events, n), events[n])
  {
  }

  lemma {:induction false} RunsThrough(
    step: (World, Event) -> World, enabled: (World, Event) -> bool, events: seq<Event>, worlds: seq<World>, n: nat)
    requires |worlds| == |events| + 1 && n <= |events|
    requires forall k | 0 <= k < |events| :: enabled(worlds[k], events[k]) && step(worlds[k], events[k]) == worlds[k + 1]
    ensures Run(step, worlds[0], events, n) == worlds[n]
  {
    if n > 0 {
      RunsThrough(step, enabled, events, worlds, n - 1);
      RunUnfolds(step, worlds[0], events, n - 1);
    }
  }

  lemma ReplayRun(n: nat)
    requires n <= 4
    ensures Possible(START, REPLAY)
    ensures Exec(START, REPLAY, n) == [START, BOOTSTRAPPED, SIGNED_IN, REFRESHED, REFRESHED][n]
  {
    ReplayBootstrap();
    ReplayLogin();
    ReplayRefresh();
    ReplayAgain();
    var worlds := [START, BOOTSTRAPPED, SIGNED_IN, REFRESHED, REFRESHED];
    forall k | 0 <= k < 4
      ensures Enabler()(worlds[k], REPLAY[k]) && Stepper()(worlds[k], REPLAY[k]) == worlds[k + 1]
    {
    }
    RunsThrough(Stepper(), Enabler(), REPLAY, worlds, n);
    forall k | 0 <= k < |REPLAY|
      ensures Enabled(Exec(START, REPLAY, k), REPLAY[k])
    {
      RunsThrough(Stepper(), Enabler(), REPLAY, worlds, k);
    }
  }

  /** The run: the token succeeds once, its replay is answered as expired or revoked, and the successor is
      alive at the end. */
  lemma ReplayLeavesSuccessor()
    ensures Possible(START, REPLAY) && Succeeds(START, REPLAY, 2, 10)
    ensures var w, v := Exec(START, REPLAY, 3), Exec(START, REPLAY, 4);
      && Genuine(w, REPLAY[3].payload.value) && 10 in w.spent
      && RefreshCodeOf(w, REPLAY[3]) == ExpiredOrRevoked
      && 11 in v.tokens && v.tokens[11].Live() && v.tokens[11].family == 20
  {
    ReplayRun(2);
    ReplayRun(3);
    ReplayRun(4);
    ReplayRefresh();
    ReplayAgain();
  }

  // ---------------------------------------------------------------- versions and the guard

  lemma VersionsGrow(w: World, events: seq<Event>, n: nat)
    requires Inv(w) && Possible(w, events) && n <= |events|
    ensures UsersGrow(w.users, Exec(w, events, n).users)
  {
    var holds := (v: World) => Inv(v) && UsersGrow(w.users, v.users);
    forall v: World, e: Event | Enabler()(v, e) && holds(v)
      ensures holds(Stepper()(v, e))
    {
      StepKeepsInv(v, e);
      StepGrowsUsers(v, e);
      GrowTwice(w.users, v.users, Step(v, e).users);
    }
    PossibleIsEnabled(w, events);
    RunInvariant(Stepper(), Enabler(), holds, w, events, n);
    assert holds(Exec(w, events, n));
  }

  lemma GrowTwice(t: Users, u: Users, v: Users)
    requires UsersGrow(t, u) && UsersGrow(u, v)
    ensures UsersGrow(t, v)
  {
  }

  /** The requests that change what a user may do. */
  predicate ChangesRightsOf(w: World, e: Event, userId: nat) {
    match e
    case ChangePassword(u, opens, _) => u == userId && KnowsPassword(w.users, u, opens)
    case Decide(_, u, a) => u == userId && exists to :: Applies(w.users, u, a, to)
    case _ => false
  }

  lemma ChangeRaisesVersion(w: World, e: Event, userId: nat)
    requires userId in w.users && ChangesRightsOf(w, e, userId)
    ensures userId in Step(w, e).users && Step(w, e).users[userId].version == w.users[userId].version + 1
  {
    if e.Decide? {
      JudgeMeaning(w.users, e.userId, e.action);
    }
  }

  /** An access token granted before an access decision or a password change is refused at every later state on
      every route that is neither public nor marked as open to stale sessions. */
  lemma StaleTokenIsRefused(w: World, e: Event, a: AccessToken, events: seq<Event>, n: nat, route: Route, dev: bool)
    requires Inv(w) && Enabled(w, e) && a in w.granted && ChangesRightsOf(w, e, a.userId)
    requires Possible(Step(w, e), events) && n <= |events|
    requires !route.isPublic && !route.allowStale
    ensures Admit(Exec(Step(w, e), events, n).users, Some(a), route, dev) == Unauthorized
  {
    var i :| 0 <= i < |w.granted| && w.granted[i] == a;
    assert GrantOk(w, w.granted[i]);
    ChangeRaisesVersion(w, e, a.userId);
    StepKeepsInv(w, e);
    VersionsGrow(Step(w, e), events, n);
  }

  /** Beyond the open endpoints a workforce token admits exactly while its user is approved and no decision has
      been taken since the token was granted; an administrator's exactly until the next password change, once
      the initial password has been replaced. */
  lemma AdmittedExactly(w: World, a: AccessToken, route: Route)
    requires Inv(w) && a in w.granted && a.userId in w.users
    requires !route.isPublic && !route.allowStale && route.endpoint !in OPEN_ENDPOINTS
    ensures var u, ds := w.users[a.userId], DecisionsOn(w, a.userId);
      Admit(w.users, Some(a), route, false) == Admitted <==>
        if u.provider == Entra then |ds| > 0 && ds[|ds| - 1].next == Approved && a.version == 1 + |ds|
        else !u.mustChangePassword && a.version == u.version
  {
    assert UserOk(w, a.userId);
  }

  // ---------------------------------------------------------------- the login limiter

  /** No counter ever exceeds its limit: 5 for an account, 20 for an address. */
  lemma CountersStayBounded(events: seq<Event>, n: nat, key: Key)
    requires Possible(START, events) && n <= |events|
    ensures Reading(Exec(START, events, n).counters, key, Exec(START, events, n).now) <= LimitOf(key)
  {
    InvAlong(START, events, n);
  }

  /** The key is locked until second `end`. */
  predicate LockedUntil(w: World, key: Key, end: int) {
    key in w.counters && w.counters[key].count >= LimitOf(key) && w.counters[key].expiresAt == end && w.now < end
  }

  predicate Concerns(e: Event, key: Key) {
    e.Login? && (key == Account(e.email) || key == Address(e.ip))
  }

  /** A locked key is untouched by any request, and login attempts on it are throttled. */
  lemma LockIsUntouched(w: World, e: Event, key: Key, end: int)
    requires LockedUntil(w, key, end)
    ensures key in Step(w, e).counters && Step(w, e).counters[key] == w.counters[key]
    ensures Concerns(e, key) ==> LoginCodeOf(w, e) == Throttled
    ensures Step(w, e).now >= w.now
  {
  }

  /** A lock starts with a recorded failure and is set to end 15 minutes after it. */
  lemma LockStartsWithFailure(w: World, e: Event, key: Key)
    requires Inv(w) && Reading(w.counters, key, w.now) < LimitOf(key)
    requires Reading(Step(w, e).counters, key, Step(w, e).now) >= LimitOf(key)
    ensures Concerns(e, key) && LoginCodeOf(w, e) == BadCredentials
    ensures LockedUntil(Step(w, e), key, w.now + WINDOW)
  {
    StepCounters(w, e);
  }

  lemma {:induction false} LockLasts(w: World, events: seq<Event>, n: nat, key: Key, end: int)
    requires LockedUntil(w, key, end) && n <= |events|
    requires forall m | 0 <= m < n :: Exec(w, events, m).now < end
    ensures key in Exec(w, events, n).counters && Exec(w, events, n).counters[key] == w.counters[key]
  {
    if n > 0 {
      LockLasts(w, events, n - 1, key, end);
      LockIsUntouched(Exec(w, events, n - 1), events[n - 1], key, end);
    }
  }

  lemma ClockStep(w: World, e: Event)
    ensures w.now <= Step(w, e).now
  {
  }

  lemma {:induction false} ClockRuns(w: World, events: seq<Event>, m: nat, n: nat)
    requires m <= n <= |events|
    ensures Exec(w, events, m).now <= Exec(w, events, n).now
  {
    if m < n {
      ClockRuns(w, events, m, n - 1);
      ClockStep(Exec(w, events, n - 1), events[n - 1]);
    }
  }

  /** Whatever is attempted meanwhile, a lock holds until its end and is gone at the first moment past it. */
  lemma LockoutIsFixed(w: World, events: seq<Event>, n: nat, key: Key, end: int)
    requires LockedUntil(w, key, end) && n <= |events|
    ensures var v := Exec(w, events, n);
      && (v.now < end ==> LockedUntil(v, key, end) && Reading(v.counters, key, v.now) >= LimitOf(key))
      && (v.now >= end && n > 0 && Exec(w, events, n - 1).now < end ==> Reading(v.counters, key, v.now) == 0)
  {
    var v := Exec(w, events, n);
    if v.now < end || (n > 0 && Exec(w, events, n - 1).now < end) {
      forall m | 0 <= m < n
        ensures Exec(w, events, m).now < end
      {
        if v.now < end {
          ClockRuns(w, events, m, n);
        } else {
          ClockRuns(w, events, m, n - 1);
        }
      }
      LockLasts(w, events, n, key, end);
    }
  }
}
