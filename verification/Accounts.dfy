/** User records, access transitions and the decision log. */
module Accounts {
  import opened Basics
  import Sessions

  datatype Status = Pending | Approved | Rejected | Revoked

  datatype Role = Admin | Ops

  datatype Provider = Local | Entra

  datatype User = User(
    email: string,
    provider: Provider,
    role: Option<Role>,
    status: Option<Status>,
    passwordHash: Option<nat>,
    mustChangePassword: bool,
    version: nat,
    directoryId: Option<nat>)

  type Users = map<nat, User>

  /** The four administrator actions; reconsideration names its target. */
  datatype Action = Approve | Reject | Revoke | ReconsiderPending | ReconsiderApprove

  datatype Decision = Decision(userId: nat, actor: nat, previous: Status, next: Status, action: Action)

  function From(a: Action): set<Status> {
    match a
    case Approve => {Pending}
    case Reject => {Pending}
    case Revoke => {Approved}
    case ReconsiderPending => {Rejected, Revoked}
    case ReconsiderApprove => {Rejected, Revoked}
  }

  function To(a: Action): Status {
    match a
    case Approve => Approved
    case Reject => Rejected
    case Revoke => Revoked
    case ReconsiderPending => Pending
    case ReconsiderApprove => Approved
  }

  /** What the four actions may do: from which status to which. */
  const PERMITTED: set<(Action, Status, Status)> := {
    (Approve, Pending, Approved), (Reject, Pending, Rejected), (Revoke, Approved, Revoked),
    (ReconsiderPending, Rejected, Pending), (ReconsiderPending, Revoked, Pending),
    (ReconsiderApprove, Rejected, Approved), (ReconsiderApprove, Revoked, Approved)}

  lemma ActionsMeaning(a: Action, from: Status, to: Status)
    ensures from in From(a) && to == To(a) <==> (a, from, to) in PERMITTED
    ensures to == To(a) <==> exists s :: (a, s, to) in PERMITTED
    ensures to == To(a) ==> (ClosesSessions(to) <==> a == Reject || a == Revoke)
  {
    assert (Approve, Pending, Approved) in PERMITTED && (Reject, Pending, Rejected) in PERMITTED
      && (Revoke, Approved, Revoked) in PERMITTED && (ReconsiderPending, Revoked, Pending) in PERMITTED
      && (ReconsiderApprove, Revoked, Approved) in PERMITTED;
  }

  /** The action takes the user from the present status to another. */
  predicate Applies(users: Users, id: nat, a: Action, to: Status) {
    && id in users && users[id].provider == Entra
    && users[id].status.Some? && (a, users[id].status.value, to) in PERMITTED
  }

  predicate ClosesSessions(s: Status) {
    s == Rejected || s == Revoked
  }

  // ---------------------------------------------------------------- user updates

  function NewAdmin(email: string, hash: nat): User {
    User(email, Local, Some(Admin), None, Some(hash), true, 1, None)
  }

  function NewWorkforce(email: string, directoryId: nat): User {
    User(email, Entra, None, Some(Pending), None, false, 1, Some(directoryId))
  }

  function Admins(users: Users): set<nat> {
    set u | u in users && users[u].role == Some(Admin)
  }

  /** The compare-and-set: only a workforce user whose status is still one of `from` changes. */
  predicate CanMove(users: Users, id: nat, from: set<Status>) {
    && id in users && users[id].provider == Entra
    && users[id].status.Some? && users[id].status.value in from
  }

  function Moved(u: User, to: Status): User {
    u.(status := Some(to), role := if to == Approved then Some(Ops) else None, version := u.version + 1)
  }

  function PasswordChanged(u: User, hash: nat): User {
    u.(passwordHash := Some(hash), mustChangePassword := false, version := u.version + 1)
  }

  datatype Verdict = UserNotFound | Unchanged | Conflict | Applied

  /** What an access transition answers. */
  function Judge(users: Users, id: nat, a: Action): Verdict {
    if id !in users || users[id].status.None? then UserNotFound
    else if users[id].status.value == To(a) then Unchanged
    else if !CanMove(users, id, From(a)) then Conflict
    else Applied
  }

  /** An action applies to workforce users whose status permits it. A user without a status is not found; one who is
      where the action leads already is left unchanged; in all other cases the status has moved on meanwhile. */
  lemma JudgeMeaning(users: Users, id: nat, a: Action)
    ensures var verdict := Judge(users, id, a);
      && (verdict == Applied <==> exists to :: Applies(users, id, a, to))
      && (verdict == Applied ==> Applies(users, id, a, To(a)))
      && (verdict == UserNotFound <==> id !in users || users[id].status == None)
      && (verdict == Unchanged <==>
            id in users && users[id].status.Some? && exists s :: (a, s, users[id].status.value) in PERMITTED)
  {
    if id in users && users[id].status.Some? {
      var status := users[id].status.value;
      ActionsMeaning(a, status, status);
      ActionsMeaning(a, status, To(a));
      if to :| Applies(users, id, a, to) {
        ActionsMeaning(a, status, to);
        assert status != to;
      }
      assert Judge(users, id, a) == Applied ==> Applies(users, id, a, To(a));
    }
  }

  class UserService {
    var users: Users

    constructor ()
      ensures users == map[]
    {
      users := map[];
    }

    method FindUserById(id: nat) returns (user: Option<User>)
      ensures user == if id in users then Some(users[id]) else None
    {
      user := if id in users then Some(users[id]) else None;
    }

    /** Any one of the users with the address. */
    method FindUserByEmail(email: string) returns (id: Option<nat>)
      ensures id.Some? ==> id.value in users && users[id.value].email == email
      ensures id.None? ==> forall u | u in users :: users[u].email != email
    {
      var todo := users.Keys;
      while todo != {}
        invariant todo <= users.Keys
        invariant forall u | u in users && u !in todo :: users[u].email != email
      {
        var u :| u in todo;
        if users[u].email == email {
          return Some(u);
        }
        todo := todo - {u};
      }
      id := None;
    }

    method CreateLocalAdmin(id: nat, email: string, hash: nat)
      modifies this
      ensures users == old(users)[id := NewAdmin(email, hash)]
    {
      users := users[id := NewAdmin(email, hash)];
    }

    /** Updates the profile of the workforce user with this directory id, or inserts a pending one. */
    method UpsertEntraUser(directoryId: nat, email: string, freshId: nat) returns (id: nat)
      modifies this
      ensures
        if exists u | u in old(users) :: old(users)[u].directoryId == Some(directoryId) then
          && id in old(users) && old(users)[id].directoryId == Some(directoryId)
          && users == old(users)[id := old(users)[id].(email := email)]
        else id == freshId && users == old(users)[freshId := NewWorkforce(email, directoryId)]
    {
      var todo := users.Keys;
      while todo != {}
        invariant todo <= users.Keys && users == old(users)
        invariant forall u | u in users && u !in todo :: users[u].directoryId != Some(directoryId)
      {
        var u :| u in todo;
        if users[u].directoryId == Some(directoryId) {
          users := users[u := users[u].(email := email)];
          return u;
        }
        todo := todo - {u};
      }
      users := users[freshId := NewWorkforce(email, directoryId)];
      id := freshId;
    }

    method ChangeAdminPassword(id: nat, hash: nat)
      requires id in users && users[id].role == Some(Admin)
      modifies this
      ensures users == old(users)[id := PasswordChanged(old(users)[id], hash)]
    {
      var u := users[id];
      users := users[id := u.(passwordHash := Some(hash), mustChangePassword := false, version := u.version + 1)];
    }

    method TransitionAccess(id: nat, from: set<Status>, to: Status) returns (moved: bool)
      modifies this
      ensures moved == CanMove(old(users), id, from)
      ensures users == if moved then old(users)[id := Moved(old(users)[id], to)] else old(users)
    {
      if id !in users || users[id].provider != Entra || users[id].status.None? || users[id].status.value !in from {
        return false;
      }
      var u := users[id].(status := Some(to), version := users[id].version + 1);
      if to == Approved {
        u := u.(role := Some(Ops));
      } else {
        u := u.(role := None);
      }
      users := users[id := u];
      moved := true;
    }
  }

  /** Users, sessions and log after an access transition. */
  function UsersAfter(users: Users, id: nat, a: Action): Users {
    if Judge(users, id, a) == Applied then users[id := Moved(users[id], To(a))] else users
  }

  function TokensAfter(users: Users, tokens: Sessions.Store, id: nat, a: Action, now: int): Sessions.Store {
    if Judge(users, id, a) == Applied && ClosesSessions(To(a)) then Sessions.Withdrawn(tokens, Sessions.OfUser(id), now)
    else tokens
  }

  function LogAfter(users: Users, decisions: seq<Decision>, actor: nat, id: nat, a: Action): seq<Decision> {
    if Judge(users, id, a) == Applied then decisions + [Decision(id, actor, users[id].status.value, To(a), a)]
    else decisions
  }

  class AccessReviewService {
    const users: UserService
    const sessions: Sessions.SessionService
    var decisions: seq<Decision>

    constructor (users: UserService, sessions: Sessions.SessionService)
      ensures this.users == users && this.sessions == sessions && decisions == []
    {
      this.users := users;
      this.sessions := sessions;
      decisions := [];
    }

    method ApplyTransition(actor: nat, id: nat, a: Action, now: int) returns (verdict: Verdict)
      modifies this, users, sessions
      ensures verdict == Judge(old(users.users), id, a)
      ensures users.users == UsersAfter(old(users.users), id, a)
      ensures sessions.tokens == TokensAfter(old(users.users), old(sessions.tokens), id, a, now)
      ensures decisions == LogAfter(old(users.users), old(decisions), actor, id, a)
      ensures verdict == Applied <==> exists to :: Applies(old(users.users), id, a, to)
      ensures verdict == Applied && a in {Reject, Revoke} ==>
        Sessions.Silences(old(sessions.tokens), sessions.tokens, id, None, now)
        && Sessions.NoneLive(sessions.tokens, id)
      ensures !(verdict == Applied && a in {Reject, Revoke}) ==> sessions.tokens == old(sessions.tokens)
    {
      JudgeMeaning(users.users, id, a);
      ActionsMeaning(a, To(a), To(a));
      var before := users.FindUserById(id);
      if before.None? || before.value.status.None? {
        return UserNotFound;
      }
      if before.value.status.value == To(a) {
        return Unchanged;
      }
      var moved := users.TransitionAccess(id, From(a), To(a));
      if !moved {
        return Conflict;
      }
      decisions := decisions + [Decision(id, actor, before.value.status.value, To(a), a)];
      if To(a) == Rejected || To(a) == Revoked {
        sessions.RevokeAllForUser(id, now);
      }
      verdict := Applied;
    }
  }
}
