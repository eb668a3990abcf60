/** Refresh tokens: the stored records and the operations of the session store. Times are in seconds. */
module Sessions {
  import opened Basics

  /** A stored refresh token; `replacedBy` names the token it was rotated into. */
  datatype Token = Token(
    userId: nat, family: nat, expiresAt: int, revokedAt: Option<int>, replacedBy: Option<nat>)
  {
    predicate Live() {
      revokedAt.None?
    }
  }

  type Store = map<nat, Token>

  const DAY := 86400

  function OfUser(userId: nat): Token -> bool {
    (t: Token) => t.userId == userId
  }

  function OfFamily(userId: nat, family: nat): Token -> bool {
    (t: Token) => t.userId == userId && t.family == family
  }

  /** Stamps the live records that satisfy the condition; a record already revoked keeps its stamp. */
  function Withdrawn(tokens: Store, p: Token -> bool, now: int): Store {
    map j | j in tokens :: if tokens[j].Live() && p(tokens[j]) then tokens[j].(revokedAt := Some(now)) else tokens[j]
  }

  function RevokedOne(tokens: Store, jti: nat, now: int): Store {
    if jti in tokens && tokens[jti].Live() then tokens[jti := tokens[jti].(revokedAt := Some(now))] else tokens
  }

  /** Replaces a record by a successor in the same family. */
  function Rotated(tokens: Store, presented: nat, jti: nat, expiresAt: int, now: int): Store
    requires presented in tokens
  {
    var t := tokens[presented];
    tokens[presented := t.(revokedAt := Some(now), replacedBy := Some(jti))]
          [jti := Token(t.userId, t.family, expiresAt, None, None)]
  }

  function WithoutExpired(tokens: Store, now: int): Store {
    map j | j in tokens && !(tokens[j].expiresAt < now) :: tokens[j]
  }

  function WithoutOldRevoked(tokens: Store, now: int, days: nat): Store {
    map j | j in tokens && !(tokens[j].revokedAt.Some? && tokens[j].revokedAt.value < now - days * DAY) :: tokens[j]
  }

  /** `u` comes from `t` by revoking and deleting records only. */
  ghost predicate Weakens(t: Store, u: Store) {
    forall j | j in u ::
      && j in t
      && u[j].family == t[j].family && u[j].userId == t[j].userId && u[j].expiresAt == t[j].expiresAt
      && (u[j].Live() ==> t[j].Live())
  }

  lemma WithdrawalsWeaken(tokens: Store, p: Token -> bool, jti: nat, now: int, days: nat)
    ensures Weakens(tokens, Withdrawn(tokens, p, now))
    ensures Weakens(tokens, RevokedOne(tokens, jti, now))
    ensures Weakens(tokens, WithoutExpired(tokens, now))
    ensures Weakens(tokens, WithoutOldRevoked(tokens, now, days))
  {
  }

  /** From `t` to `u` every live record of the user, or of the one family of the user, is revoked at `now`; all other
      records, and earlier stamps, are as before. */
  ghost predicate Silences(t: Store, u: Store, userId: nat, family: Option<nat>, now: int) {
    && u.Keys == t.Keys
    && forall j | j in t ::
         if t[j].userId == userId && (family == None || family == Some(t[j].family)) && t[j].revokedAt == None then
           u[j] == Token(t[j].userId, t[j].family, t[j].expiresAt, Some(now), t[j].replacedBy)
         else u[j] == t[j]
  }

  /** No record of the user is live. */
  ghost predicate NoneLive(t: Store, userId: nat) {
    forall j | j in t && t[j].userId == userId :: t[j].revokedAt.Some?
  }

  lemma WithdrawalsSilence(tokens: Store, userId: nat, family: nat, now: int)
    ensures Silences(tokens, Withdrawn(tokens, OfUser(userId), now), userId, None, now)
    ensures NoneLive(Withdrawn(tokens, OfUser(userId), now), userId)
    ensures Silences(tokens, Withdrawn(tokens, OfFamily(userId, family), now), userId, Some(family), now)
  {
  }

  /** The unrevoked records of a family. */
  function LiveIn(tokens: Store, family: nat): set<nat> {
    set j | j in tokens && tokens[j].Live() && tokens[j].family == family
  }

  /** A rotation hands the family's life from the presented record to its successor: the presented record is
      revoked and names the successor, which belongs to the same user; other families and all other records
      are as before, and the number of unrevoked records stays the same. */
  lemma RotationHandsOver(tokens: Store, presented: nat, jti: nat, expiresAt: int, now: int, family: nat)
    requires presented in tokens && tokens[presented].Live() && jti !in tokens
    ensures var t, u := tokens[presented], Rotated(tokens, presented, jti, expiresAt, now);
      && LiveIn(u, family)
         == (if family == t.family then LiveIn(tokens, family) - {presented} + {jti} else LiveIn(tokens, family))
      && |LiveIn(u, family)| == |LiveIn(tokens, family)|
      && u[presented].replacedBy == Some(jti) && u[jti].userId == t.userId
      && forall j | j in tokens && j != presented :: j in u && u[j] == tokens[j]
  {
    var u := Rotated(tokens, presented, jti, expiresAt, now);
    if family == tokens[presented].family {
      assert LiveIn(u, family) == LiveIn(tokens, family) - {presented} + {jti};
    } else {
      assert LiveIn(u, family) == LiveIn(tokens, family);
    }
  }

  function ExpiredBefore(now: int): Token -> bool {
    (t: Token) => t.expiresAt < now
  }

  function RevokedBefore(cutoff: int): Token -> bool {
    (t: Token) => t.revokedAt.Some? && t.revokedAt.value < cutoff
  }

  function Matching(tokens: Store, p: Token -> bool): set<nat> {
    set j | j in tokens && p(tokens[j])
  }

  class SessionService {
    var tokens: Store

    constructor ()
      ensures tokens == map[]
    {
      tokens := map[];
    }

    method StoreNew(jti: nat, userId: nat, family: nat, expiresAt: int)
      modifies this
      ensures tokens == old(tokens)[jti := Token(userId, family, expiresAt, None, None)]
    {
      tokens := tokens[jti := Token(userId, family, expiresAt, None, None)];
    }

    method FindByJti(jti: nat) returns (record: Option<Token>)
      ensures record == if jti in tokens then Some(tokens[jti]) else None
    {
      record := if jti in tokens then Some(tokens[jti]) else None;
    }

    method RevokeByJti(jti: nat, now: int)
      modifies this
      ensures tokens == RevokedOne(old(tokens), jti, now)
    {
      if jti in tokens && tokens[jti].revokedAt.None? {
        tokens := tokens[jti := tokens[jti].(revokedAt := Some(now))];
      }
    }

    /** updateMany over the live records that match. */
    method RevokeMatching(p: Token -> bool, now: int)
      modifies this
      ensures tokens.Keys == old(tokens).Keys
      ensures forall j | j in tokens && !(p(old(tokens)[j]) && old(tokens)[j].revokedAt.None?) :: tokens[j] == old(tokens)[j]
      ensures forall j | j in tokens && p(old(tokens)[j]) && old(tokens)[j].revokedAt.None? ::
        tokens[j] == old(tokens)[j].(revokedAt := Some(now))
      ensures tokens == Withdrawn(old(tokens), p, now)
    {
      var todo := tokens.Keys;
      while todo != {}
        invariant tokens.Keys == old(tokens).Keys && todo <= tokens.Keys
        invariant forall j | j in tokens ::
          tokens[j] == if j in todo then old(tokens)[j] else Withdrawn(old(tokens), p, now)[j]
      {
        var j :| j in todo;
        if tokens[j].revokedAt.None? && p(tokens[j]) {
          tokens := tokens[j := tokens[j].(revokedAt := Some(now))];
        }
        todo := todo - {j};
      }
    }

    method RevokeFamilyForUser(userId: nat, family: nat, now: int)
      modifies this
      ensures Silences(old(tokens), tokens, userId, Some(family), now)
      ensures tokens == Withdrawn(old(tokens), OfFamily(userId, family), now)
    {
      RevokeMatching(OfFamily(userId, family), now);
    }

    method RevokeAllForUser(userId: nat, now: int)
      modifies this
      ensures Silences(old(tokens), tokens, userId, None, now) && NoneLive(tokens, userId)
      ensures tokens == Withdrawn(old(tokens), OfUser(userId), now)
    {
      RevokeMatching(OfUser(userId), now);
    }

    method Rotate(presented: nat, jti: nat, expiresAt: int, now: int)
      requires presented in tokens
      modifies this
      ensures jti in tokens && tokens[jti].Live() && tokens[jti].family == old(tokens)[presented].family
      ensures jti != presented ==> presented in tokens && !tokens[presented].Live() && tokens[presented].replacedBy == Some(jti)
      ensures forall j | j != presented && j != jti :: j in tokens <==> j in old(tokens)
      ensures forall j | j != presented && j != jti && j in tokens :: tokens[j] == old(tokens)[j]
      ensures tokens == Rotated(old(tokens), presented, jti, expiresAt, now)
    {
      var record := tokens[presented];
      tokens := tokens[presented := record.(revokedAt := Some(now), replacedBy := Some(jti))];
      tokens := tokens[jti := Token(record.userId, record.family, expiresAt, None, None)];
    }

    /** deleteMany: one record at a time, counting. */
    method DeleteMatching(p: Token -> bool) returns (deleted: nat)
      modifies this
      ensures forall j :: j in tokens <==> j in old(tokens) && !p(old(tokens)[j])
      ensures forall j | j in tokens :: tokens[j] == old(tokens)[j]
      ensures deleted == |Matching(old(tokens), p)|
    {
      deleted := 0;
      var todo := tokens.Keys;
      ghost var gone: set<nat> := {};
      while todo != {}
        invariant todo <= old(tokens).Keys && todo !! gone
        invariant forall j :: j in gone <==> j in old(tokens) && j !in todo && p(old(tokens)[j])
        invariant tokens == old(tokens) - gone && deleted == |gone|
      {
        var j :| j in todo;
        if p(tokens[j]) {
          tokens := tokens - {j};
          deleted := deleted + 1;
          gone := gone + {j};
        }
        todo := todo - {j};
      }
      assert gone == Matching(old(tokens), p);
    }

    method CleanupExpiredTokens(now: int) returns (deleted: nat)
      modifies this
      ensures forall j | j in old(tokens) :: j in tokens <==> now <= old(tokens)[j].expiresAt
      ensures deleted == |Matching(old(tokens), ExpiredBefore(now))|
      ensures tokens == WithoutExpired(old(tokens), now)
    {
      deleted := DeleteMatching(ExpiredBefore(now));
    }

    method CleanupOldRevokedTokens(now: int, days: nat) returns (deleted: nat)
      modifies this
      ensures forall j | j in old(tokens) && old(tokens)[j].Live() :: j in tokens
      ensures forall j | j in old(tokens) && !old(tokens)[j].Live() ::
        j in tokens <==> now <= old(tokens)[j].revokedAt.value + days * 24 * 60 * 60
      ensures deleted == |Matching(old(tokens), RevokedBefore(now - days * DAY))|
      ensures tokens == WithoutOldRevoked(old(tokens), now, days)
    {
      deleted := DeleteMatching(RevokedBefore(now - days * DAY));
    }
  }
}
