/** The login failure counters. A counter that has expired reads as zero. */
module Limiter {
  import opened Basics

  datatype Key = Account(email: string) | Address(ip: string)

  datatype Counter = Counter(count: nat, expiresAt: int)

  type Counters = map<Key, Counter>

  const WINDOW := 15 * 60
  const ACCOUNT_LIMIT := 5
  const ADDRESS_LIMIT := 20

  function Reading(counters: Counters, key: Key, now: int): nat {
    if key in counters && now < counters[key].expiresAt then counters[key].count else 0
  }

  predicate Blocked(counters: Counters, email: string, ip: string, now: int) {
    || Reading(counters, Account(email), now) >= ACCOUNT_LIMIT
    || Reading(counters, Address(ip), now) >= ADDRESS_LIMIT
  }

  function Failed(counters: Counters, email: string, ip: string, now: int): Counters {
    var a, i := Account(email), Address(ip);
    counters[a := Counter(Reading(counters, a, now) + 1, now + WINDOW)]
            [i := Counter(Reading(counters, i, now) + 1, now + WINDOW)]
  }

  function Cleared(counters: Counters, email: string): Counters {
    counters - {Account(email)}
  }

  function LimitOf(key: Key): nat {
    if key.Account? then ACCOUNT_LIMIT else ADDRESS_LIMIT
  }

  /** Five failures on the account or twenty from the address. */
  predicate TooMany(counters: Counters, email: string, ip: string, now: int) {
    Reading(counters, Account(email), now) >= 5 || Reading(counters, Address(ip), now) >= 20
  }

  /** From `c` to `d` the account and the address count one failure more, for fifteen minutes from `now`; all other
      counters are as before. */
  ghost predicate CountsFailure(c: Counters, d: Counters, email: string, ip: string, now: int) {
    forall key: Key ::
      if key == Account(email) || key == Address(ip) then
        key in d && d[key].count == Reading(c, key, now) + 1 && d[key].expiresAt == now + 15 * 60
      else (key in d <==> key in c) && (key in c ==> d[key] == c[key])
  }

  /** From `c` to `d` the account's counter is gone and all others are as before. */
  ghost predicate Forgets(c: Counters, d: Counters, email: string) {
    forall key: Key ::
      if key == Account(email) then key !in d else (key in d <==> key in c) && (key in c ==> d[key] == c[key])
  }

  lemma CountersMeaning(counters: Counters, email: string, ip: string, now: int)
    ensures Blocked(counters, email, ip, now) <==> TooMany(counters, email, ip, now)
    ensures CountsFailure(counters, Failed(counters, email, ip, now), email, ip, now)
    ensures Forgets(counters, Cleared(counters, email), email)
  {
  }

  class LoginRateLimitService {
    var counters: Counters

    constructor ()
      ensures counters == map[]
    {
      counters := map[];
    }

    method IsBlocked(email: string, ip: string, now: int) returns (blocked: bool)
      ensures blocked == Blocked(counters, email, ip, now)
    {
      var account := Reading(counters, Account(email), now);
      var address := Reading(counters, Address(ip), now);
      blocked := account >= 5 || address >= 20;
    }

    /** One transaction: increment and restart the window of both keys. */
    method RecordFailure(email: string, ip: string, now: int)
      modifies this
      ensures CountsFailure(old(counters), counters, email, ip, now)
      ensures counters == Failed(old(counters), email, ip, now)
    {
      var keys := [Account(email), Address(ip)];
      for i := 0 to |keys|
        invariant counters ==
          if i == 0 then old(counters)
          else if i == 1 then old(counters)[keys[0] := Counter(Reading(old(counters), keys[0], now) + 1, now + WINDOW)]
          else Failed(old(counters), email, ip, now)
      {
        var value := Reading(counters, keys[i], now) + 1;
        counters := counters[keys[i] := Counter(value, now + WINDOW)];
      }
    }

    method ResetAccount(email: string)
      modifies this
      ensures Forgets(old(counters), counters, email)
      ensures counters == Cleared(old(counters), email)
    {
      counters := counters - {Account(email)};
    }
  }
}
