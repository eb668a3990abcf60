/** The rule for verified transactions: where the account-date-amount case keeps it and where it does not. */
module Verified {
  import opened Basics
  import opened Ledger
  import opened Scoring
  import opened Phases
  import opened Criteria
  import opened Invariants
  import opened Guarantees
  import opened Certificates

  /** What the two strict cases ask of a bank that the 30-day search may offer. */
  lemma StrictCase(inp: Input, ist: Ist, m: MatchResult)
    requires inp.Valid() && m.matchCase in {AccountDateAmountMatch, DateAmountTermsMatch}
    requires EarnedCertificate(inp, ist, m)
    ensures MoneyFits(inp, ist, m.bank.value)
    ensures ist.epochDay.Some? && WithinDays(m.bank.value, ist.epochDay.value, inp.opts.toleranceDays)
    ensures InScoredSearch(inp, ist, m.bank.value) <==> CurrencyAgrees(ist, m.bank.value)
  {
    DateScoreMeaning(inp.opts, ist, m.bank.value);
  }

  /** The account-date-amount case always has the bank's account, one of its dates within the tolerance, the money
      and the direction right. The currency is right exactly if the row is matched and not up for review. */
  lemma VerifiedUpToCurrency(inp: Input, k: nat)
    requires inp.Valid() && k < |inp.rows|
    requires var m := Current(Final(inp), inp.rows[k]); m.Some? && m.value.matchCase == AccountDateAmountMatch
    ensures var ist, m := inp.rows[k], Current(Final(inp), inp.rows[k]).value;
      && m.bank.Some? && inp.Owns(m.bank.value) && MoneyFits(inp, ist, m.bank.value)
      && inp.ev.accountScore(ist.accountCode, m.bank.value.accountCode) == 1.0
      && ist.epochDay.Some? && WithinDays(m.bank.value, ist.epochDay.value, inp.opts.toleranceDays)
      && (m.status == Matched <==> CurrencyAgrees(ist, m.bank.value))
      && (inp.opts.forceAll ==> m.status == Matched)
  {
    EveryResultIsCertified(inp, k);
    StrictCase(inp, inp.rows[k], Current(Final(inp), inp.rows[k]).value);
    if inp.opts.forceAll && !inp.Preserved(inp.rows[k]) {
      ForcedRunsAgree(inp, k);
    }
    if inp.Preserved(inp.rows[k]) {
      PreservedIsFixed(inp, k, 6);
    }
  }

  /** Bank `b` wins the 30-day search with the row's account and date, but in another currency. */
  ghost predicate OtherCurrency(inp: Input, ist: Ist, used: set<nat>, b: Bank) {
    && inp.Owns(b) && !CurrencyAgrees(ist, b)
    && inp.ev.accountScore(ist.accountCode, b.accountCode) == 1.0
    && ist.epochDay.Some? && WithinDays(b, ist.epochDay.value, inp.opts.toleranceDays)
    && WinsAmong(inp, ist, FallbackCandidatesFor(inp, ist), used, b)
  }

  lemma WinnerIsDecided(inp: Input, ist: Ist, candidates: seq<Bank>, used: set<nat>, b: Bank)
    requires WinsAmong(inp, ist, candidates, used, b)
    ensures var m := DecideAmong(inp, ist, candidates, used);
      && m.status == Matched && m.bank == Some(b)
      && forall c: MatchCase :: m.matchCase == c <==> NameHolds(c, ScoreCandidate(inp, ist, b))
  {
    var unused := Filter(candidates, Unused(inp, used));
    var scores := Scores(inp, ist, unused);
    var i: nat :| i < |scores| && Wins(inp.opts, scores, i) && scores[i].bank == b;
    assert scores[i] == ScoreCandidate(inp, ist, unused[i]);
    WinnerIsMatched(inp.opts, scores, i);
  }

  lemma OtherCurrencyIsScored(inp: Input, ist: Ist, used: set<nat>, b: Bank)
    requires inp.Valid() && NarrowIsTaken(inp, ist, used) && OtherCurrency(inp, ist, used, b)
    ensures var m := ScoredResult(inp, ist, used);
      m.status == NeedsReview && m.matchCase == AccountDateAmountMatch && m.bank == Some(b)
  {
    DecideAmongWins(inp, ist, CandidatesFor(inp, ist), used);
    forall c | c in CandidatesFor(inp, ist)
      ensures !Free(inp, used, None, c)
    {
      CandidatesMeaning(inp, ist, c);
    }
    WinnerIsDecided(inp, ist, FallbackCandidatesFor(inp, ist), used, b);
    DateScoreMeaning(inp.opts, ist, b);
    assert NameHolds(AccountDateAmountMatch, ScoreCandidate(inp, ist, b));
  }

  /** The cash phase leaves a bank in another currency where it is. */
  lemma CashLeavesOther(inp: Input, s: State, ist: Ist, b: Bank)
    requires inp.Valid() && inp.Owns(b) && inp.Ref(b) != "" && !CurrencyAgrees(ist, b)
    requires Current(s, ist).Some? && Current(s, ist).value.bank == Some(b)
    ensures Step(inp, Cash, s, ist) == s
  {
    if CashRow(inp, ist, Current(s, ist)) {
      var found := CashSearch(inp, ist, s.used, OwnBank(Current(s, ist)));
      if |found| == 1 {
        assert found[0] in found;
        CashSearchMeaning(inp, ist, s.used, OwnBank(Current(s, ist)), found[0]);
      }
    }
  }

  lemma OtherCurrencyStays(inp: Input, k: nat, b: Bank)
    requires inp.Valid() && k < |inp.rows| && !inp.opts.forceAll
    requires var m := Current(Stage(inp, 3), inp.rows[k]); m.Some? && m.value.bank == Some(b)
    requires inp.Owns(b) && inp.Ref(b) != "" && !CurrencyAgrees(inp.rows[k], b)
    ensures Current(Final(inp), inp.rows[k]) == Current(Stage(inp, 3), inp.rows[k])
  {
    var s := Stage(inp, 5);
    WithoutForcing(inp);
    AfterItsTurn(inp, Cash, s, k);
    BeforeItsTurn(inp, Cash, s, k);
    CashLeavesOther(inp, Fold(inp.rows, Stepper(inp, Cash), s, k), inp.rows[k], b);
  }

  lemma WinnerWasSearched(inp: Input, ist: Ist, used: set<nat>, b: Bank)
    requires inp.Valid() && WinsAmong(inp, ist, FallbackCandidatesFor(inp, ist), used, b)
    ensures inp.Owns(b) && InFallbackSearch(inp, ist, b)
  {
    WinnerIsDecided(inp, ist, FallbackCandidatesFor(inp, ist), used, b);
    DecideAmongOk(inp, ist, FallbackCandidatesFor(inp, ist), used);
    FallbackMeaning(inp, ist, b);
  }

  /** The row ends with the account-date-amount case on a bank in another currency. */
  ghost predicate MisnamedCurrency(inp: Input, ist: Ist)
    requires inp.Valid()
  {
    var m := Current(Final(inp), ist);
    m.Some? && m.value.matchCase == AccountDateAmountMatch && m.value.bank.Some?
    && !CurrencyAgrees(ist, m.value.bank.value)
  }

  /** When the currency goes wrong, told as the row is scored: the exhaustive phase is off, the row is still open,
      every candidate of the narrow search is taken, and the winner of the 30-day search has the row's account and
      date but not its currency. */
  lemma CurrencyGoesWrong(inp: Input, k: nat)
    requires inp.Valid() && k < |inp.rows|
    ensures MisnamedCurrency(inp, inp.rows[k]) <==>
      && !inp.opts.forceAll && Current(Stage(inp, 2), inp.rows[k]).None?
      && NarrowIsTaken(inp, inp.rows[k], UsedAtScoring(inp, k))
      && exists b :: OtherCurrency(inp, inp.rows[k], UsedAtScoring(inp, k), b)
  {
    var ist, used := inp.rows[k], UsedAtScoring(inp, k);
    if MisnamedCurrency(inp, ist) {
      VerifiedUpToCurrency(inp, k);
      DecidedEarly(inp, k);
      EarlyCases(inp, k);
      ScoredTurn(inp, k);
      ScoredMatchWon(inp, k);
      assert OtherCurrency(inp, ist, used, Current(Final(inp), ist).value.bank.value);
    }
    if !inp.opts.forceAll && Current(Stage(inp, 2), ist).None? && NarrowIsTaken(inp, ist, used)
       && exists b :: OtherCurrency(inp, ist, used, b) {
      var b :| OtherCurrency(inp, ist, used, b);
      OtherCurrencyIsScored(inp, ist, used, b);
      WinnerWasSearched(inp, ist, used, b);
      ScoredTurn(inp, k);
      OtherCurrencyStays(inp, k, b);
    }
  }
}
