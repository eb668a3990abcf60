/** What each phase decides at a row's or a group's turn, told exactly and in terms of the two sheets. */
module Outcomes {
  import opened Basics
  import opened Ledger
  import opened Scoring
  import opened Phases
  import opened Criteria
  import opened Invariants
  import opened Guarantees
  import opened Certificates
  import W = Window
  import RM = ReferenceMatching

  // ---------------------------------------------------------------- direct links

  /** The banks taken when row `k` is looked up by its references. */
  ghost function UsedAtLinking(inp: Input, k: nat): set<nat>
    requires inp.Valid() && k < |inp.rows|
  {
    Fold(inp.rows, Stepper(inp, ByReference), Stage(inp, 0), k).used
  }

  /** The bank has a reference and nobody has taken it. */
  predicate Untaken(inp: Input, used: set<nat>, b: Bank) {
    inp.Ref(b) != "" && (inp.opts.allowManyToOne || b.index !in used)
  }

  /** The banks that the row's texts lead to, in the order they are reported, as far as nobody has taken them. */
  ghost function Offered(inp: Input, ist: Ist, used: set<nat>): seq<Bank>
    requires inp.Valid()
  {
    Filter(RM.Find(inp, ist.directSearchTexts, ist.row), b => Untaken(inp, used, b))
  }

  lemma OfferedMeaning(inp: Input, ist: Ist, used: set<nat>, b: Bank)
    requires inp.Valid()
    ensures b in Offered(inp, ist, used) <==> inp.Owns(b) && Linked(inp, ist, b) && Untaken(inp, used, b)
  {
    InFilter(RM.Find(inp, ist.directSearchTexts, ist.row), (c: Bank) => Untaken(inp, used, c));
    RM.FindMeaning(inp, ist.directSearchTexts, ist.row, b);
  }

  ghost predicate SomeLinked(inp: Input, ist: Ist) {
    exists b :: inp.Owns(b) && Linked(inp, ist, b)
  }

  ghost predicate SomeOffered(inp: Input, ist: Ist, used: set<nat>) {
    exists b :: inp.Owns(b) && Linked(inp, ist, b) && Untaken(inp, used, b)
  }

  /** The result of a lookup: nothing if no bank is linked; ambiguous if all linked ones are taken; otherwise the best
      placed of those on offer, verified if a whole field equals its reference. */
  ghost predicate LinkDecided(inp: Input, ist: Ist, used: set<nat>, r: Option<MatchResult>)
    requires inp.Valid()
  {
    if !SomeLinked(inp, ist) then r == None
    else if !SomeOffered(inp, ist, used) then r == Some(MatchResult(NeedsReview, IncorrectOrAmbiguousLink, 1.0, None))
    else
      && r.Some? && r.value.bank.Some? && IsBestPlaced(inp, ist, Offered(inp, ist, used), r.value.bank.value)
      && r.value == MatchResult(if ExactField(inp, ist, r.value.bank.value) then Matched else NeedsReview,
                                DirectReferenceMatch, RuleConfidence(inp, ist, r.value.bank.value), r.value.bank)
  }

  lemma LinkIsDecided(inp: Input, ist: Ist, used: set<nat>)
    requires inp.Valid()
    ensures LinkDecided(inp, ist, used, DirectResult(inp, ist, RM.Find(inp, ist.directSearchTexts, ist.row), used))
  {
    var found := RM.Find(inp, ist.directSearchTexts, ist.row);
    var offered := Offered(inp, ist, used);
    FilterCongruent(found, Available(inp, used), (b: Bank) => Untaken(inp, used, b));
    assert Filter(found, Available(inp, used)) == offered;
    forall b
      ensures b in found <==> inp.Owns(b) && Linked(inp, ist, b)
      ensures b in offered <==> inp.Owns(b) && Linked(inp, ist, b) && Untaken(inp, used, b)
    {
      RM.FindMeaning(inp, ist.directSearchTexts, ist.row, b);
      OfferedMeaning(inp, ist, used, b);
    }
    DirectChoiceMeaning(inp, ist, offered);
    if |found| > 0 {
      assert found[0] in found;
    }
    if |offered| > 0 {
      assert offered[0] in offered;
      var best := BestDirect(inp, ist, offered).value;
      BestDirectIsCandidate(inp, ist, offered);
      DirectRuleMeaning(inp, ist, best);
    }
  }

  /** A row without a reference leaves the first phase with the lookup's result at its turn. */
  lemma LinkTurn(inp: Input, k: nat)
    requires inp.Valid() && k < |inp.rows| && !inp.Preserved(inp.rows[k])
    ensures LinkDecided(inp, inp.rows[k], UsedAtLinking(inp, k), Current(Stage(inp, 1), inp.rows[k]))
  {
    var s := Fold(inp.rows, Stepper(inp, ByReference), Stage(inp, 0), k);
    EmptyIsSound(inp);
    AfterItsTurn(inp, ByReference, Stage(inp, 0), k);
    BeforeItsTurn(inp, ByReference, Stage(inp, 0), k);
    LinkIsDecided(inp, inp.rows[k], s.used);
    LinkStep(inp, s, inp.rows[k]);
  }

  lemma LinkStep(inp: Input, s: State, ist: Ist)
    requires inp.Valid() && !inp.Preserved(ist) && Current(s, ist).None?
    ensures Current(Step(inp, ByReference, s, ist), ist)
         == DirectResult(inp, ist, RM.Find(inp, ist.directSearchTexts, ist.row), s.used)
  {
  }

  /** A direct link at the end is the best placed of the banks on offer at the row's turn. */
  lemma DirectLinkIsBest(inp: Input, k: nat)
    requires inp.Valid() && k < |inp.rows|
    requires var m := Current(Final(inp), inp.rows[k]); m.Some? && m.value.matchCase == DirectReferenceMatch
    ensures var m := Current(Final(inp), inp.rows[k]).value;
      m.bank.Some? && IsBestPlaced(inp, inp.rows[k], Offered(inp, inp.rows[k], UsedAtLinking(inp, k)), m.bank.value)
  {
    DecidedEarly(inp, k);
    ScoredTurn(inp, k);
    ScoredIsNotDirect(inp, inp.rows[k], UsedAtScoring(inp, k));
    DirectFromFirst(inp, k);
    if inp.Preserved(inp.rows[k]) {
      PreservedIsFixed(inp, k, 6);
    } else {
      LinkTurn(inp, k);
    }
  }

  lemma ScoredIsNotDirect(inp: Input, ist: Ist, used: set<nat>)
    requires inp.Valid()
    ensures ScoredResult(inp, ist, used).matchCase != DirectReferenceMatch
  {
    ScoredResultOk(inp, ist, used);
  }

  lemma DirectFromFirst(inp: Input, k: nat)
    requires inp.Valid() && k < |inp.rows|
    requires var m := Current(Stage(inp, 2), inp.rows[k]); m.Some? && m.value.matchCase == DirectReferenceMatch
    ensures Current(Stage(inp, 2), inp.rows[k]) == Current(Stage(inp, 1), inp.rows[k])
  {
    var s, ist := Stage(inp, 1), inp.rows[k];
    var keys := GroupKeys(inp, s, |inp.rows|);
    if Groupable(inp, s, ist) {
      var j := GroupOutcome(inp, s, ist);
      InGroupOf(inp, s, keys[j], ist);
      GroupTurn(inp, s, j, ist);
    } else {
      GroupSweepIsLocal(inp, s, 0, |keys|, ist);
    }
  }

  // ---------------------------------------------------------------- groups

  /** The row came out of the first phase under review, and has what a group needs: a date, an amount, a direction, and
      an account or a client. */
  predicate MayJoin(inp: Input, s: State, ist: Ist) {
    && !inp.Preserved(ist)
    && ist.row in s.matches && s.matches[ist.row].status == NeedsReview
    && ist.epochDay.Some? && ist.amount.Some? && ist.direction.Some?
    && !(ist.accountCode == "" && inp.ev.normalizeText(ist.clientName) == "")
  }

  lemma GroupableMeaning(inp: Input, i: nat)
    requires inp.Valid() && i < |inp.rows|
    ensures Groupable(inp, Stage(inp, 1), inp.rows[i]) <==> MayJoin(inp, Stage(inp, 1), inp.rows[i])
  {
    FirstCases(inp, i);
    if !inp.Preserved(inp.rows[i]) {
      LinkTurn(inp, i);
    }
  }

  /** The two rows agree in day, account, direction and normalized client. */
  predicate SameParty(ev: Evidence, r: Ist, q: Ist) {
    && r.epochDay == q.epochDay && r.accountCode == q.accountCode && r.direction == q.direction
    && ev.normalizeText(r.clientName) == ev.normalizeText(q.clientName)
  }

  lemma KeyMeaning(ev: Evidence, r: Ist, q: Ist)
    requires r.epochDay.Some? && r.direction.Some? && q.epochDay.Some? && q.direction.Some?
    ensures KeyOf(ev, r) == KeyOf(ev, q) <==> SameParty(ev, r, q)
  {
  }

  /** Group `n` has the row. */
  ghost predicate Joins(inp: Input, ist: Ist, n: nat)
    requires inp.Valid()
  {
    n < |GroupKeys(inp, Stage(inp, 1), |inp.rows|)| && ist in GroupAt(inp, Stage(inp, 1), n)
  }

  lemma JoinsByKey(inp: Input, i: nat, n: nat)
    requires inp.Valid() && i < |inp.rows| && MayJoin(inp, Stage(inp, 1), inp.rows[i])
    ensures Joins(inp, inp.rows[i], n) <==>
      var keys := GroupKeys(inp, Stage(inp, 1), |inp.rows|);
      n < |keys| && keys[n] == KeyOf(inp.ev, inp.rows[i])
  {
    var s := Stage(inp, 1);
    GroupableMeaning(inp, i);
    if n < |GroupKeys(inp, s, |inp.rows|)| {
      InGroupOf(inp, s, GroupKeys(inp, s, |inp.rows|)[n], inp.rows[i]);
    }
  }

  /** Two rows that may join share a group exactly when they agree in all four. */
  lemma GroupsByParty(inp: Input, i: nat, j: nat)
    requires inp.Valid() && i < |inp.rows| && j < |inp.rows|
    requires MayJoin(inp, Stage(inp, 1), inp.rows[i]) && MayJoin(inp, Stage(inp, 1), inp.rows[j])
    ensures SameParty(inp.ev, inp.rows[i], inp.rows[j]) <==>
      exists n: nat :: Joins(inp, inp.rows[i], n) && Joins(inp, inp.rows[j], n)
  {
    GroupableMeaning(inp, i);
    KeyMeaning(inp.ev, inp.rows[i], inp.rows[j]);
    var n := GroupNumber(inp, Stage(inp, 1), inp.rows[i]);
    JoinsByKey(inp, i, n);
    JoinsByKey(inp, j, n);
    if x: nat :| Joins(inp, inp.rows[i], x) && Joins(inp, inp.rows[j], x) {
      JoinsByKey(inp, i, x);
      JoinsByKey(inp, j, x);
    }
  }

  /** What a group takes: something exactly if it has 2 to 50 rows and the banks on offer carry one reference, and then
      the best placed of them for its first row. */
  ghost predicate RightlyTaken(inp: Input, group: seq<Ist>, used: set<nat>, taken: Option<Bank>)
    requires |group| > 0 && group[0].epochDay.Some?
  {
    && (taken.Some? <==>
          && 2 <= |group| <= 50
          && (exists b :: GroupMay(inp, group, used, b))
          && forall b, c | GroupMay(inp, group, used, b) && GroupMay(inp, group, used, c) :: inp.Ref(b) == inp.Ref(c))
    && (taken.Some? ==>
          && GroupMay(inp, group, used, taken.value)
          && IsBestPlaced(inp, group[0], GroupSearch(inp, group, used), taken.value))
  }

  lemma ChoiceIsRight(inp: Input, group: seq<Ist>, used: set<nat>)
    requires inp.Valid() && |group| > 0 && group[0].epochDay.Some?
    ensures RightlyTaken(inp, group, used,
      if RightSize(group) then GroupChoice(inp, group, GroupSearch(inp, group, used)) else None)
  {
    GroupChoiceMeaning(inp, group, used);
    DirectChoiceMeaning(inp, group[0], GroupSearch(inp, group, used));
  }

  lemma GroupTakesExactly(inp: Input, n: nat)
    requires inp.Valid() && n < |GroupKeys(inp, Stage(inp, 1), |inp.rows|)|
    ensures RightlyTaken(inp, GroupAt(inp, Stage(inp, 1), n), GroupSweep(inp, Stage(inp, 1), n).used,
                         GroupTakes(inp, Stage(inp, 1), n))
  {
    ChoiceIsRight(inp, GroupAt(inp, Stage(inp, 1), n), GroupSweep(inp, Stage(inp, 1), n).used);
  }

  /** The rows all end with this result, agree with the row, and their amounts add up to the bank's. */
  ghost predicate Settles(inp: Input, ist: Ist, group: seq<Ist>, m: MatchResult)
    requires inp.Valid() && m.bank.Some?
  {
    && 2 <= |group| <= 50 && ist in group
    && (forall r | r in group :: r in inp.rows && SameParty(inp.ev, ist, r) && Current(Final(inp), r) == Some(m))
    && m.bank.value.amount.Some? && AmountMatched(inp.opts, Sum(group), m.bank.value.amount.value)
    && m.bank.value.direction == ist.direction
  }

  /** Every settlement at the end adds up. */
  lemma SettlementsAddUp(inp: Input, i: nat)
    requires inp.Valid() && i < |inp.rows|
    requires var m := Current(Final(inp), inp.rows[i]); m.Some? && m.value.matchCase == GroupedSettlementMatch
    ensures var m := Current(Final(inp), inp.rows[i]).value;
      && m.bank.Some? && m == MatchResult(Matched, GroupedSettlementMatch, 0.95, m.bank)
      && exists group :: Settles(inp, inp.rows[i], group, m)
  {
    var m := Current(Final(inp), inp.rows[i]).value;
    EveryResultIsCertified(inp, i);
    var group := GroupOf(inp, Stage(inp, 1), KeyOf(inp.ev, inp.rows[i]));
    InFilter(inp.rows, HasKey(inp, Stage(inp, 1), KeyOf(inp.ev, inp.rows[i])));
    forall r | r in group
      ensures r in inp.rows && SameParty(inp.ev, inp.rows[i], r)
    {
      assert InGroup(inp, Stage(inp, 1), KeyOf(inp.ev, inp.rows[i]), r);
      KeyMeaning(inp.ev, inp.rows[i], r);
    }
    assert group[0] in group;
    assert Settles(inp, inp.rows[i], group, m);
  }

  // ---------------------------------------------------------------- scored matches

  /** What scoring decides for an open row: with a candidate of the narrow search free, a match exactly if one wins
      outright; with none, the 30-day search for review; with none there either, nothing. */
  ghost predicate ScoreDecided(inp: Input, ist: Ist, used: set<nat>, m: MatchResult)
    requires inp.Valid()
  {
    && (m.status == Matched <==> exists b :: WinsAmong(inp, ist, CandidatesFor(inp, ist), used, b))
    && (m == NOTHING <==> NarrowIsTaken(inp, ist, used) && WideIsTaken(inp, ist, used))
    && (m.bank.Some? ==>
          && m.status != Unmatched && inp.Owns(m.bank.value) && Free(inp, used, None, m.bank.value)
          && (if NarrowIsTaken(inp, ist, used) then OfWideSearch(inp, ist, m.bank.value) && m.status == NeedsReview
              else InScoredSearch(inp, ist, m.bank.value)))
    && (m.bank.None? ==> m == NOTHING)
  }

  /** The bank is one the 30-day search offers. */
  ghost predicate OfWideSearch(inp: Input, ist: Ist, b: Bank) {
    && InFallbackSearch(inp, ist, b)
    && (Evident(inp, ist, b) || forall c | inp.Owns(c) && InFallbackSearch(inp, ist, c) :: !Evident(inp, ist, c))
  }

  ghost predicate WideIsTaken(inp: Input, ist: Ist, used: set<nat>) {
    forall c | inp.Owns(c) && OfWideSearch(inp, ist, c) :: !Free(inp, used, None, c)
  }

  lemma Searched(inp: Input, ist: Ist, used: set<nat>)
    requires inp.Valid()
    ensures (forall b | b in CandidatesFor(inp, ist) :: !Free(inp, used, None, b)) <==> NarrowIsTaken(inp, ist, used)
    ensures (forall b | b in FallbackCandidatesFor(inp, ist) :: !Free(inp, used, None, b)) <==> WideIsTaken(inp, ist, used)
  {
    forall b
      ensures b in CandidatesFor(inp, ist) <==> inp.Owns(b) && InScoredSearch(inp, ist, b)
      ensures b in FallbackCandidatesFor(inp, ist) <==> inp.Owns(b) && OfWideSearch(inp, ist, b)
    {
      CandidatesMeaning(inp, ist, b);
      FallbackMeaning(inp, ist, b);
    }
  }

  lemma MatchedByWinner(inp: Input, ist: Ist, used: set<nat>)
    requires inp.Valid()
    ensures ScoredResult(inp, ist, used).status == Matched
      <==> exists b :: WinsAmong(inp, ist, CandidatesFor(inp, ist), used, b)
  {
    DecidedWins(inp, ist, CandidatesFor(inp, ist), used);
    if b :| WinsAmong(inp, ist, CandidatesFor(inp, ist), used, b) {
      WinnerDecides(inp, ist, CandidatesFor(inp, ist), used, b);
    }
  }

  lemma NothingFree(inp: Input, ist: Ist, used: set<nat>)
    requires inp.Valid()
    ensures DecideAmong(inp, ist, CandidatesFor(inp, ist), used).status == Unmatched <==> NarrowIsTaken(inp, ist, used)
    ensures DecideAmong(inp, ist, FallbackCandidatesFor(inp, ist), used).status == Unmatched <==> WideIsTaken(inp, ist, used)
  {
    Searched(inp, ist, used);
    DecideAmongWins(inp, ist, CandidatesFor(inp, ist), used);
    DecideAmongWins(inp, ist, FallbackCandidatesFor(inp, ist), used);
  }

  lemma NarrowBank(inp: Input, ist: Ist, used: set<nat>)
    requires inp.Valid()
    ensures var m := DecideAmong(inp, ist, CandidatesFor(inp, ist), used);
      && (m.status == Unmatched ==> m == NOTHING) && (m.bank.Some? <==> m.status != Unmatched)
      && (m.bank.Some? ==>
            inp.Owns(m.bank.value) && Free(inp, used, None, m.bank.value) && InScoredSearch(inp, ist, m.bank.value))
  {
    var m := DecideAmong(inp, ist, CandidatesFor(inp, ist), used);
    DecideAmongOk(inp, ist, CandidatesFor(inp, ist), used);
    if m.bank.Some? {
      CandidatesMeaning(inp, ist, m.bank.value);
    }
  }

  lemma WideBank(inp: Input, ist: Ist, used: set<nat>)
    requires inp.Valid()
    ensures var m := DecideAmong(inp, ist, FallbackCandidatesFor(inp, ist), used);
      && (m.bank.Some? <==> m.status != Unmatched)
      && (m.bank.Some? ==>
            inp.Owns(m.bank.value) && Free(inp, used, None, m.bank.value) && OfWideSearch(inp, ist, m.bank.value))
  {
    var m := DecideAmong(inp, ist, FallbackCandidatesFor(inp, ist), used);
    DecideAmongOk(inp, ist, FallbackCandidatesFor(inp, ist), used);
    if m.bank.Some? {
      FallbackMeaning(inp, ist, m.bank.value);
    }
  }

  lemma ScoreIsDecided(inp: Input, ist: Ist, used: set<nat>)
    requires inp.Valid()
    ensures ScoreDecided(inp, ist, used, ScoredResult(inp, ist, used))
  {
    MatchedByWinner(inp, ist, used);
    NothingFree(inp, ist, used);
    NarrowBank(inp, ist, used);
    WideBank(inp, ist, used);
  }

  lemma WinnerDecides(inp: Input, ist: Ist, candidates: seq<Bank>, used: set<nat>, b: Bank)
    requires WinsAmong(inp, ist, candidates, used, b)
    ensures DecideAmong(inp, ist, candidates, used).status == Matched
  {
    var scores := Scores(inp, ist, Filter(candidates, Unused(inp, used)));
    var i: nat :| i < |scores| && Wins(inp.opts, scores, i);
    WinnerIsMatched(inp.opts, scores, i);
  }

  /** A row that is open when its turn to be scored comes gets exactly that decision. */
  lemma ScoreTurn(inp: Input, k: nat)
    requires inp.Valid() && k < |inp.rows| && Current(Stage(inp, 2), inp.rows[k]).None?
    ensures Current(Stage(inp, 3), inp.rows[k]).Some?
    ensures ScoreDecided(inp, inp.rows[k], UsedAtScoring(inp, k), Current(Stage(inp, 3), inp.rows[k]).value)
  {
    ScoredTurn(inp, k);
    ScoreIsDecided(inp, inp.rows[k], UsedAtScoring(inp, k));
  }

  // ---------------------------------------------------------------- the exhaustive fallback

  /** The banks taken when the exhaustive phase comes to row `k`. */
  ghost function UsedAtForcing(inp: Input, k: nat): set<nat>
    requires inp.Valid() && k < |inp.rows|
  {
    Fold(inp.rows, Stepper(inp, Exhaustive), Stage(inp, 3), k).used
  }

  /** The bank is nobody's, or the row's own. */
  predicate Open(inp: Input, used: set<nat>, own: Option<nat>, b: Bank) {
    inp.opts.allowManyToOne || b.index !in used || own == Some(b.index)
  }

  /** `m` is the fallback of this case on the bank that ranks first among the open ones of the tier. */
  ghost predicate FirstOf(
    inp: Input, ist: Ist, used: set<nat>, own: Option<nat>, tier: Bank -> bool, matchCase: MatchCase, m: MatchResult)
  {
    && m.bank.Some? && inp.Owns(m.bank.value) && tier(m.bank.value) && Open(inp, used, own, m.bank.value)
    && (forall c | inp.Owns(c) && tier(c) && Open(inp, used, own, c) :: RanksBefore(inp.ev, ist, m.bank.value, c))
    && m == MatchResult(NeedsReview, matchCase, ForcedScore(inp.ev, ist, m.bank.value), m.bank)
  }

  ghost predicate Offers(inp: Input, used: set<nat>, own: Option<nat>, tier: Bank -> bool) {
    exists b :: inp.Owns(b) && tier(b) && Open(inp, used, own, b)
  }

  ghost function ByAccount(inp: Input, ist: Ist): Bank -> bool {
    b => AccountTier(inp, ist, b)
  }

  ghost function ByEvidence(inp: Input, ist: Ist): Bank -> bool {
    b => EvidenceTier(inp, ist, b)
  }

  ghost function ByNearness(inp: Input, ist: Ist): Bank -> bool {
    b => NearbyTier(inp, ist, b)
  }

  /** The first tier that offers a bank decides. */
  ghost predicate FallbackDecided(inp: Input, ist: Ist, used: set<nat>, own: Option<nat>, m: MatchResult) {
    if Offers(inp, used, own, ByAccount(inp, ist)) then
      FirstOf(inp, ist, used, own, ByAccount(inp, ist), ForcedBestBankMatch, m)
    else if Offers(inp, used, own, ByEvidence(inp, ist)) then
      FirstOf(inp, ist, used, own, ByEvidence(inp, ist), AmountDescriptionFallback, m)
    else if Offers(inp, used, own, ByNearness(inp, ist)) then
      FirstOf(inp, ist, used, own, ByNearness(inp, ist), NearAmountClientMatch, m)
    else m == MatchResult(Unmatched, NoCandidate, 0.0, None)
  }

  /** Two ways to say which banks a tier has. */
  ghost predicate SameTier(inp: Input, tier: Bank -> bool, other: Bank -> bool) {
    forall b | inp.Owns(b) :: tier(b) == other(b)
  }

  lemma TierIsTold(
    inp: Input, ist: Ist, used: set<nat>, own: Option<nat>, tier: Bank -> bool, told: Bank -> bool, m: MatchResult)
    requires SameTier(inp, tier, told)
    ensures TierOpen(inp, used, own, tier) <==> Offers(inp, used, own, told)
    ensures BestOfTier(inp, ist, used, own, tier, m) ==>
      m == MatchResult(NeedsReview, m.matchCase, m.confidence, m.bank)
      && FirstOf(inp, ist, used, own, told, m.matchCase, m)
  {
  }

  lemma TiersAreTold(inp: Input, ist: Ist)
    requires inp.Valid()
    ensures SameTier(inp, Forced(inp, ist, CompatibleCodes(inp, ist)), ByAccount(inp, ist))
    ensures SameTier(inp, ByDescription(inp, ist), ByEvidence(inp, ist))
    ensures SameTier(inp, Near(inp, ist, CompatibleCodes(inp, ist)), ByNearness(inp, ist))
  {
    forall b | inp.Owns(b)
      ensures Forced(inp, ist, CompatibleCodes(inp, ist))(b) == ByAccount(inp, ist)(b)
      ensures ByDescription(inp, ist)(b) == ByEvidence(inp, ist)(b)
      ensures Near(inp, ist, CompatibleCodes(inp, ist))(b) == ByNearness(inp, ist)(b)
    {
      AccountTierMeaning(inp, ist, b);
      EvidenceTierMeaning(inp, ist, b);
      NearbyTierMeaning(inp, ist, b);
    }
  }

  lemma FallbackIsDecided(inp: Input, ist: Ist, used: set<nat>, own: Option<nat>)
    requires inp.Valid()
    ensures FallbackDecided(inp, ist, used, own, ExhaustiveResult(inp, ist, CompatibleCodes(inp, ist), used, own))
  {
    var codes := CompatibleCodes(inp, ist);
    var m := ExhaustiveResult(inp, ist, codes, used, own);
    ExhaustiveIsTierOptimal(inp, ist, codes, used, own);
    TiersAreTold(inp, ist);
    TierIsTold(inp, ist, used, own, Forced(inp, ist, codes), ByAccount(inp, ist), m);
    TierIsTold(inp, ist, used, own, ByDescription(inp, ist), ByEvidence(inp, ist), m);
    TierIsTold(inp, ist, used, own, Near(inp, ist, codes), ByNearness(inp, ist), m);
  }

  /** What the exhaustive phase makes of a row. */
  ghost predicate ForcingDecided(inp: Input, k: nat, before: MatchResult, after: MatchResult)
    requires inp.Valid() && k < |inp.rows|
  {
    var ist := inp.rows[k];
    if inp.Preserved(ist) || (before.status == Matched && before.bank.Some? && inp.Ref(before.bank.value) != "") then
      after == before
    else if OfRegister(inp.ev, ist) then
      after == if before.status == Unmatched then MatchResult(Unmatched, NoCandidate, 0.0, None) else before
    else if ist.amount.None? || ist.direction.None? then after == MatchResult(Unmatched, NoCandidate, 0.0, None)
    else FallbackDecided(inp, ist, UsedAtForcing(inp, k), OwnBank(Some(before)), after)
  }

  lemma ForcingStep(inp: Input, s: State, ist: Ist)
    requires inp.Valid() && Current(s, ist).Some?
    ensures Current(Step(inp, Exhaustive, s, ist), ist) ==
      if inp.Preserved(ist) || Settled(inp, Current(s, ist)) then Current(s, ist)
      else if IsPettyCashRow(inp.ev, ist) then
        (if Current(s, ist).value.status == Unmatched then Some(NOTHING) else Current(s, ist))
      else if ist.amount.None? || ist.direction.None? then Some(NOTHING)
      else Some(ExhaustiveResult(inp, ist, CompatibleCodes(inp, ist), s.used, OwnBank(Current(s, ist))))
  {
  }

  /** With `forceAll`, every row leaves the exhaustive phase with exactly that. */
  lemma ForcingTurn(inp: Input, k: nat)
    requires inp.Valid() && inp.opts.forceAll && k < |inp.rows|
    ensures Current(Stage(inp, 3), inp.rows[k]).Some? && Current(Stage(inp, 4), inp.rows[k]).Some?
    ensures ForcingDecided(inp, k, Current(Stage(inp, 3), inp.rows[k]).value, Current(Stage(inp, 4), inp.rows[k]).value)
  {
    var s := Stage(inp, 3);
    EveryRowHasResult(inp, k, 3);
    EveryRowHasResult(inp, k, 4);
    AfterItsTurn(inp, Exhaustive, s, k);
    BeforeItsTurn(inp, Exhaustive, s, k);
    ForcingStep(inp, Fold(inp.rows, Stepper(inp, Exhaustive), s, k), inp.rows[k]);
    FallbackIsDecided(inp, inp.rows[k], UsedAtForcing(inp, k), OwnBank(Current(s, inp.rows[k])));
  }

  /** The row is left to the three tiers. */
  ghost predicate LeftToTiers(inp: Input, ist: Ist)
    requires inp.Valid()
  {
    && !inp.Preserved(ist) && !OfRegister(inp.ev, ist) && ist.amount.Some? && ist.direction.Some?
    && !HoldsVerified(inp, Stage(inp, 3), ist)
  }

  /** Such a row is forced onto a bank exactly if an open bank agrees with it in amount, direction and currency, and in
      account: by the row's own code, or by a code that two pairs of a preserved row and a bank have taught. */
  lemma ForcedExactly(inp: Input, k: nat)
    requires inp.Valid() && inp.opts.forceAll && k < |inp.rows| && LeftToTiers(inp, inp.rows[k])
    ensures var ist, m := inp.rows[k], Current(Stage(inp, 4), inp.rows[k]);
      var own := OwnBank(Current(Stage(inp, 3), ist));
      && m.Some?
      && (m.value.matchCase == ForcedBestBankMatch <==>
            exists b :: inp.Owns(b) && AccountTier(inp, ist, b) && Open(inp, UsedAtForcing(inp, k), own, b))
      && (m.value.matchCase == ForcedBestBankMatch ==>
            && m.value.bank.Some? && inp.Owns(m.value.bank.value)
            && AccountTier(inp, ist, m.value.bank.value) && Open(inp, UsedAtForcing(inp, k), own, m.value.bank.value))
  {
    var ist, used := inp.rows[k], UsedAtForcing(inp, k);
    ForcingTurn(inp, k);
    var own := OwnBank(Current(Stage(inp, 3), ist));
    OffersByAccount(inp, ist, used, own);
  }

  lemma OffersByAccount(inp: Input, ist: Ist, used: set<nat>, own: Option<nat>)
    ensures Offers(inp, used, own, ByAccount(inp, ist)) <==>
      exists b :: inp.Owns(b) && AccountTier(inp, ist, b) && Open(inp, used, own, b)
  {
    if b :| inp.Owns(b) && AccountTier(inp, ist, b) && Open(inp, used, own, b) {
      assert ByAccount(inp, ist)(b);
    }
  }

  // ---------------------------------------------------------------- cash journals

  /** The results when the cash phase comes to row `k`. */
  ghost function AtCash(inp: Input, k: nat): State
    requires inp.Valid() && k < |inp.rows|
  {
    Fold(inp.rows, Stepper(inp, Cash), Stage(inp, 5), k)
  }

  /** The bank is open to the row and fits a cash journal within its window. */
  ghost predicate FitsCash(inp: Input, ist: Ist, used: set<nat>, own: Option<nat>, b: Bank) {
    inp.Owns(b) && InCashWindow(inp, ist, b) && Open(inp, used, own, b)
  }

  ghost predicate OnlyFit(inp: Input, ist: Ist, used: set<nat>, own: Option<nat>, b: Bank) {
    FitsCash(inp, ist, used, own, b) && forall c | FitsCash(inp, ist, used, own, c) :: c == b
  }

  /** What the cash phase makes of a row: a dated cash journal that no verified result holds takes the only bank that
      fits, unless it holds another one with a reference; every other row keeps its result. */
  ghost predicate CashDecided(inp: Input, ist: Ist, used: set<nat>, before: MatchResult, after: MatchResult) {
    if exists b :: Cashes(inp, ist, used, before, b) then
      && after.bank.Some? && Cashes(inp, ist, used, before, after.bank.value)
      && after == MatchResult(NeedsReview, CashJournalMatch, Max(0.9, ForcedScore(inp.ev, ist, after.bank.value)), after.bank)
    else after == before
  }

  ghost predicate Cashes(inp: Input, ist: Ist, used: set<nat>, before: MatchResult, b: Bank) {
    && !inp.Preserved(ist) && IsCashJournal(inp.ev, ist)
    && ist.epochDay.Some? && ist.amount.Some? && ist.direction.Some?
    && !(before.status == Matched && before.bank.Some? && inp.Ref(before.bank.value) != "")
    && OnlyFit(inp, ist, used, OwnBank(Some(before)), b)
    && (before.bank.Some? && inp.Ref(before.bank.value) != "" ==> before.bank.value.index == b.index)
  }

  lemma CashSearchIsTold(inp: Input, ist: Ist, used: set<nat>, own: Option<nat>)
    requires inp.Valid() && ist.epochDay.Some?
    ensures var found := CashSearch(inp, ist, used, own);
      && (|found| == 1 ==> OnlyFit(inp, ist, used, own, found[0]))
      && forall b | OnlyFit(inp, ist, used, own, b) :: found == [b]
  {
    var found := CashSearch(inp, ist, used, own);
    forall b
      ensures b in found <==> FitsCash(inp, ist, used, own, b)
    {
      CashSearchMeaning(inp, ist, used, own, b);
    }
    W.SearchOrder(inp.banks, ist.epochDay.value, MaxNat(inp.opts.toleranceDays, 3), CashCandidate(inp, ist, used, own));
    if |found| == 1 {
      assert found[0] in found;
    }
    forall b | OnlyFit(inp, ist, used, own, b)
      ensures found == [b]
    {
      OneOfOne(found, b);
    }
  }

  lemma CashStepIsDecided(inp: Input, s: State, ist: Ist)
    requires inp.Valid() && Current(s, ist).Some?
    ensures Current(Step(inp, Cash, s, ist), ist).Some?
    ensures CashDecided(inp, ist, s.used, Current(s, ist).value, Current(Step(inp, Cash, s, ist), ist).value)
  {
    var before := Current(s, ist);
    if CashRow(inp, ist, before) {
      var found := CashSearch(inp, ist, s.used, OwnBank(before));
      CashSearchIsTold(inp, ist, s.used, OwnBank(before));
      if |found| == 1 {
        assert found[0] in found;
      }
    }
  }

  lemma CashSweepIsDecided(inp: Input, s: State, k: nat)
    requires inp.Valid() && k < |inp.rows| && Current(s, inp.rows[k]).Some?
    ensures var r := Current(Sweep(inp, Cash, s), inp.rows[k]);
      && r.Some?
      && CashDecided(inp, inp.rows[k], Fold(inp.rows, Stepper(inp, Cash), s, k).used, Current(s, inp.rows[k]).value, r.value)
  {
    AfterItsTurn(inp, Cash, s, k);
    BeforeItsTurn(inp, Cash, s, k);
    CashStepIsDecided(inp, Fold(inp.rows, Stepper(inp, Cash), s, k), inp.rows[k]);
  }

  /** Every row leaves the cash phase with exactly that. */
  lemma CashTurn(inp: Input, k: nat)
    requires inp.Valid() && k < |inp.rows|
    ensures Current(Stage(inp, 5), inp.rows[k]).Some? && Current(Final(inp), inp.rows[k]).Some?
    ensures CashDecided(inp, inp.rows[k], AtCash(inp, k).used, Current(Stage(inp, 5), inp.rows[k]).value,
                        Current(Final(inp), inp.rows[k]).value)
  {
    EveryRowHasResult(inp, k, 5);
    CashSweepIsDecided(inp, Stage(inp, 5), k);
    LastStage(inp);
  }

  lemma LastStage(inp: Input)
    requires inp.Valid()
    ensures Final(inp) == Sweep(inp, Cash, Stage(inp, 5))
  {
  }
}
