/** Amount tolerance, the two candidate scores, and the decision taken from a list of scored candidates. */
module Scoring {
  import opened Basics
  import opened Ledger

  // ---------------------------------------------------------------- amounts

  /** Equal up to the absolute tolerance, up to the capped percentage, or after a 1% or 2% tax deduction on
      either side. */
  predicate AmountMatched(opts: Options, x: real, y: real) {
    || Abs(x - y) <= opts.amountTolerance
    || Abs(x - y) <= Min(Max(x, y) * opts.amountTolerancePercent, opts.amountToleranceCap)
    || Abs(x * 0.99 - y) <= opts.amountTolerance
    || Abs(y * 0.99 - x) <= opts.amountTolerance
    || Abs(x * 0.98 - y) <= opts.amountTolerance
    || Abs(y * 0.98 - x) <= opts.amountTolerance
  }

  /** Either side may be the gross amount: the comparison does not depend on the order, and with a tolerance
      that is not negative every amount matches itself. */
  lemma AmountMatchIsSymmetric(opts: Options, x: real, y: real)
    ensures AmountMatched(opts, x, y) == AmountMatched(opts, y, x)
    ensures opts.amountTolerance >= 0.0 ==> AmountMatched(opts, x, x)
  {
    assert Abs(x - y) == Abs(y - x) && Max(x, y) == Max(y, x);
  }

  /** The amount, direction and reference conditions every windowed or exhaustive search starts from. */
  predicate SameMoney(inp: Input, ist: Ist, b: Bank) {
    && inp.Ref(b) != ""
    && ist.amount.Some? && b.amount.Some? && AmountMatched(inp.opts, ist.amount.value, b.amount.value)
    && ist.direction.Some? && b.direction == ist.direction
  }

  // ---------------------------------------------------------------- scoreCandidate

  datatype Scored = Scored(
    bank: Bank,
    score: real,
    amountScore: real,
    dateScore: real,
    accountScore: real,
    directionScore: real,
    referenceScore: real,
    descriptionScore: real,
    partyScore: real)

  function Clamp(x: real): (r: real)
    ensures 0.0 <= r <= 1.0
    ensures 0.0 <= x <= 1.0 ==> r == x
  {
    Max(0.0, Min(1.0, x))
  }

  function AmountScore(opts: Options, ist: Ist, b: Bank): real {
    if ist.amount.Some? && b.amount.Some? && AmountMatched(opts, ist.amount.value, b.amount.value) then 1.0 else 0.0
  }

  function DateScore(opts: Options, ist: Ist, b: Bank): real {
    match DayGap(ist, b)
    case None => 0.0
    case Some(gap) =>
      if gap == 0 then 1.0
      else if gap <= opts.toleranceDays then (if gap <= 2 then 0.85 else 0.75)
      else 0.0
  }

  /** A date scores exactly when one of the bank's dates lies within the tolerance. */
  lemma DateScoreMeaning(opts: Options, ist: Ist, b: Bank)
    ensures DateScore(opts, ist, b) > 0.0 <==>
      ist.epochDay.Some? && WithinDays(b, ist.epochDay.value, opts.toleranceDays)
    ensures DateScore(opts, ist, b) >= 0.0
  {
  }

  function PartyScore(ev: Evidence, ist: Ist, b: Bank): real {
    Max(ev.similarity(ist.partyText, b.partyText), ev.similarity(ist.partyText, b.description))
  }

  function HintBonus(inp: Input, ist: Ist, b: Bank): real {
    var hints := inp.ev.normalizeText(ist.hintText);
    if hints != "" && inp.Ref(b) != "" && Contains(hints, inp.Ref(b)) then 0.05 else 0.0
  }

  function ScoreCandidate(inp: Input, ist: Ist, b: Bank): Scored {
    var amount := AmountScore(inp.opts, ist, b);
    var date := DateScore(inp.opts, ist, b);
    var account := inp.ev.accountScore(ist.accountCode, b.accountCode);
    var direction := if ist.direction.Some? && ist.direction == b.direction then 1.0 else 0.0;
    var reference := inp.ev.referenceScore(ist, b);
    var description := inp.ev.similarity(ist.searchText, b.searchText);
    var party := PartyScore(inp.ev, ist, b);
    var score := Clamp(amount * 0.3 + date * 0.18 + account * 0.13 + direction * 0.1 + reference * 0.12
                       + description * 0.09 + party * 0.08 + HintBonus(inp, ist, b));
    Scored(b, score, amount, date, account, direction, reference, description, party)
  }

  // ---------------------------------------------------------------- decideScoredMatch

  function ByScore(s: Scored): Rank {
    Rank(s.score, 0.0, 0.0)
  }

  function Ambiguous(s: Scored): MatchResult {
    MatchResult(NeedsReview, IncorrectOrAmbiguousLink, s.score, Some(s.bank))
  }

  predicate LacksIndependentEvidence(s: Scored) {
    s.dateScore < 1.0 && s.referenceScore < 0.75 && s.descriptionScore < 0.18 && s.partyScore < 0.18
  }

  predicate StrongIndependentEvidence(s: Scored) {
    s.referenceScore >= 0.75 || s.descriptionScore >= 0.3 || s.partyScore >= 0.3
  }

  function Decide(opts: Options, candidates: seq<Scored>): MatchResult {
    if |candidates| == 0 then MatchResult(Unmatched, NoCandidate, 0.0, None) else
    var i := Foremost(candidates, ByScore);
    var best := candidates[i];
    var rest := candidates[..i] + candidates[i + 1..];
    if best.score < opts.confidenceThreshold then Ambiguous(best)
    else if |rest| > 0 && best.score - rest[Foremost(rest, ByScore)].score < 0.05 then Ambiguous(best)
    else if best.amountScore != 1.0 || best.directionScore != 1.0 then Ambiguous(best)
    else if LacksIndependentEvidence(best) && best.accountScore < 0.8 then Ambiguous(best)
    else if best.accountScore < 0.8 && !StrongIndependentEvidence(best) then Ambiguous(best)
    else
      var strict := best.dateScore > 0.0 && best.accountScore >= 0.75;
      var matchCase :=
        if strict && best.accountScore == 1.0 then AccountDateAmountMatch
        else if strict then DateAmountTermsMatch
        else FuzzyProbableMatch;
      MatchResult(Matched, matchCase, best.score, Some(best.bank))
  }

  predicate IsScoredCase(c: MatchCase) {
    c in {AccountDateAmountMatch, DateAmountTermsMatch, FuzzyProbableMatch}
  }

  /** What the name of a scored case says of the bank's date and account; exactly one of the three applies. */
  predicate NameHolds(matchCase: MatchCase, c: Scored) {
    match matchCase
    case AccountDateAmountMatch => c.dateScore > 0.0 && c.accountScore == 1.0
    case DateAmountTermsMatch => c.dateScore > 0.0 && c.accountScore >= 0.75 && c.accountScore != 1.0
    case FuzzyProbableMatch => c.dateScore <= 0.0 || c.accountScore < 0.75
    case _ => false
  }

  /** Scores that make a match of a candidate without rivals. */
  predicate Convinces(opts: Options, c: Scored) {
    && c.score >= opts.confidenceThreshold
    && c.amountScore == 1.0 && c.directionScore == 1.0
    && (c.accountScore >= 0.8 || (!LacksIndependentEvidence(c) && StrongIndependentEvidence(c)))
  }

  /** What makes one candidate win outright. */
  ghost predicate Wins(opts: Options, candidates: seq<Scored>, i: nat)
    requires i < |candidates|
  {
    var c := candidates[i];
    && Convinces(opts, c)
    && forall j | 0 <= j < |candidates| && j != i :: candidates[j].score <= c.score - 0.05
  }

  /** The runner-up compared with the best is the best of the others. */
  lemma RunnerUp(candidates: seq<Scored>, i: nat)
    requires i < |candidates| && 1 < |candidates|
    ensures var rest := candidates[..i] + candidates[i + 1..];
      var r := Foremost(rest, ByScore);
      && (forall j | 0 <= j < |candidates| && j != i :: candidates[j].score <= rest[r].score)
      && (exists j | 0 <= j < |candidates| :: j != i && candidates[j] == rest[r])
  {
    var rest := candidates[..i] + candidates[i + 1..];
    var r := Foremost(rest, ByScore);
    ForemostIsBest(rest, ByScore);
    forall j | 0 <= j < |candidates| && j != i
      ensures candidates[j].score <= rest[r].score
    {
      var k := if j < i then j else j - 1;
      assert candidates[j] == rest[k];
      assert !Below(ByScore(rest[r]), ByScore(rest[k]));
    }
    assert rest[r] == candidates[if r < i then r else r + 1];
  }

  lemma TopScore(candidates: seq<Scored>)
    requires |candidates| > 0
    ensures forall j | 0 <= j < |candidates| :: candidates[j].score <= candidates[Foremost(candidates, ByScore)].score
  {
    ForemostIsBest(candidates, ByScore);
    assert forall j | 0 <= j < |candidates| ::
        !Below(ByScore(candidates[Foremost(candidates, ByScore)]), ByScore(candidates[j]));
  }

  /** A candidate that wins outright is the match, under the name that its date and account earn. */
  lemma WinnerIsMatched(opts: Options, candidates: seq<Scored>, i: nat)
    requires i < |candidates| && Wins(opts, candidates, i)
    ensures var m := Decide(opts, candidates);
      && m.status == Matched && IsScoredCase(m.matchCase)
      && m.bank == Some(candidates[i].bank) && m.confidence == candidates[i].score
      && forall c: MatchCase :: m.matchCase == c <==> NameHolds(c, candidates[i])
  {
    var best := Foremost(candidates, ByScore);
    TopScore(candidates);
    assert best == i;
    if |candidates| > 1 {
      RunnerUp(candidates, i);
    }
  }

  /** A match always has a candidate that wins outright. */
  lemma MatchedHasWinner(opts: Options, candidates: seq<Scored>)
    requires Decide(opts, candidates).status == Matched
    ensures |candidates| > 0 && Wins(opts, candidates, Foremost(candidates, ByScore))
  {
    var i := Foremost(candidates, ByScore);
    if |candidates| > 1 {
      RunnerUp(candidates, i);
    }
  }

  /** A candidate list is matched exactly when one candidate wins outright, and then that candidate is the
      match, named after its date and account; with no candidate the row is unmatched; otherwise a top scorer is
      put up for review. */
  lemma DecideMeaning(opts: Options, candidates: seq<Scored>)
    ensures var m := Decide(opts, candidates);
      && (m.status.Unmatched? <==> |candidates| == 0)
      && (m.status.Unmatched? <==> m.bank.None?)
      && (m.status.Matched? <==> exists i: nat | i < |candidates| :: Wins(opts, candidates, i))
      && (m.status.Matched? <==> IsScoredCase(m.matchCase))
      && (forall i: nat, c: MatchCase | i < |candidates| && Wins(opts, candidates, i) ::
            m.matchCase == c <==> NameHolds(c, candidates[i]))
      && (m.status.Unmatched? <==> m.matchCase == NoCandidate)
      && (m.status.NeedsReview? <==> m.matchCase == IncorrectOrAmbiguousLink)
      && (m.bank.Some? ==> exists i: nat | i < |candidates| ::
            && m.bank.value == candidates[i].bank && m.confidence == candidates[i].score
            && forall j | 0 <= j < |candidates| :: candidates[j].score <= candidates[i].score)
  {
    if |candidates| > 0 {
      TopScore(candidates);
    }
    if Decide(opts, candidates).status.Matched? {
      MatchedHasWinner(opts, candidates);
    }
    forall i: nat | i < |candidates| && Wins(opts, candidates, i)
      ensures Decide(opts, candidates).status.Matched?
      ensures forall c: MatchCase :: Decide(opts, candidates).matchCase == c <==> NameHolds(c, candidates[i])
    {
      WinnerIsMatched(opts, candidates, i);
    }
  }

  // ---------------------------------------------------------------- forcedCandidateScore

  /** Number.MAX_SAFE_INTEGER: the difference recorded when an amount is missing. */
  const MISSING_DIFFERENCE := 9007199254740991.0

  const MISSING_GAP: nat := 3650

  function AmountDifference(ist: Ist, b: Bank): real {
    if ist.amount.None? || b.amount.None? then MISSING_DIFFERENCE
    else Abs(ist.amount.value - b.amount.value)
  }

  function AmountScale(ist: Ist, b: Bank): (r: real)
    ensures r >= 1.0
  {
    Max(1.0, Max(if ist.amount.Some? then ist.amount.value else 0.0, if b.amount.Some? then b.amount.value else 0.0))
  }

  function DateDifference(ist: Ist, b: Bank): nat {
    match DayGap(ist, b)
    case None => MISSING_GAP
    case Some(gap) => gap
  }

  function RelativeDifference(ist: Ist, b: Bank): (r: real)
    ensures r >= 0.0
  {
    AmountDifference(ist, b) / AmountScale(ist, b)
  }

  /** The weighted sum before it is cut off at 0 and 1. */
  function ForcedSum(ev: Evidence, ist: Ist, b: Bank): real {
    var amount := 1.0 / (1.0 + RelativeDifference(ist, b) * 12.0);
    var date := 1.0 / (1.0 + DateDifference(ist, b) as real / 7.0);
    amount * 0.45 + date * 0.25 + ev.referenceScore(ist, b) * 0.12 + PartyScore(ev, ist, b) * 0.12
    + ev.similarity(ist.searchText, b.searchText) * 0.06
    + (if ist.direction == b.direction then 0.1 else 0.0)
  }

  function ForcedScore(ev: Evidence, ist: Ist, b: Bank): (r: real)
    ensures 0.0 <= r <= 1.0
  {
    Clamp(ForcedSum(ev, ist, b))
  }

  /** Where the weights put their emphasis: equal amount, day and direction alone score 0.80 and full
      reference and client evidence carries them past 1, where the score is cut off; without date or text
      evidence an equal amount in the same direction stays at 0.55 plus a quarter divided among the days. */
  lemma ForcedScoreAnchors(ev: Evidence, ist: Ist, b: Bank)
    requires AmountDifference(ist, b) == 0.0 && ist.direction == b.direction
    requires ev.similarity(ist.searchText, b.searchText) == 0.0
    ensures DateDifference(ist, b) == 0 && ev.referenceScore(ist, b) == 0.0 && PartyScore(ev, ist, b) == 0.0 ==>
      ForcedScore(ev, ist, b) == 0.8
    ensures DateDifference(ist, b) == 0 && ev.referenceScore(ist, b) == 1.0 && PartyScore(ev, ist, b) == 1.0 ==>
      ForcedScore(ev, ist, b) == 1.0
    ensures ev.referenceScore(ist, b) == 0.0 && PartyScore(ev, ist, b) == 0.0 ==>
      0.55 <= ForcedScore(ev, ist, b) == 0.55 + 0.25 * 7.0 / (7.0 + DateDifference(ist, b) as real) <= 0.8
  {
    assert RelativeDifference(ist, b) == 0.0;
    var days := DateDifference(ist, b) as real;
    assert 1.0 / (1.0 + days / 7.0) == 7.0 / (7.0 + days);
    ReciprocalOrder(7.0, 7.0 + days);
    assert 0.0 < 7.0 / (7.0 + days) <= 1.0;
  }

  lemma ReciprocalOrder(x: real, y: real)
    requires 0.0 < x <= y
    ensures 1.0 / y <= 1.0 / x
  {
    assert 1.0 / y * (y / x) == 1.0 / x;
  }

  /** Two banks the row's text cannot tell apart, in the same direction. */
  ghost predicate SameText(ev: Evidence, ist: Ist, b: Bank, c: Bank) {
    && ev.referenceScore(ist, b) == ev.referenceScore(ist, c)
    && PartyScore(ev, ist, b) == PartyScore(ev, ist, c)
    && ev.similarity(ist.searchText, b.searchText) == ev.similarity(ist.searchText, c.searchText)
    && b.direction == c.direction
  }

  /** The weights add up to 1.10, and clamping at 1 never turns a dominating candidate into a lower-scored
      one: relatively closer in amount and at least as close in days never scores lower. */
  lemma ForcedScoreMonotone(ev: Evidence, ist: Ist, b: Bank, c: Bank)
    requires SameText(ev, ist, b, c)
    requires RelativeDifference(ist, b) <= RelativeDifference(ist, c)
    requires DateDifference(ist, b) <= DateDifference(ist, c)
    ensures ForcedScore(ev, ist, c) <= ForcedScore(ev, ist, b)
  {
    ReciprocalOrder(1.0 + RelativeDifference(ist, b) * 12.0, 1.0 + RelativeDifference(ist, c) * 12.0);
    ReciprocalOrder(1.0 + DateDifference(ist, b) as real / 7.0, 1.0 + DateDifference(ist, c) as real / 7.0);
  }

  function ByForcedRank(ev: Evidence, ist: Ist): Bank -> Rank {
    b => Rank(ForcedScore(ev, ist, b), -AmountDifference(ist, b), -(DateDifference(ist, b) as real))
  }

  lemma FractionOrder(d: real, s: real, e: real, t: real)
    requires s > 0.0 && t > 0.0
    ensures d / s <= e / t <==> d * t <= e * s
  {
    var x, y := d / s, e / t;
    assert x * s == d && y * t == e;
    ProductOrder(x, y, s, t);
  }

  lemma ProductOrder(x: real, y: real, s: real, t: real)
    requires s > 0.0 && t > 0.0
    ensures x <= y <==> x * s * t <= y * t * s
  {
    var p := s * t;
    assert p > 0.0;
    assert x * s * t == x * p && y * t * s == y * p;
    if x <= y {
      assert x * p <= y * p;
    } else {
      assert y * p < x * p;
    }
  }

  /** A row and two banks with known, non-negative amounts. */
  predicate Amounts(ist: Ist, b: Bank, c: Bank) {
    && ist.amount.Some? && b.amount.Some? && c.amount.Some?
    && ist.amount.value >= 0.0 && b.amount.value >= 0.0 && c.amount.value >= 0.0
  }

  lemma RelativeOrder(ist: Ist, b: Bank, c: Bank)
    requires Amounts(ist, b, c)
    ensures RelativeDifference(ist, b) <= RelativeDifference(ist, c) <==>
      AmountDifference(ist, b) * AmountScale(ist, c) <= AmountDifference(ist, c) * AmountScale(ist, b)
  {
    FractionOrder(AmountDifference(ist, b), AmountScale(ist, b), AmountDifference(ist, c), AmountScale(ist, c));
  }

  lemma OneSideOrder(ist: Ist, b: Bank, c: Bank)
    requires Amounts(ist, b, c)
    requires
      var a, x, y := ist.amount.value, b.amount.value, c.amount.value;
      a <= x <= y || y <= x <= a
    ensures RelativeDifference(ist, b) <= RelativeDifference(ist, c)
  {
    var a, x, y := ist.amount.value, b.amount.value, c.amount.value;
    RelativeOrder(ist, b, c);
    if a <= x <= y {
      AboveOrder(a, x, y);
    }
  }

  lemma AboveOrder(a: real, x: real, y: real)
    requires 0.0 <= a <= x <= y
    ensures (x - a) * Max(1.0, y) <= (y - a) * Max(1.0, x)
  {
    if x > 1.0 {
      assert a * x <= a * y;
    } else if y > 1.0 {
      assert x * y <= y && a <= a * y;
    }
  }

  /** On one side of the row's amount the relative measure agrees with the absolute one, so there the bank
      that is nearer in money and in days always ranks at least as high, ties included. */
  lemma NearerOnOneSideRanksFirst(ev: Evidence, ist: Ist, b: Bank, c: Bank)
    requires SameText(ev, ist, b, c) && Amounts(ist, b, c)
    requires
      var a, x, y := ist.amount.value, b.amount.value, c.amount.value;
      a <= x <= y || y <= x <= a
    requires DateDifference(ist, b) <= DateDifference(ist, c)
    ensures !Below(ByForcedRank(ev, ist)(b), ByForcedRank(ev, ist)(c))
  {
    OneSideOrder(ist, b, c);
    ForcedScoreMonotone(ev, ist, b, c);
    assert AmountDifference(ist, b) <= AmountDifference(ist, c);
  }

  lemma StrictReciprocal(x: real, y: real)
    requires 0.0 < x < y
    ensures 1.0 / y < 1.0 / x
  {
    assert 1.0 / y * (y / x) == 1.0 / x;
    assert y / x > 1.0;
  }

  /** With equal text and days, the unclamped sum orders two banks by relative difference alone. */
  lemma SumFollowsRelative(ev: Evidence, ist: Ist, b: Bank, c: Bank)
    requires SameText(ev, ist, b, c) && DateDifference(ist, b) == DateDifference(ist, c)
    ensures RelativeDifference(ist, c) < RelativeDifference(ist, b) <==> ForcedSum(ev, ist, b) < ForcedSum(ev, ist, c)
  {
    var x, y := 1.0 + RelativeDifference(ist, b) * 12.0, 1.0 + RelativeDifference(ist, c) * 12.0;
    if y < x {
      StrictReciprocal(y, x);
    } else {
      ReciprocalOrder(x, y);
    }
  }

  lemma AcrossParts(ist: Ist, b: Bank, c: Bank)
    requires Amounts(ist, b, c) && b.amount.value <= ist.amount.value <= c.amount.value
    ensures var a := ist.amount.value;
      && AmountDifference(ist, b) == a - b.amount.value && AmountDifference(ist, c) == c.amount.value - a
      && AmountScale(ist, b) == Max(1.0, a) <= AmountScale(ist, c) == Max(1.0, c.amount.value)
  {
  }

  lemma AcrossByRelative(ist: Ist, b: Bank, c: Bank)
    requires Amounts(ist, b, c) && AmountScale(ist, b) <= AmountScale(ist, c)
    ensures RelativeDifference(ist, c) < RelativeDifference(ist, b) <==>
      AmountDifference(ist, c) * AmountScale(ist, b) < AmountDifference(ist, b) * AmountScale(ist, c)
    ensures RelativeDifference(ist, c) == RelativeDifference(ist, b) ==>
      AmountDifference(ist, b) <= AmountDifference(ist, c)
  {
    var d, s, e, t := AmountDifference(ist, b), AmountScale(ist, b), AmountDifference(ist, c), AmountScale(ist, c);
    RelativeOrder(ist, b, c);
    RelativeOrder(ist, c, b);
    if d * t == e * s {
      SmallerOfEqualProducts(d, t, e, s);
    }
  }

  /** Both sums are cut off at the same end, so the scores tie. */
  predicate CutAlike(x: real, y: real) {
    (x >= 1.0 && y >= 1.0) || (x <= 0.0 && y <= 0.0)
  }

  lemma RankAtEqualDays(ev: Evidence, ist: Ist, b: Bank, c: Bank)
    requires DateDifference(ist, b) == DateDifference(ist, c)
    ensures Below(ByForcedRank(ev, ist)(b), ByForcedRank(ev, ist)(c)) <==>
      var x, y := ForcedSum(ev, ist, b), ForcedSum(ev, ist, c);
      if CutAlike(x, y) then AmountDifference(ist, b) > AmountDifference(ist, c)
      else x < y || (x == y && AmountDifference(ist, b) > AmountDifference(ist, c))
  {
  }

  lemma AcrossRank(ev: Evidence, ist: Ist, b: Bank, c: Bank)
    requires SameText(ev, ist, b, c) && Amounts(ist, b, c) && DateDifference(ist, b) == DateDifference(ist, c)
    requires AmountScale(ist, b) <= AmountScale(ist, c)
    ensures Below(ByForcedRank(ev, ist)(b), ByForcedRank(ev, ist)(c)) <==>
      if CutAlike(ForcedSum(ev, ist, b), ForcedSum(ev, ist, c)) then AmountDifference(ist, c) < AmountDifference(ist, b)
      else AmountDifference(ist, c) * AmountScale(ist, b) < AmountDifference(ist, b) * AmountScale(ist, c)
  {
    AcrossByRelative(ist, b, c);
    SumFollowsRelative(ev, ist, b, c);
    SumFollowsRelative(ev, ist, c, b);
    RankAtEqualDays(ev, ist, b, c);
  }

  /** Across the two sides the ranking can go against the absolute difference, exactly here: unless the scores
      tie by being cut off alike, a bank `d` below the row's amount `a` ranks under one `e` above it precisely
      when e * max(1, a) < d * max(1, a + e). From a == 1 on that reads e * a < d * (a + e), which some d < e
      satisfy. */
  lemma AcrossSidesExactly(ev: Evidence, ist: Ist, b: Bank, c: Bank)
    requires SameText(ev, ist, b, c) && Amounts(ist, b, c) && DateDifference(ist, b) == DateDifference(ist, c)
    requires b.amount.value <= ist.amount.value <= c.amount.value
    ensures var a := ist.amount.value;
      var d, e := a - b.amount.value, c.amount.value - a;
      Below(ByForcedRank(ev, ist)(b), ByForcedRank(ev, ist)(c)) <==>
        if CutAlike(ForcedSum(ev, ist, b), ForcedSum(ev, ist, c)) then e < d
        else e * Max(1.0, a) < d * Max(1.0, c.amount.value)
  {
    AcrossParts(ist, b, c);
    AcrossRank(ev, ist, b, c);
  }

  lemma SmallerOfEqualProducts(d: real, s: real, e: real, t: real)
    requires d * s == e * t && s >= t >= 1.0 && d >= 0.0
    ensures d <= e
  {
    assert d * s >= d * t;
    ProductOrder(d, e, t, 1.0);
  }

  function Priced(amount: real): Bank {
    Bank(0, "REF1", "", "", "", "", "", None, None, Some(amount), None, "", "", "", "")
  }

  /** So a bank 5 below an amount of 10 is nearer than one 8 above it and still ranks under it. */
  lemma NearerAcrossSidesMayRankLower()
    ensures var ist := Ist(2, "", "", "", "", "", "", "", "", None, Some(10.0), None, "", "", [], "", "", "", []);
      && AmountDifference(ist, Priced(5.0)) == 5.0 && AmountDifference(ist, Priced(18.0)) == 8.0
      && Below(ByForcedRank(PLAIN, ist)(Priced(5.0)), ByForcedRank(PLAIN, ist)(Priced(18.0)))
  {
    var ist := Ist(2, "", "", "", "", "", "", "", "", None, Some(10.0), None, "", "", [], "", "", "", []);
    var b, c := Priced(5.0), Priced(18.0);
    assert RelativeDifference(ist, b) == 0.5 && RelativeDifference(ist, c) == 8.0 / 18.0;
    assert DateDifference(ist, b) == DateDifference(ist, c) == MISSING_GAP;
    var date := 1.0 / (1.0 + 3650.0 / 7.0);
    assert 0.0 < date < 1.0;
    AcrossSidesExactly(PLAIN, ist, b, c);
  }
}
