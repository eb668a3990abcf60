/** Why each row ended with its result: every match case carries evidence that still holds at the end. */
module Certificates {
  import opened Basics
  import opened Ledger
  import opened Scoring
  import opened Phases
  import opened Criteria
  import opened Invariants
  import opened Guarantees
  import RM = ReferenceMatching

  /** The two texts-and-references conditions of a direct link. */
  ghost predicate Linked(inp: Input, ist: Ist, b: Bank) {
    RM.RefOccurs(inp, ist.directSearchTexts, b) || RM.RowTextOccurs(inp, ist.row, b)
  }

  /** The bank's reference is one of the row's five reference fields, letter for letter. */
  predicate ExactField(inp: Input, ist: Ist, b: Bank) {
    exists t | t in [ist.paymentReference, ist.document, ist.invoice, ist.voucher, ist.operationNo] ::
      inp.ev.compact(t) == inp.Ref(b)
  }

  /** A direct link counts as verified exactly when a whole field equals the reference. */
  lemma DirectRuleMeaning(inp: Input, ist: Ist, b: Bank)
    requires inp.Ref(b) != ""
    ensures RuleConfidence(inp, ist, b) >= 0.9 <==> ExactField(inp, ist, b)
    ensures RuleConfidence(inp, ist, b) == 1.0 <==> inp.ev.compact(ist.paymentReference) == inp.Ref(b)
    ensures RuleConfidence(inp, ist, b) == 0.95 <==>
      && inp.ev.compact(ist.paymentReference) != inp.Ref(b)
      && (inp.ev.compact(ist.document) == inp.Ref(b) || inp.ev.compact(ist.invoice) == inp.Ref(b))
    ensures RuleConfidence(inp, ist, b) == 0.9 <==>
      && inp.ev.compact(ist.paymentReference) != inp.Ref(b)
      && inp.ev.compact(ist.document) != inp.Ref(b) && inp.ev.compact(ist.invoice) != inp.Ref(b)
      && (inp.ev.compact(ist.voucher) == inp.Ref(b) || inp.ev.compact(ist.operationNo) == inp.Ref(b))
    ensures RuleConfidence(inp, ist, b) == 0.85 <==>
      && !ExactField(inp, ist, b) && |inp.ev.compact(ist.paymentReference)| >= 4
      && (Contains(inp.ev.compact(ist.paymentReference), inp.Ref(b))
          || Contains(inp.Ref(b), inp.ev.compact(ist.paymentReference)))
    ensures RuleConfidence(inp, ist, b) in {0.8, 0.85, 0.9, 0.95, 1.0}
  {
    var fields := [ist.paymentReference, ist.document, ist.invoice, ist.voucher, ist.operationNo];
    assert fields[0] in fields && fields[1] in fields && fields[2] in fields && fields[3] in fields && fields[4] in fields;
  }

  ghost predicate DirectCertificate(inp: Input, ist: Ist, m: MatchResult) {
    && m.bank.Some? && inp.Owns(m.bank.value) && inp.Ref(m.bank.value) != ""
    && Linked(inp, ist, m.bank.value)
    && m.confidence == RuleConfidence(inp, ist, m.bank.value)
    && m.status == (if ExactField(inp, ist, m.bank.value) then Matched else NeedsReview)
  }

  /** The result of a row that came with a reference: the best placed of the banks found for it, or none if there are
      none. */
  ghost predicate PreservedCertificate(inp: Input, ist: Ist, m: MatchResult)
    requires inp.Valid()
  {
    && inp.Preserved(ist) && m == PreservedMatch(inp, ist)
    && var found := RM.Find(inp, [ist.paymentReference], ist.row);
      if |found| == 0 then m == MatchResult(NeedsReview, ExistingReferencePreserved, 0.5, None)
      else
        && m == MatchResult(Matched, ExistingReferencePreserved, 1.0, m.bank)
        && m.bank.Some? && IsBestPlaced(inp, ist, found, m.bank.value)
  }

  /** Group `j` of the phase had this bank to choose at its turn: all free candidates carried its reference, and it is
      the best placed of them for the group's first row. */
  ghost predicate Unrivalled(inp: Input, j: nat, b: Bank)
    requires inp.Valid()
  {
    var open := Stage(inp, 1);
    && j < |GroupKeys(inp, open, |inp.rows|)|
    && var group := GroupAt(inp, open, j);
      && GroupMay(inp, group, GroupSweep(inp, open, j).used, b)
      && (forall c | GroupMay(inp, group, GroupSweep(inp, open, j).used, c) :: inp.Ref(c) == inp.Ref(b))
      && IsBestPlaced(inp, group[0], GroupSearch(inp, group, GroupSweep(inp, open, j).used), b)
  }

  /** The rows of group number `j`. */
  ghost function GroupAt(inp: Input, s: State, j: nat): (group: seq<Ist>)
    requires j < |GroupKeys(inp, s, |inp.rows|)|
    ensures |group| > 0 && group[0].epochDay.Some?
  {
    GroupIsInhabited(inp, s, GroupKeys(inp, s, |inp.rows|)[j]);
    GroupOf(inp, s, GroupKeys(inp, s, |inp.rows|)[j])
  }

  /** The group is a set of 2 to 50 rows that were all open after the first phase and agree in day, account,
      direction and client; their amounts add up to the bank's; no other reference was on offer at the group's
      turn; and every one of its rows holds this result. */
  ghost predicate GroupCertificate(inp: Input, s: State, ist: Ist, m: MatchResult)
    requires inp.Valid()
  {
    var open := Stage(inp, 1);
    && Groupable(inp, open, ist)
    && m.bank.Some? && inp.Owns(m.bank.value) && m == GroupedResult(m.bank.value)
    && var group := GroupOf(inp, open, KeyOf(inp.ev, ist));
      && 2 <= |group| <= 50
      && ist in group
      && GroupFits(inp, group, m.bank.value)
      && WithinDays(m.bank.value, ist.epochDay.value, inp.opts.toleranceDays)
      && (forall r | r in group :: r in inp.rows && Current(s, r) == Some(m))
      && exists j: nat :: Unrivalled(inp, j, m.bank.value) && GroupAt(inp, open, j) == group
  }

  /** The bank came from one of the two searches and the confidence is its score. */
  ghost predicate ScoredCertificate(inp: Input, ist: Ist, m: MatchResult) {
    && m.bank.Some? && inp.Owns(m.bank.value)
    && m.status != Unmatched
    && (InScoredSearch(inp, ist, m.bank.value) || InFallbackSearch(inp, ist, m.bank.value))
    && m.confidence == ScoreCandidate(inp, ist, m.bank.value).score
  }

  /** The bank's scores earn the case, and the narrow search makes the match: from the 30-day search the result is
      up for review. */
  ghost predicate EarnedCertificate(inp: Input, ist: Ist, m: MatchResult) {
    && ScoredCertificate(inp, ist, m)
    && Earned(inp, ist, m.matchCase, m.bank.value)
    && (m.status == Matched <==> InScoredSearch(inp, ist, m.bank.value))
  }

  ghost predicate InCashWindow(inp: Input, ist: Ist, b: Bank) {
    && CashFits(inp, ist, b)
    && ist.epochDay.Some?
    && (WithinDays(b, ist.epochDay.value, inp.opts.toleranceDays) || WithinDays(b, ist.epochDay.value, 3))
  }

  /** The only candidate: any other bank that would qualify is used. */
  ghost predicate CashCertificate(inp: Input, s: State, ist: Ist, m: MatchResult) {
    && m.status == NeedsReview && m.bank.Some? && inp.Owns(m.bank.value)
    && IsCashJournal(inp.ev, ist) && InCashWindow(inp, ist, m.bank.value)
    && m.confidence >= 0.9 && m.confidence >= ForcedScore(inp.ev, ist, m.bank.value)
    && m.confidence in {0.9, ForcedScore(inp.ev, ist, m.bank.value)}
    && forall b: Bank | inp.Owns(b) && InCashWindow(inp, ist, b) && b != m.bank.value ::
         !inp.opts.allowManyToOne && b.index in s.used
  }

  ghost predicate FallbackCertificate(inp: Input, ist: Ist, m: MatchResult) {
    && !OfRegister(inp.ev, ist)
    && m.status == NeedsReview && m.bank.Some? && inp.Owns(m.bank.value)
    && m.confidence == ForcedScore(inp.ev, ist, m.bank.value)
    && (m.matchCase == ForcedBestBankMatch ==> AccountTier(inp, ist, m.bank.value))
    && (m.matchCase == AmountDescriptionFallback ==> EvidenceTier(inp, ist, m.bank.value))
    && (m.matchCase == NearAmountClientMatch ==> NearbyTier(inp, ist, m.bank.value))
  }

  ghost predicate Certificate(inp: Input, s: State, ist: Ist, m: MatchResult)
    requires inp.Valid()
  {
    match m.matchCase
    case ExistingReferencePreserved => PreservedCertificate(inp, ist, m)
    case DirectReferenceMatch => DirectCertificate(inp, ist, m)
    case GroupedSettlementMatch => GroupCertificate(inp, s, ist, m)
    case AccountDateAmountMatch => EarnedCertificate(inp, ist, m)
    case DateAmountTermsMatch => EarnedCertificate(inp, ist, m)
    case FuzzyProbableMatch => EarnedCertificate(inp, ist, m)
    case IncorrectOrAmbiguousLink =>
      && m.status == NeedsReview
      && (if m.bank.Some? then ScoredCertificate(inp, ist, m) else exists b :: inp.Owns(b) && Linked(inp, ist, b))
    case ForcedBestBankMatch => FallbackCertificate(inp, ist, m)
    case AmountDescriptionFallback => FallbackCertificate(inp, ist, m)
    case NearAmountClientMatch => FallbackCertificate(inp, ist, m)
    case CashJournalMatch => CashCertificate(inp, s, ist, m)
    case NoCandidate => m == NOTHING
  }

  ghost predicate Certified(inp: Input, s: State)
    requires inp.Valid()
  {
    forall i | 0 <= i < |inp.rows| :: CertifiedAt(inp, s, inp.rows[i])
  }

  ghost predicate CertifiedAt(inp: Input, s: State, ist: Ist)
    requires inp.Valid()
  {
    Current(s, ist).Some? ==> Certificate(inp, s, ist, Current(s, ist).value)
  }

  // ---------------------------------------------------------------- certificates outlive later steps

  /** A certificate stays valid while results evolve and no bank is given back. */
  lemma CertificateLasts(inp: Input, s: State, t: State, ist: Ist, m: MatchResult)
    requires inp.Valid() && Evolves(inp, s, t) && Certificate(inp, s, ist, m)
    requires s.used <= t.used || m.matchCase != CashJournalMatch
    ensures Certificate(inp, t, ist, m)
  {
    if m.matchCase == GroupedSettlementMatch {
      var group := GroupOf(inp, Stage(inp, 1), KeyOf(inp.ev, ist));
      forall r | r in group
        ensures r in inp.rows && Current(t, r) == Some(m)
      {
        assert r in inp.rows && Current(s, r) == Some(m);
        var i :| 0 <= i < |inp.rows| && inp.rows[i] == r;
        assert Current(s, inp.rows[i]).Some?;
        assert EvolvesAt(inp, s, t, inp.rows[i]);
        assert inp.Ref(m.bank.value) != "" && Settled(inp, Current(s, r));
      }
    }
  }

  // ---------------------------------------------------------------- each phase certifies what it records

  lemma DirectIsCertified(inp: Input, ist: Ist, s: State)
    requires inp.Valid() && !inp.Preserved(ist)
    ensures var r := DirectResult(inp, ist, RM.Find(inp, ist.directSearchTexts, ist.row), s.used);
      r.Some? ==>
        (r.value.matchCase == DirectReferenceMatch && DirectCertificate(inp, ist, r.value))
        || (r.value == MatchResult(NeedsReview, IncorrectOrAmbiguousLink, 1.0, None)
            && exists b :: inp.Owns(b) && Linked(inp, ist, b))
  {
    var found := RM.Find(inp, ist.directSearchTexts, ist.row);
    var available := Filter(found, Available(inp, s.used));
    var best := BestDirect(inp, ist, available);
    BestDirectIsCandidate(inp, ist, available);
    if best.Some? {
      InFilter(found, Available(inp, s.used));
      RM.FindMeaning(inp, ist.directSearchTexts, ist.row, best.value);
      DirectRuleMeaning(inp, ist, best.value);
    } else if |found| > 0 {
      RM.FindMeaning(inp, ist.directSearchTexts, ist.row, found[0]);
      assert inp.Owns(found[0]) && Linked(inp, ist, found[0]);
    }
  }

  lemma ScoredIsCertified(inp: Input, ist: Ist, used: set<nat>, t: State)
    requires inp.Valid()
    ensures Certificate(inp, t, ist, ScoredResult(inp, ist, used))
  {
    ScoredResultOk(inp, ist, used);
    ScoredResultEarned(inp, ist, used);
  }

  lemma ExhaustiveIsCertified(inp: Input, s: State, ist: Ist, t: State)
    requires inp.Valid() && !inp.Preserved(ist) && !IsPettyCashRow(inp.ev, ist)
    ensures
      Certificate(inp, t, ist, ExhaustiveResult(inp, ist, CompatibleCodes(inp, ist), s.used, OwnBank(Current(s, ist))))
  {
    var m := ExhaustiveResult(inp, ist, CompatibleCodes(inp, ist), s.used, OwnBank(Current(s, ist)));
    ExhaustiveResultOk(inp, s, ist, CompatibleCodes(inp, ist));
    ExhaustiveIsTierOptimal(inp, ist, CompatibleCodes(inp, ist), s.used, OwnBank(Current(s, ist)));
    if m.bank.Some? {
      AccountTierMeaning(inp, ist, m.bank.value);
      EvidenceTierMeaning(inp, ist, m.bank.value);
      NearbyTierMeaning(inp, ist, m.bank.value);
    }
  }

  lemma CashIsCertified(inp: Input, s: State, ist: Ist, b: Bank)
    requires inp.Valid() && CashRow(inp, ist, Current(s, ist))
    requires CashSearch(inp, ist, s.used, OwnBank(Current(s, ist))) == [b]
    requires !Keeps(inp, Current(s, ist), b)
    requires Inv(inp, s) && ist in inp.rows
    ensures var t := Record(s, ist, CashResult(inp, ist, b), !inp.opts.allowManyToOne);
      CashCertificate(inp, t, ist, CashResult(inp, ist, b))
  {
    var own := OwnBank(Current(s, ist));
    var found := CashSearch(inp, ist, s.used, own);
    assert b in found;
    CashSearchMeaning(inp, ist, s.used, own, b);
    forall c: Bank | inp.Owns(c) && InCashWindow(inp, ist, c) && c != b
      ensures !inp.opts.allowManyToOne && c.index in s.used
    {
      CashSearchMeaning(inp, ist, s.used, own, c);
      assert c !in found;
    }
  }

  lemma ReferenceStepIsCertified(inp: Input, s: State, ist: Ist)
    requires inp.Valid()
    ensures var t := ReferenceStep(inp, s, ist); t == s || (CertifiedAt(inp, t, ist) && NotCash(t, ist))
  {
    if inp.Preserved(ist) {
      PreservedIsCertified(inp, s, ist);
    } else {
      DirectIsCertified(inp, ist, s);
    }
  }

  lemma PreservedIsCertified(inp: Input, s: State, ist: Ist)
    requires inp.Valid() && inp.Preserved(ist)
    ensures var t := ReferenceStep(inp, s, ist); CertifiedAt(inp, t, ist) && NotCash(t, ist)
  {
    assert Current(ReferenceStep(inp, s, ist), ist) == Some(PreservedMatch(inp, ist));
    DirectChoiceMeaning(inp, ist, RM.Find(inp, [ist.paymentReference], ist.row));
  }

  lemma ScoredStepIsCertified(inp: Input, s: State, ist: Ist)
    requires inp.Valid()
    ensures var t := ScoredStep(inp, s, ist); t == s || (CertifiedAt(inp, t, ist) && NotCash(t, ist))
  {
    var t := ScoredStep(inp, s, ist);
    if ist.row !in s.matches {
      ScoredResultOk(inp, ist, s.used);
      ScoredIsCertified(inp, ist, s.used, t);
      assert Current(t, ist) == Some(ScoredResult(inp, ist, s.used));
    }
  }

  lemma ExhaustiveStepIsCertified(inp: Input, s: State, ist: Ist)
    requires inp.Valid()
    ensures var t := ExhaustiveStep(inp, s, ist); t == s || (CertifiedAt(inp, t, ist) && NotCash(t, ist))
  {
    var t := ExhaustiveStep(inp, s, ist);
    var codes := CompatibleCodes(inp, ist);
    if !inp.Preserved(ist) && !IsPettyCashRow(inp.ev, ist) {
      ExhaustiveResultOk(inp, s, ist, codes);
      ExhaustiveIsCertified(inp, s, ist, t);
      assert t == s || Current(t, ist) == Some(NOTHING)
          || Current(t, ist) == Some(ExhaustiveResult(inp, ist, codes, s.used, OwnBank(Current(s, ist))));
    } else {
      assert t == s || Current(t, ist) == Some(NOTHING);
    }
  }

  lemma CashStepIsCertified(inp: Input, s: State, ist: Ist)
    requires inp.Valid() && Inv(inp, s) && ist in inp.rows
    ensures var t := CashStep(inp, s, ist); t == s || CertifiedAt(inp, t, ist)
  {
    var current := Current(s, ist);
    if CashRow(inp, ist, current) {
      var found := CashSearch(inp, ist, s.used, OwnBank(current));
      if |found| == 1 && !Keeps(inp, current, found[0]) {
        assert found == [found[0]];
        CashIsCertified(inp, s, ist, found[0]);
      }
    }
  }

  predicate NotCash(s: State, ist: Ist) {
    Current(s, ist).Some? ==> Current(s, ist).value.matchCase != CashJournalMatch
  }

  lemma StepIsCertified(inp: Input, phase: Phase, s: State, k: nat)
    requires inp.Valid() && Inv(inp, s) && k < |inp.rows|
    ensures var t := Step(inp, phase, s, inp.rows[k]);
      t == s || (CertifiedAt(inp, t, inp.rows[k]) && (phase == Cash || NotCash(t, inp.rows[k])))
  {
    match phase
    case ByReference => ReferenceStepIsCertified(inp, s, inp.rows[k]);
    case BestScored => ScoredStepIsCertified(inp, s, inp.rows[k]);
    case Exhaustive => ExhaustiveStepIsCertified(inp, s, inp.rows[k]);
    case Cash => CashStepIsCertified(inp, s, inp.rows[k]);
  }

  /** Before the last phase no row holds a cash-journal result. */
  ghost predicate NoCash(inp: Input, s: State) {
    forall i | 0 <= i < |inp.rows| :: NotCash(s, inp.rows[i])
  }

  ghost function CertifiedSoFar(inp: Input, phase: Phase, s: State): (nat, State) -> bool
    requires inp.Valid()
  {
    (j: nat, t: State) => Handed(inp, s)(j, t) && Certified(inp, t) && (phase == Cash || NoCash(inp, t))
  }

  /** A step from `t` to `u` that changes only row `j`, and certifies it, leaves row `i` certified. */
  lemma RowStaysCertified(inp: Input, t: State, u: State, j: nat, i: nat)
    requires inp.Valid() && i < |inp.rows| && j < |inp.rows|
    requires CertifiedAt(inp, t, inp.rows[i]) && (u == t || CertifiedAt(inp, u, inp.rows[j]))
    requires Evolves(inp, t, u) && t.used <= u.used
    requires i != j ==> Current(u, inp.rows[i]) == Current(t, inp.rows[i])
    ensures CertifiedAt(inp, u, inp.rows[i])
  {
    if i != j && Current(t, inp.rows[i]).Some? {
      CertificateLasts(inp, t, u, inp.rows[i], Current(t, inp.rows[i]).value);
    }
  }

  lemma RowsStayCertified(inp: Input, phase: Phase, t: State, u: State, j: nat)
    requires inp.Valid() && j < |inp.rows|
    requires Certified(inp, t) && (phase == Cash || NoCash(inp, t))
    requires u == t || (CertifiedAt(inp, u, inp.rows[j]) && (phase == Cash || NotCash(u, inp.rows[j])))
    requires Evolves(inp, t, u) && t.used <= u.used
    requires forall i | 0 <= i < |inp.rows| && i != j :: Current(u, inp.rows[i]) == Current(t, inp.rows[i])
    ensures Certified(inp, u) && (phase == Cash || NoCash(inp, u))
  {
    forall i | 0 <= i < |inp.rows|
      ensures CertifiedAt(inp, u, inp.rows[i]) && (phase == Cash || NotCash(u, inp.rows[i]))
    {
      assert CertifiedAt(inp, t, inp.rows[i]);
      RowStaysCertified(inp, t, u, j, i);
      assert phase == Cash || NotCash(t, inp.rows[i]);
    }
  }

  lemma StepKeepsCertified(inp: Input, phase: Phase, s: State, j: nat, t: State)
    requires inp.Valid() && j < |inp.rows| && ReadyFor(inp, phase, s) && CertifiedSoFar(inp, phase, s)(j, t)
    ensures CertifiedSoFar(inp, phase, s)(j + 1, Stepper(inp, phase)(t, inp.rows[j]))
  {
    StepHandsOn(inp, phase, s, j, t);
    StepIsLocal(inp, phase, t, j);
    assert ReadyAt(inp, phase, s, inp.rows[j]);
    StepIsCertified(inp, phase, t, j);
    RowsStayCertified(inp, phase, t, Step(inp, phase, t, inp.rows[j]), j);
  }

  lemma SweepKeepsCertified(inp: Input, phase: Phase, s: State)
    requires inp.Valid() && ReadyFor(inp, phase, s) && Certified(inp, s) && NoCash(inp, s)
    ensures Certified(inp, Sweep(inp, phase, s))
    ensures phase == Cash || NoCash(inp, Sweep(inp, phase, s))
  {
    forall j: nat, t: State | j < |inp.rows| && CertifiedSoFar(inp, phase, s)(j, t)
      ensures CertifiedSoFar(inp, phase, s)(j + 1, Stepper(inp, phase)(t, inp.rows[j]))
    {
      StepKeepsCertified(inp, phase, s, j, t);
    }
    assert Handed(inp, s)(0, s);
    FoldInvariant(inp.rows, Stepper(inp, phase), CertifiedSoFar(inp, phase, s), s, |inp.rows|);
  }

  // ---------------------------------------------------------------- the group phase

  lemma KeyIsUnique(inp: Input, s: State, x: nat, j: nat)
    requires x < |GroupKeys(inp, s, |inp.rows|)| && j < |GroupKeys(inp, s, |inp.rows|)|
    requires GroupKeys(inp, s, |inp.rows|)[x] == GroupKeys(inp, s, |inp.rows|)[j]
    ensures x == j
  {
    KeysDiffer(inp, s, |inp.rows|);
  }

  /** Every row of a recorded group still carries the group's result when the phase ends. */
  lemma GroupMatesAgree(inp: Input, s: State, j: nat, r: Ist)
    requires inp.Valid() && r in inp.rows && j < |GroupKeys(inp, s, |inp.rows|)|
    requires InGroup(inp, s, GroupKeys(inp, s, |inp.rows|)[j], r)
    ensures Current(GroupSweep(inp, s, j), r) == Current(s, r)
    ensures Current(GroupSweep(inp, s, |GroupKeys(inp, s, |inp.rows|)|), r) == Current(GroupSweep(inp, s, j + 1), r)
  {
    var x := GroupOutcome(inp, s, r);
    KeyIsUnique(inp, s, x, j);
  }

  /** What group `j` takes at its turn, if anything. */
  ghost function GroupTakes(inp: Input, s: State, j: nat): Option<Bank>
    requires j < |GroupKeys(inp, s, |inp.rows|)|
  {
    var group := GroupAt(inp, s, j);
    if RightSize(group) then GroupChoice(inp, group, GroupSearch(inp, group, GroupSweep(inp, s, j).used)) else None
  }

  /** A group's turn gives all its rows the one bank it takes, and leaves them alone if it takes none. */
  lemma GroupTurn(inp: Input, s: State, j: nat, r: Ist)
    requires inp.Valid() && j < |GroupKeys(inp, s, |inp.rows|)| && r in GroupAt(inp, s, j)
    ensures r in inp.rows && InGroup(inp, s, GroupKeys(inp, s, |inp.rows|)[j], r)
    ensures Current(GroupSweep(inp, s, j + 1), r) ==
      match GroupTakes(inp, s, j)
      case Some(b) => Some(GroupedResult(b))
      case None => Current(s, r)
  {
    var key := GroupKeys(inp, s, |inp.rows|)[j];
    var group := GroupAt(inp, s, j);
    GroupMembers(inp, s, key);
    InGroupOf(inp, s, key, r);
    GroupIsInhabited(inp, s, key);
    GroupMatesAgree(inp, s, j, r);
    if GroupTakes(inp, s, j).Some? {
      GroupRecorded(inp, GroupSweep(inp, s, j), group, GroupedResult(GroupTakes(inp, s, j).value), r);
    }
  }

  lemma GroupIsCertified(inp: Input, j: nat, ist: Ist, b: Bank)
    requires inp.Valid() && j < |GroupKeys(inp, Stage(inp, 1), |inp.rows|)|
    requires ist in GroupAt(inp, Stage(inp, 1), j) && GroupTakes(inp, Stage(inp, 1), j) == Some(b)
    ensures var s := Stage(inp, 1);
      GroupCertificate(inp, GroupSweep(inp, s, |GroupKeys(inp, s, |inp.rows|)|), ist, GroupedResult(b))
  {
    var s := Stage(inp, 1);
    var group, key := GroupAt(inp, s, j), GroupKeys(inp, s, |inp.rows|)[j];
    GroupTurn(inp, s, j, ist);
    GroupChoiceMeaning(inp, group, GroupSweep(inp, s, j).used);
    DirectChoiceMeaning(inp, group[0], GroupSearch(inp, group, GroupSweep(inp, s, j).used));
    assert Unrivalled(inp, j, b);
    GroupTurn(inp, s, j, group[0]);
    forall r | r in group
      ensures r in inp.rows
      ensures Current(GroupSweep(inp, s, |GroupKeys(inp, s, |inp.rows|)|), r) == Some(GroupedResult(b))
    {
      GroupTurn(inp, s, j, r);
      GroupMatesAgree(inp, s, j, r);
    }
  }

  lemma GroupRowCertified(inp: Input, i: nat)
    requires inp.Valid() && i < |inp.rows|
    requires CertifiedAt(inp, Stage(inp, 1), inp.rows[i]) && NotCash(Stage(inp, 1), inp.rows[i])
    ensures CertifiedAt(inp, Stage(inp, 2), inp.rows[i]) && NotCash(Stage(inp, 2), inp.rows[i])
  {
    var s, t, ist := Stage(inp, 1), Stage(inp, 2), inp.rows[i];
    var keys := GroupKeys(inp, s, |inp.rows|);
    assert t == GroupSweep(inp, s, |keys|);
    if Groupable(inp, s, ist) {
      var j := GroupOutcome(inp, s, ist);
      InGroupOf(inp, s, keys[j], ist);
      GroupTurn(inp, s, j, ist);
      if GroupTakes(inp, s, j).Some? {
        GroupIsCertified(inp, j, ist, GroupTakes(inp, s, j).value);
      }
    } else {
      GroupSweepIsLocal(inp, s, 0, |keys|, ist);
    }
    if Current(t, ist) == Current(s, ist) && Current(s, ist).Some? {
      GroupSweepEvolves(inp, s, |keys|);
      CertificateLasts(inp, s, t, ist, Current(s, ist).value);
    }
  }

  // ---------------------------------------------------------------- the whole run

  lemma StageReady(inp: Input, n: nat)
    requires inp.Valid()
    ensures n == 0 ==> ReadyFor(inp, ByReference, Stage(inp, n))
    ensures n == 2 ==> ReadyFor(inp, BestScored, Stage(inp, n))
    ensures ReadyFor(inp, Exhaustive, Stage(inp, n)) && ReadyFor(inp, Cash, Stage(inp, n))
  {
    StageInv(inp, n);
    EmptyIsSound(inp);
    if n == 2 {
      PreservedHaveResults(inp, 2);
    }
  }

  lemma GroupStageCertified(inp: Input)
    requires inp.Valid() && Certified(inp, Stage(inp, 1)) && NoCash(inp, Stage(inp, 1))
    ensures Certified(inp, Stage(inp, 2)) && NoCash(inp, Stage(inp, 2))
  {
    forall i | 0 <= i < |inp.rows|
      ensures CertifiedAt(inp, Stage(inp, 2), inp.rows[i]) && NotCash(Stage(inp, 2), inp.rows[i])
    {
      GroupRowCertified(inp, i);
    }
  }

  /** One phase further, from the state the phase before it left. */
  lemma NextCertified(inp: Input, n: nat, s: State)
    requires inp.Valid() && Certified(inp, s) && NoCash(inp, s) && n in {1, 3, 4, 5, 6}
    requires n == 1 ==> ReadyFor(inp, ByReference, s)
    requires n == 3 ==> ReadyFor(inp, BestScored, s)
    requires ReadyFor(inp, Exhaustive, s) && ReadyFor(inp, Cash, s)
    ensures Certified(inp, Next(inp, n, s)) && (n == 6 || NoCash(inp, Next(inp, n, s)))
  {
    if n == 1 {
      SweepKeepsCertified(inp, ByReference, s);
    } else if n == 3 {
      SweepKeepsCertified(inp, BestScored, s);
    } else if n == 4 {
      SweepKeepsCertified(inp, Exhaustive, s);
    } else if n == 5 {
      RebuildKeepsCertified(inp, s);
    } else {
      SweepKeepsCertified(inp, Cash, s);
    }
  }

  lemma NothingToCertify(inp: Input)
    requires inp.Valid()
    ensures Certified(inp, Stage(inp, 0)) && NoCash(inp, Stage(inp, 0))
  {
    EmptyIsSound(inp);
  }

  lemma OneStageCertified(inp: Input, n: nat)
    requires inp.Valid() && 1 <= n <= 6 && Certified(inp, Stage(inp, n - 1)) && NoCash(inp, Stage(inp, n - 1))
    ensures Certified(inp, Stage(inp, n)) && (n <= 5 ==> NoCash(inp, Stage(inp, n)))
  {
    if n == 2 {
      GroupStageCertified(inp);
    } else {
      StageReady(inp, n - 1);
      NextCertified(inp, n, Stage(inp, n - 1));
    }
  }

  ghost function CertifiedAfter(inp: Input): nat -> bool
    requires inp.Valid()
  {
    (n: nat) => Certified(inp, Stage(inp, n)) && (n <= 5 ==> NoCash(inp, Stage(inp, n)))
  }

  lemma {:induction false} StepByStep(good: nat -> bool, n: nat)
    requires good(0) && forall k: nat | k < n && good(k) :: good(k + 1)
    ensures good(n)
  {
    if n > 0 {
      StepByStep(good, n - 1);
    }
  }

  lemma StageCertified(inp: Input, n: nat)
    requires inp.Valid() && n <= 6
    ensures Certified(inp, Stage(inp, n))
    ensures n <= 5 ==> NoCash(inp, Stage(inp, n))
  {
    var good := CertifiedAfter(inp);
    NothingToCertify(inp);
    forall k: nat | k < n && good(k)
      ensures good(k + 1)
    {
      OneStageCertified(inp, k + 1);
    }
    StepByStep(good, n);
    assert good(n);
  }

  lemma RebuildKeepsCertified(inp: Input, s: State)
    requires inp.Valid() && Certified(inp, s) && NoCash(inp, s)
    ensures Certified(inp, Rebuild(inp, s)) && NoCash(inp, Rebuild(inp, s))
  {
    var t := Rebuild(inp, s);
    forall i | 0 <= i < |inp.rows|
      ensures CertifiedAt(inp, t, inp.rows[i]) && NotCash(t, inp.rows[i])
    {
      assert CertifiedAt(inp, s, inp.rows[i]) && NotCash(s, inp.rows[i]);
      if Current(s, inp.rows[i]).Some? {
        CertificateLasts(inp, s, t, inp.rows[i], Current(s, inp.rows[i]).value);
      }
    }
  }

  /** Every row ends with a result whose case is backed by its evidence. */
  lemma EveryResultIsCertified(inp: Input, i: nat)
    requires inp.Valid() && i < |inp.rows|
    ensures Current(Final(inp), inp.rows[i]).Some?
    ensures Certificate(inp, Final(inp), inp.rows[i], Current(Final(inp), inp.rows[i]).value)
  {
    EveryRowHasResult(inp, i, 6);
    StageCertified(inp, 6);
    assert CertifiedAt(inp, Final(inp), inp.rows[i]);
  }

  /** A petty-cash row never ends with a forced, a description or a near-amount match. */
  lemma PettyCashIsNeverForced(inp: Input, i: nat)
    requires inp.Valid() && i < |inp.rows| && OfRegister(inp.ev, inp.rows[i])
    ensures Current(Final(inp), inp.rows[i]).Some?
    ensures Current(Final(inp), inp.rows[i]).value.matchCase
        !in {ForcedBestBankMatch, AmountDescriptionFallback, NearAmountClientMatch}
  {
    EveryResultIsCertified(inp, i);
  }

  // ---------------------------------------------------------------- direction and currency

  predicate AgreesWithBank(ist: Ist, m: MatchResult) {
    m.bank.Some? ==> m.bank.value.direction == ist.direction && CurrencyAgrees(ist, m.bank.value)
  }

  /** The cases whose bank was searched for by money rather than found by reference or by group. */
  predicate SearchedByMoney(m: MatchResult) {
    m.matchCase !in {ExistingReferencePreserved, DirectReferenceMatch, GroupedSettlementMatch}
  }

  lemma ScoredAgrees(inp: Input, ist: Ist, m: MatchResult)
    requires inp.Valid() && ScoredCertificate(inp, ist, m)
    requires InScoredSearch(inp, ist, m.bank.value) || IsPettyCashRow(inp.ev, ist)
    ensures AgreesWithBank(ist, m)
  {
  }

  /** A row the exhaustive phase leaves alone agrees with its bank already. */
  lemma SkippedAgrees(inp: Input, s: State, ist: Ist, m: MatchResult)
    requires inp.Valid() && Current(s, ist) == Some(m) && !inp.Preserved(ist)
    requires Certificate(inp, s, ist, m) && m.matchCase != CashJournalMatch
    requires Settled(inp, Current(s, ist)) || IsPettyCashRow(inp.ev, ist)
    ensures SearchedByMoney(m) ==> AgreesWithBank(ist, m)
  {
    if IsScoredCase(m.matchCase) || (m.matchCase == IncorrectOrAmbiguousLink && m.bank.Some?) {
      ScoredAgrees(inp, ist, m);
    }
  }

  lemma ExhaustiveStepAgrees(inp: Input, s: State, ist: Ist, m: MatchResult)
    requires inp.Valid() && Current(s, ist) == Some(m) && !inp.Preserved(ist)
    requires Certificate(inp, s, ist, m) && m.matchCase != CashJournalMatch
    ensures var r := Current(ExhaustiveStep(inp, s, ist), ist);
      r.Some? && (SearchedByMoney(r.value) ==> AgreesWithBank(ist, r.value))
  {
    if Settled(inp, Current(s, ist)) || IsPettyCashRow(inp.ev, ist) {
      SkippedAgrees(inp, s, ist, m);
    } else if ist.amount.Some? && ist.direction.Some? {
      var codes := CompatibleCodes(inp, ist);
      ExhaustiveResultOk(inp, s, ist, codes);
      var r := ExhaustiveResult(inp, ist, codes, s.used, OwnBank(Current(s, ist)));
      assert Current(ExhaustiveStep(inp, s, ist), ist) == Some(r);
      assert AgreesWithBank(ist, r);
    }
  }

  lemma CertificateOfCurrent(inp: Input, s: State, t: State, ist: Ist, m: MatchResult)
    requires inp.Valid() && Certificate(inp, s, ist, m) && m.matchCase !in {GroupedSettlementMatch, CashJournalMatch}
    ensures Certificate(inp, t, ist, m)
  {
  }

  lemma SweepAgrees(inp: Input, s: State, k: nat, m: MatchResult)
    requires inp.Valid() && k < |inp.rows| && !inp.Preserved(inp.rows[k]) && Current(s, inp.rows[k]) == Some(m)
    requires Certificate(inp, s, inp.rows[k], m) && m.matchCase !in {GroupedSettlementMatch, CashJournalMatch}
    ensures var r := Current(Sweep(inp, Exhaustive, s), inp.rows[k]);
      r.Some? && (SearchedByMoney(r.value) ==> AgreesWithBank(inp.rows[k], r.value))
  {
    var t := Fold(inp.rows, Stepper(inp, Exhaustive), s, k);
    AfterItsTurn(inp, Exhaustive, s, k);
    BeforeItsTurn(inp, Exhaustive, s, k);
    CertificateOfCurrent(inp, s, t, inp.rows[k], m);
    ExhaustiveStepAgrees(inp, t, inp.rows[k], m);
  }

  /** With the exhaustive phase on, every row is re-decided or already agrees with its bank. */
  lemma ExhaustiveAgrees(inp: Input, k: nat)
    requires inp.Valid() && k < |inp.rows| && inp.opts.forceAll && !inp.Preserved(inp.rows[k])
    ensures var r := Current(Stage(inp, 4), inp.rows[k]);
      r.Some? && (SearchedByMoney(r.value) ==> AgreesWithBank(inp.rows[k], r.value))
  {
    var s, ist := Stage(inp, 3), inp.rows[k];
    EveryRowHasResult(inp, k, 3);
    StageCertified(inp, 3);
    var m := Current(s, ist).value;
    assert CertifiedAt(inp, s, ist) && NotCash(s, ist);
    if m.matchCase == GroupedSettlementMatch {
      ResultsEvolve(inp, 3, 4);
      assert EvolvesAt(inp, s, Stage(inp, 4), ist);
    } else {
      SweepAgrees(inp, s, k, m);
    }
  }

  lemma CashStepChanges(inp: Input, s: State, ist: Ist)
    requires inp.Valid()
    ensures var r := Current(Step(inp, Cash, s, ist), ist);
      r == Current(s, ist) || (r.Some? && r.value.matchCase == CashJournalMatch)
  {
  }

  /** With `forceAll`, every result that is neither preserved, direct nor grouped agrees with its bank in
      direction, and in currency when both sides state one, although the 30-day search ignores currency. */
  lemma ForcedRunsAgree(inp: Input, k: nat)
    requires inp.Valid() && k < |inp.rows| && inp.opts.forceAll && !inp.Preserved(inp.rows[k])
    ensures var r := Current(Final(inp), inp.rows[k]);
      r.Some? && (SearchedByMoney(r.value) ==> AgreesWithBank(inp.rows[k], r.value))
  {
    var s, ist := Stage(inp, 5), inp.rows[k];
    EveryResultIsCertified(inp, k);
    ExhaustiveAgrees(inp, k);
    assert Current(s, ist) == Current(Stage(inp, 4), ist);
    AfterItsTurn(inp, Cash, s, k);
    BeforeItsTurn(inp, Cash, s, k);
    CashStepChanges(inp, Fold(inp.rows, Stepper(inp, Cash), s, k), ist);
  }

  // ---------------------------------------------------------------- scored matches were won

  /** The bank wins outright among the candidates that are free of `used`. */
  ghost predicate WinsAmong(inp: Input, ist: Ist, candidates: seq<Bank>, used: set<nat>, b: Bank) {
    var scores := Scores(inp, ist, Filter(candidates, Unused(inp, used)));
    exists i: nat | i < |scores| :: Wins(inp.opts, scores, i) && scores[i].bank == b
  }

  lemma DecidedWins(inp: Input, ist: Ist, candidates: seq<Bank>, used: set<nat>)
    ensures var m := DecideAmong(inp, ist, candidates, used);
      m.status == Matched ==> m.bank.Some? && WinsAmong(inp, ist, candidates, used, m.bank.value)
  {
    var scores := Scores(inp, ist, Filter(candidates, Unused(inp, used)));
    if DecideAmong(inp, ist, candidates, used).status == Matched {
      MatchedHasWinner(inp.opts, scores);
      WinnerIsMatched(inp.opts, scores, Foremost(scores, ByScore));
    }
  }

  /** Every candidate of the narrow search is taken. */
  ghost predicate NarrowIsTaken(inp: Input, ist: Ist, used: set<nat>) {
    forall c | inp.Owns(c) && InScoredSearch(inp, ist, c) :: !Free(inp, used, None, c)
  }

  /** The bank won the narrow search; or none of that search was free and it won the 30-day search. */
  ghost predicate Won(inp: Input, ist: Ist, used: set<nat>, m: MatchResult) {
    && m.bank.Some?
    && if m.status == Matched then WinsAmong(inp, ist, CandidatesFor(inp, ist), used, m.bank.value)
       else
         && NarrowIsTaken(inp, ist, used)
         && WinsAmong(inp, ist, FallbackCandidatesFor(inp, ist), used, m.bank.value)
  }

  lemma ScoredResultWins(inp: Input, ist: Ist, used: set<nat>)
    requires inp.Valid()
    ensures var m := ScoredResult(inp, ist, used); IsScoredCase(m.matchCase) ==> Won(inp, ist, used, m)
  {
    var narrow, wide := CandidatesFor(inp, ist), FallbackCandidatesFor(inp, ist);
    DecideAmongOk(inp, ist, narrow, used);
    DecideAmongOk(inp, ist, wide, used);
    DecideAmongWins(inp, ist, narrow, used);
    DecidedWins(inp, ist, narrow, used);
    DecidedWins(inp, ist, wide, used);
    forall c
      ensures c in narrow <==> inp.Owns(c) && InScoredSearch(inp, ist, c)
    {
      CandidatesMeaning(inp, ist, c);
    }
  }

  lemma FirstCases(inp: Input, k: nat)
    requires inp.Valid() && k < |inp.rows|
    ensures var m := Current(Stage(inp, 1), inp.rows[k]);
      m.Some? ==>
        && m.value.matchCase in {ExistingReferencePreserved, DirectReferenceMatch, IncorrectOrAmbiguousLink}
        && (m.value.matchCase == IncorrectOrAmbiguousLink ==> m.value.bank.None?)
  {
    EmptyIsSound(inp);
    AfterItsTurn(inp, ByReference, Stage(inp, 0), k);
    BeforeItsTurn(inp, ByReference, Stage(inp, 0), k);
    ReferenceCases(inp, Fold(inp.rows, Stepper(inp, ByReference), Stage(inp, 0), k), inp.rows[k]);
  }

  lemma EarlyCases(inp: Input, k: nat)
    requires inp.Valid() && k < |inp.rows|
    ensures var m := Current(Stage(inp, 2), inp.rows[k]);
      m.Some? ==>
        && m.value.matchCase in
          {ExistingReferencePreserved, DirectReferenceMatch, IncorrectOrAmbiguousLink, GroupedSettlementMatch}
        && (m.value.matchCase == IncorrectOrAmbiguousLink ==> m.value.bank.None?)
  {
    var s, ist := Stage(inp, 1), inp.rows[k];
    var keys := GroupKeys(inp, s, |inp.rows|);
    FirstCases(inp, k);
    if Groupable(inp, s, ist) {
      var j := GroupOutcome(inp, s, ist);
      InGroupOf(inp, s, keys[j], ist);
      GroupTurn(inp, s, j, ist);
    } else {
      GroupSweepIsLocal(inp, s, 0, |keys|, ist);
    }
  }

  lemma ReferenceCases(inp: Input, s: State, ist: Ist)
    requires inp.Valid() && Current(s, ist).None?
    ensures var m := Current(Step(inp, ByReference, s, ist), ist);
      m.Some? ==>
        && m.value.matchCase in {ExistingReferencePreserved, DirectReferenceMatch, IncorrectOrAmbiguousLink}
        && (m.value.matchCase == IncorrectOrAmbiguousLink ==> m.value.bank.None?)
  {
  }

  /** The cases of the last two searches. */
  predicate IsLate(c: MatchCase) {
    c in {ForcedBestBankMatch, AmountDescriptionFallback, NearAmountClientMatch, CashJournalMatch, NoCandidate}
  }

  lemma ExhaustiveStepChanges(inp: Input, s: State, ist: Ist)
    requires inp.Valid()
    ensures var r := Current(Step(inp, Exhaustive, s, ist), ist);
      r == Current(s, ist) || (r.Some? && IsLate(r.value.matchCase))
  {
    var codes := CompatibleCodes(inp, ist);
    var result := ExhaustiveResult(inp, ist, codes, s.used, OwnBank(Current(s, ist)));
    ForcedIsLate(inp, ist, codes, s.used, OwnBank(Current(s, ist)));
    assert Current(ExhaustiveStep(inp, s, ist), ist) in [Current(s, ist), Some(NOTHING), Some(result)];
  }

  lemma ForcedIsLate(inp: Input, ist: Ist, codes: set<string>, used: set<nat>, own: Option<nat>)
    ensures IsLate(ExhaustiveResult(inp, ist, codes, used, own).matchCase)
  {
  }

  /** A row with another case at the end of these phases had it before. */
  lemma EarlyBefore(inp: Input, phase: Phase, s: State, k: nat)
    requires inp.Valid() && k < |inp.rows| && phase in {Exhaustive, Cash}
    requires var m := Current(Sweep(inp, phase, s), inp.rows[k]); m.Some? && !IsLate(m.value.matchCase)
    ensures Current(s, inp.rows[k]) == Current(Sweep(inp, phase, s), inp.rows[k])
  {
    AfterItsTurn(inp, phase, s, k);
    BeforeItsTurn(inp, phase, s, k);
    OnlyLate(inp, phase, Fold(inp.rows, Stepper(inp, phase), s, k), inp.rows[k]);
  }

  lemma OnlyLate(inp: Input, phase: Phase, s: State, ist: Ist)
    requires inp.Valid() && phase in {Exhaustive, Cash}
    ensures var r := Current(Step(inp, phase, s, ist), ist);
      r == Current(s, ist) || (r.Some? && IsLate(r.value.matchCase))
  {
    if phase == Exhaustive {
      ExhaustiveStepChanges(inp, s, ist);
    } else {
      CashStepChanges(inp, s, ist);
    }
  }

  lemma DecidedEarly(inp: Input, k: nat)
    requires inp.Valid() && k < |inp.rows|
    requires var m := Current(Final(inp), inp.rows[k]); m.Some? && !IsLate(m.value.matchCase)
    ensures Current(Stage(inp, 3), inp.rows[k]) == Current(Final(inp), inp.rows[k])
  {
    EarlyBefore(inp, Cash, Stage(inp, 5), k);
    assert Current(Stage(inp, 5), inp.rows[k]) == Current(Stage(inp, 4), inp.rows[k]);
    if inp.opts.forceAll {
      EarlyBefore(inp, Exhaustive, Stage(inp, 3), k);
    }
  }

  /** The banks taken when row `k` is scored. */
  ghost function UsedAtScoring(inp: Input, k: nat): set<nat>
    requires inp.Valid() && k < |inp.rows|
  {
    Fold(inp.rows, Stepper(inp, BestScored), Stage(inp, 2), k).used
  }

  /** A row that is still open when its turn to be scored comes gets the scored decision among the banks then
      free; a row with a result keeps it. */
  lemma ScoredTurn(inp: Input, k: nat)
    requires inp.Valid() && k < |inp.rows|
    ensures var before := Current(Stage(inp, 2), inp.rows[k]);
      Current(Stage(inp, 3), inp.rows[k]) ==
        if before.Some? then before else Some(ScoredResult(inp, inp.rows[k], UsedAtScoring(inp, k)))
  {
    AfterItsTurn(inp, BestScored, Stage(inp, 2), k);
    BeforeItsTurn(inp, BestScored, Stage(inp, 2), k);
    ScoredStepTurn(inp, Fold(inp.rows, Stepper(inp, BestScored), Stage(inp, 2), k), inp.rows[k]);
  }

  lemma ScoredStepTurn(inp: Input, s: State, ist: Ist)
    requires inp.Valid()
    ensures Current(Step(inp, BestScored, s, ist), ist) ==
      if Current(s, ist).Some? then Current(s, ist) else Some(ScoredResult(inp, ist, s.used))
  {
  }

  /** A row that ends with a scored case holds the bank that won outright when the row was scored: as a match, among
      all candidates of the narrow search then free; for review, among those of the 30-day search, when none of
      the narrow search was free. */
  lemma ScoredMatchWon(inp: Input, k: nat)
    requires inp.Valid() && k < |inp.rows|
    requires var m := Current(Final(inp), inp.rows[k]); m.Some? && IsScoredCase(m.value.matchCase)
    ensures Won(inp, inp.rows[k], UsedAtScoring(inp, k), Current(Final(inp), inp.rows[k]).value)
  {
    DecidedEarly(inp, k);
    EarlyCases(inp, k);
    ScoredTurn(inp, k);
    ScoredResultWins(inp, inp.rows[k], UsedAtScoring(inp, k));
  }
}
