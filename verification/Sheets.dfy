/** Small concrete sheets on which the qualified guarantees are seen to fail. */
module Sheets {
  import opened Basics
  import opened Ledger
  import opened Scoring
  import opened Window
  import opened Phases
  import opened Criteria
  import opened Invariants
  import opened Guarantees
  import Aliases
  import Automaton
  import Cov = Coverage
  import Cert = Certificates
  import Verified
  import Sharing
  import RM = ReferenceMatching

  /** An IST row with nothing but a number, a reference, a document and one search text. */
  function Row(row: nat, reference: string, document: string, text: string): Ist {
    Ist(row, reference, "", "", "", document, "", "", "", None, None, None, "", "", [text], "", "", "", [])
  }

  function Sheet(rows: seq<Ist>, banks: seq<Bank>, shared: bool): Input {
    Input(rows, banks, Options(3, 0.01, 0.05, 100.0, 0.75, shared, true), PLAIN)
  }

  function PlainBank(): Bank {
    Bank(0, "REF1", "", "", "", "", "", None, None, None, None, "", "", "", "")
  }

  lemma NoPlaceholder(text: string)
    requires text != "" && text[0] == 'R'
    ensures text !in PLACEHOLDERS
  {
    assert "na"[0] == 'n' && "none"[0] == 'n' && "null"[0] == 'n' && "undefined"[0] == 'u' && "nonref"[0] == 'n'
        && "noref"[0] == 'n';
  }

  lemma PlainReference()
    ensures NormalizeReference(PLAIN, "REF1") == "REF1"
  {
    NoPlaceholder("REF1");
    assert "REF1"[0] == 'R';
  }

  lemma BlankReference()
    ensures NormalizeReference(PLAIN, "") == ""
  {
  }

  lemma OccursInItself()
    ensures Automaton.OccursIn("REF1", "REF1")
  {
    assert Automaton.Suffix("REF1", "REF1"[..4]);
  }

  lemma PlainReferences()
    ensures NormalizeReference(PLAIN, "REF1") == "REF1" && NormalizeReference(PLAIN, "") == ""
    ensures Automaton.OccursIn("REF1", "REF1")
  {
    PlainReference();
    BlankReference();
    OccursInItself();
  }

  /** What a row and a bank of such a sheet come to. */
  lemma PlainRow(inp: Input, ist: Ist)
    requires inp.ev == PLAIN
    ensures ist.paymentReference == "REF1" ==> inp.Preserved(ist)
    ensures ist.paymentReference == "" ==> !inp.Preserved(ist)
    ensures !IsCashJournal(inp.ev, ist)
  {
    PlainReferences();
  }

  lemma PlainLink(inp: Input, b: Bank, texts: seq<string>)
    requires inp.ev == PLAIN && b.bankRef == "REF1"
    ensures inp.Ref(b) == "REF1"
    ensures "REF1" in texts ==> RM.RefOccurs(inp, texts, b)
  {
    PlainReferences();
  }

  /** Only a row with the reference in one of its five fields is linked as verified. */
  lemma PlainRule(inp: Input, ist: Ist, b: Bank)
    requires inp.ev == PLAIN && b.bankRef == "REF1"
    requires ist.paymentReference == ist.invoice == ist.voucher == ist.operationNo == ""
    ensures RuleConfidence(inp, ist, b) >= 0.9 <==> ist.document == "REF1"
  {
    PlainLink(inp, b, []);
  }

  // ---------------------------------------------------------------- one bank, two rows

  /** A preserved row whose reference contains that of the only bank takes it. */
  lemma OnlyBankIsFixed(inp: Input, j: nat)
    requires inp.Valid() && |inp.banks| == 1 && j < |inp.rows|
    requires RM.RefOccurs(inp, [inp.rows[j].paymentReference], inp.banks[0])
    ensures Sharing.FixedBank(inp, j) == Some(0)
  {
    var ist := inp.rows[j];
    var found := RM.Find(inp, [ist.paymentReference], ist.row);
    RM.FindMeaning(inp, [ist.paymentReference], ist.row, inp.banks[0]);
    BestDirectIsCandidate(inp, ist, found);
    RM.FindMeaning(inp, [ist.paymentReference], ist.row, BestDirect(inp, ist, found).value);
  }

  /** The result of a direct link to the only bank. */
  function Link(inp: Input, ist: Ist): MatchResult
    requires |inp.banks| > 0
  {
    var confidence := RuleConfidence(inp, ist, inp.banks[0]);
    MatchResult(if confidence >= 0.9 then Matched else NeedsReview, DirectReferenceMatch, confidence, Some(inp.banks[0]))
  }

  lemma OnlyBankIsLinked(inp: Input, s: State, ist: Ist)
    requires inp.Valid() && |inp.banks| == 1 && s.used == {} && !inp.Preserved(ist)
    requires RM.RefOccurs(inp, ist.directSearchTexts, inp.banks[0])
    ensures Current(Step(inp, ByReference, s, ist), ist) == Some(Link(inp, ist))
  {
    OnlyBankIsBest(inp, ist);
  }

  lemma OnlyCandidate(inp: Input, ist: Ist, candidates: seq<Bank>)
    requires inp.Valid() && |inp.banks| == 1
    requires inp.banks[0] in candidates && forall c | c in candidates :: inp.Owns(c)
    ensures BestDirect(inp, ist, candidates) == Some(inp.banks[0])
  {
    BestDirectIsCandidate(inp, ist, candidates);
  }

  lemma OnlyBankIsBest(inp: Input, ist: Ist)
    requires inp.Valid() && |inp.banks| == 1 && RM.RefOccurs(inp, ist.directSearchTexts, inp.banks[0])
    ensures var found := RM.Find(inp, ist.directSearchTexts, ist.row);
      BestDirect(inp, ist, Filter(found, Available(inp, {}))) == Some(inp.banks[0])
  {
    var found := RM.Find(inp, ist.directSearchTexts, ist.row);
    var available := Filter(found, Available(inp, {}));
    InFilter(found, Available(inp, {}));
    RM.FindMeaning(inp, ist.directSearchTexts, ist.row, inp.banks[0]);
    assert inp.banks[0] in available;
    forall c | c in available
      ensures inp.Owns(c)
    {
      RM.FindMeaning(inp, ist.directSearchTexts, ist.row, c);
    }
    OnlyCandidate(inp, ist, available);
  }

  /** The first row is linked to the only bank if the bank's reference occurs in its texts. */
  lemma FirstRowIsLinked(inp: Input)
    requires inp.Valid() && |inp.banks| == 1 && |inp.rows| > 0 && !inp.Preserved(inp.rows[0])
    requires RM.RefOccurs(inp, inp.rows[0].directSearchTexts, inp.banks[0])
    ensures Current(Stage(inp, 1), inp.rows[0]) == Some(Link(inp, inp.rows[0]))
  {
    EmptyIsSound(inp);
    AfterItsTurn(inp, ByReference, Stage(inp, 0), 0);
    OnlyBankIsLinked(inp, Stage(inp, 0), inp.rows[0]);
  }

  /** Two rows that came with the same reference, and the bank that carries it. */
  ghost predicate Twins(inp: Input, shared: bool) {
    && inp.Valid() && inp.ev == PLAIN && inp.opts.allowManyToOne == shared
    && |inp.banks| == 1 && inp.banks[0].bankRef == "REF1"
    && |inp.rows| == 2 && forall i | 0 <= i < |inp.rows| :: inp.rows[i].paymentReference == "REF1"
  }

  lemma TwinSheet(shared: bool) returns (inp: Input)
    ensures Twins(inp, shared)
  {
    inp := Sheet([Row(2, "REF1", "", "REF1"), Row(3, "REF1", "", "REF1")], [PlainBank()], shared);
  }

  lemma TwinIsFixed(inp: Input, j: nat)
    requires inp.Valid() && inp.ev == PLAIN && |inp.banks| == 1 && inp.banks[0].bankRef == "REF1"
    requires j < |inp.rows| && inp.rows[j].paymentReference == "REF1"
    ensures inp.Preserved(inp.rows[j]) && inp.Ref(inp.banks[0]) != "" && Sharing.FixedBank(inp, j) == Some(0)
  {
    PlainRow(inp, inp.rows[j]);
    PlainLink(inp, inp.banks[0], [inp.rows[j].paymentReference]);
    OnlyBankIsFixed(inp, j);
  }

  /** There is a sheet on which two preserved rows end with the same bank, although many-to-one is off. */
  lemma PreservedRowsMayShare() returns (inp: Input)
    ensures inp.Valid() && !inp.opts.allowManyToOne && |inp.rows| == 2
    ensures Sharing.EndsWith(inp, 0, 0) && Sharing.EndsWith(inp, 1, 0)
  {
    inp := TwinSheet(false);
    TwinIsFixed(inp, 0);
    TwinIsFixed(inp, 1);
    Sharing.PreservedRowsShare(inp, 0, 1, 0);
  }

  /** An open row whose document is the reference that the next row came with. */
  ghost predicate Mixed(inp: Input) {
    && inp.Valid() && inp.ev == PLAIN && !inp.opts.allowManyToOne
    && |inp.banks| == 1 && inp.banks[0].bankRef == "REF1"
    && |inp.rows| == 2 && inp.rows[1].paymentReference == "REF1"
    && Open(inp.rows[0], "REF1")
  }

  /** Its document is as given, its other reference fields are blank, and its texts mention the reference. */
  predicate Open(ist: Ist, document: string) {
    && ist.paymentReference == ist.invoice == ist.voucher == ist.operationNo == "" && ist.document == document
    && "REF1" in ist.directSearchTexts
  }

  lemma MixedSheet() returns (inp: Input)
    ensures Mixed(inp)
  {
    inp := Sheet([Row(2, "", "REF1", "REF1"), Row(3, "REF1", "", "REF1")], [PlainBank()], false);
    assert inp.rows[0].directSearchTexts[0] == "REF1";
  }

  lemma FirstRowIsOpen(inp: Input, document: string)
    requires inp.Valid() && inp.ev == PLAIN && |inp.banks| == 1 && inp.banks[0].bankRef == "REF1"
    requires |inp.rows| > 0 && Open(inp.rows[0], document)
    ensures !inp.Preserved(inp.rows[0]) && Current(Stage(inp, 1), inp.rows[0]) == Some(Link(inp, inp.rows[0]))
    ensures Link(inp, inp.rows[0]).status == (if document == "REF1" then Matched else NeedsReview)
    ensures Cert.Linked(inp, inp.rows[0], inp.banks[0])
  {
    PlainRow(inp, inp.rows[0]);
    PlainLink(inp, inp.banks[0], inp.rows[0].directSearchTexts);
    PlainRule(inp, inp.rows[0], inp.banks[0]);
    FirstRowIsLinked(inp);
  }

  /** There is a sheet on which an open row and a preserved one end with the same bank, although many-to-one is
      off. */
  lemma MixedRowsMayShare() returns (inp: Input)
    ensures inp.Valid() && !inp.opts.allowManyToOne && |inp.rows| == 2
    ensures !inp.Preserved(inp.rows[0]) && inp.Preserved(inp.rows[1])
    ensures Sharing.EndsWith(inp, 0, 0) && Sharing.EndsWith(inp, 1, 0)
  {
    inp := MixedSheet();
    TwinIsFixed(inp, 1);
    FirstRowIsOpen(inp, "REF1");
    assert Sharing.Overtaken(inp, 0, 1, 0);
    Sharing.VerifiedOvertakenShare(inp, 0, 1, 0);
  }

  // ---------------------------------------------------------------- many-to-one

  /** If all rows are preserved, no bank is marked. */
  lemma PreservedMarkNothing(inp: Input, x: nat)
    requires inp.Valid() && forall i | 0 <= i < |inp.rows| :: inp.Preserved(inp.rows[i])
    ensures !Cov.Marked(inp, x)
  {
    forall i | 0 <= i < |inp.rows|
      ensures Current(Stage(inp, 2), inp.rows[i]) == Some(PreservedMatch(inp, inp.rows[i]))
      ensures !Cov.GroupedWith(inp, Stage(inp, 2), i, x) && !Cov.ScoredWith(inp, i, x)
    {
      PreservedIsFixed(inp, i, 2);
    }
  }

  lemma PreservedHoldUnmarked(inp: Input)
    requires inp.Valid() && inp.opts.allowManyToOne && forall i | 0 <= i < |inp.rows| :: inp.Preserved(inp.rows[i])
    requires |inp.rows| > 0 && |inp.banks| > 0 && inp.Ref(inp.banks[0]) != "" && Sharing.FixedBank(inp, 0) == Some(0)
    ensures Cov.HeldAtEnd(inp, Final(inp), 0) && inp.banks[0] in Cov.UnmatchedBanks(inp, Final(inp).used)
  {
    PreservedIsFixed(inp, 0, 6);
    Cov.NamedIsHeld(inp, 0, 0);
    PreservedMarkNothing(inp, 0);
    Cov.SharedListIsComplement(inp);
  }

  lemma TwinsArePreserved(inp: Input)
    requires Twins(inp, true)
    ensures forall i | 0 <= i < |inp.rows| :: inp.Preserved(inp.rows[i])
    ensures inp.Ref(inp.banks[0]) != "" && Sharing.FixedBank(inp, 0) == Some(0)
  {
    TwinIsFixed(inp, 0);
    forall i | 0 <= i < |inp.rows|
      ensures inp.Preserved(inp.rows[i])
    {
      TwinIsFixed(inp, i);
    }
  }

  /** There is a sheet on which, with many-to-one, a bank that both rows hold is on the list of unmatched banks. */
  lemma HeldBankMayBeListed() returns (inp: Input)
    ensures inp.Valid() && inp.opts.allowManyToOne && |inp.banks| == 1
    ensures Cov.HeldAtEnd(inp, Final(inp), 0) && inp.banks[0] in Cov.UnmatchedBanks(inp, Final(inp).used)
  {
    inp := TwinSheet(true);
    TwinsArePreserved(inp);
    PreservedHoldUnmarked(inp);
  }

  // ---------------------------------------------------------------- a bank passed over

  /** A row that is no cash journal ends with what the exhaustive phase left it. */
  lemma NoCashJournal(inp: Input, k: nat)
    requires inp.Valid() && k < |inp.rows| && !IsCashJournal(inp.ev, inp.rows[k])
    ensures Current(Final(inp), inp.rows[k]) == Current(Stage(inp, 4), inp.rows[k])
  {
    AfterItsTurn(inp, Cash, Stage(inp, 5), k);
    BeforeItsTurn(inp, Cash, Stage(inp, 5), k);
    CashStepSkips(inp, Fold(inp.rows, Stepper(inp, Cash), Stage(inp, 5), k), inp.rows[k]);
    RebuildKeepsResults(inp, inp.rows[k]);
  }

  lemma CashStepSkips(inp: Input, s: State, ist: Ist)
    requires inp.Valid() && !IsCashJournal(inp.ev, ist)
    ensures Step(inp, Cash, s, ist) == s
  {
  }

  lemma RebuildKeepsResults(inp: Input, ist: Ist)
    requires inp.Valid()
    ensures Current(Stage(inp, 5), ist) == Current(Stage(inp, 4), ist)
  {
  }

  /** A row without an amount keeps its link up to the exhaustive phase. */
  lemma LinkLasts(inp: Input, i: nat)
    requires inp.Valid() && i < |inp.rows| && inp.rows[i].amount.None? && Current(Stage(inp, 1), inp.rows[i]).Some?
    ensures Current(Stage(inp, 3), inp.rows[i]) == Current(Stage(inp, 1), inp.rows[i])
  {
    var s := Stage(inp, 1);
    GroupSweepIsLocal(inp, s, 0, |GroupKeys(inp, s, |inp.rows|)|, inp.rows[i]);
    Cert.ScoredTurn(inp, i);
  }

  /** The exhaustive phase takes the link of a row without an amount away. */
  lemma LinkIsDropped(inp: Input, s: State, i: nat)
    requires inp.Valid() && i < |inp.rows| && !inp.Preserved(inp.rows[i])
    requires inp.rows[i].amount.None? && !IsCashJournal(inp.ev, inp.rows[i]) && !Settled(inp, Current(s, inp.rows[i]))
    ensures Current(Sweep(inp, Exhaustive, s), inp.rows[i]) == Some(NOTHING)
  {
    AfterItsTurn(inp, Exhaustive, s, i);
    BeforeItsTurn(inp, Exhaustive, s, i);
    DroppedAtItsTurn(inp, Fold(inp.rows, Stepper(inp, Exhaustive), s, i), inp.rows[i]);
  }

  lemma DroppedAtItsTurn(inp: Input, s: State, ist: Ist)
    requires inp.Valid() && !inp.Preserved(ist) && ist.amount.None? && !IsCashJournal(inp.ev, ist)
    requires !Settled(inp, Current(s, ist))
    ensures Current(Step(inp, Exhaustive, s, ist), ist) == Some(NOTHING)
  {
  }

  /** While another row holds the only bank, a row holds none. */
  lemma NothingLeft(inp: Input, i: nat, k: nat)
    requires inp.Valid() && !inp.opts.allowManyToOne && |inp.banks| == 1 && i != k && k < |inp.rows|
    requires !inp.Preserved(inp.rows[k]) && HasBank(inp, Stage(inp, 3), i, 0)
    requires Current(Stage(inp, 3), inp.rows[i]).value.matchCase != GroupedSettlementMatch
    ensures OwnBank(Current(Stage(inp, 3), inp.rows[k])) == None && 0 in Stage(inp, 3).used
  {
    StageInv(inp, 3);
    assert HasBank(inp, Stage(inp, 3), k, 0) ==> SameGroup(inp, Stage(inp, 3), i, k);
    OnlyBankIsOwn(inp, k);
  }

  lemma OnlyBankIsOwn(inp: Input, k: nat)
    requires inp.Valid() && |inp.banks| == 1 && k < |inp.rows| && !inp.Preserved(inp.rows[k])
    ensures OwnBank(Current(Stage(inp, 3), inp.rows[k])) == None || HasBank(inp, Stage(inp, 3), k, 0)
  {
    var own := OwnBank(Current(Stage(inp, 3), inp.rows[k]));
    if own.Some? {
      Cov.NamedIsOwned(inp, 3, k, own.value);
    }
  }

  /** A row without a bank of its own gets none if the only one is used. */
  lemma NoTierIsOpen(inp: Input, ist: Ist, used: set<nat>)
    requires inp.Valid() && !inp.opts.allowManyToOne && |inp.banks| == 1 && 0 in used
    ensures ExhaustiveResult(inp, ist, CompatibleCodes(inp, ist), used, None) == NOTHING
  {
    var codes := CompatibleCodes(inp, ist);
    TierIsClosed(inp, used, Forced(inp, ist, codes));
    TierIsClosed(inp, used, ByDescription(inp, ist));
    TierIsClosed(inp, used, Near(inp, ist, codes));
    ExhaustiveIsTierOptimal(inp, ist, codes, used, None);
  }

  lemma TierIsClosed(inp: Input, used: set<nat>, tier: Bank -> bool)
    requires !inp.opts.allowManyToOne && |inp.banks| == 1 && 0 in used
    ensures !TierOpen(inp, used, None, tier)
  {
  }

  /** Equal amount, direction and day are enough for the description fallback. */
  lemma FitsByDay(inp: Input, ist: Ist, b: Bank)
    requires inp.Ref(b) != "" && ist.amount.Some? && b.amount == ist.amount && inp.opts.amountTolerance >= 0.0
    requires ist.direction.Some? && b.direction == ist.direction && ist.currency == ""
    requires ist.epochDay.Some? && b.epochDay == ist.epochDay && b.valueEpochDay.None?
    ensures DescriptionTier(inp, ist, b) && EvidenceTier(inp, ist, b)
  {
    EvidenceTierMeaning(inp, ist, b);
    AmountMatchIsSymmetric(inp.opts, ist.amount.value, ist.amount.value);
  }

  /** The first row is linked to the only bank and will lose it; the second fits the bank. */
  ghost predicate Starved(inp: Input) {
    && inp.Valid() && inp.ev == PLAIN && !inp.opts.allowManyToOne && inp.opts.forceAll
    && inp.opts.amountTolerance >= 0.0
    && |inp.banks| == 1 && inp.banks[0].bankRef == "REF1" && |inp.rows| == 2
    && Open(inp.rows[0], "") && inp.rows[0].amount.None?
    && inp.rows[1].paymentReference == "" && Fits(inp.rows[1], inp.banks[0])
  }

  predicate Fits(ist: Ist, b: Bank) {
    && ist.amount.Some? && b.amount == ist.amount && ist.direction.Some? && b.direction == ist.direction
    && ist.currency == "" && ist.epochDay.Some? && b.epochDay == ist.epochDay && b.valueEpochDay.None?
  }

  lemma StarvedSheet() returns (inp: Input)
    ensures Starved(inp)
  {
    var bank := PlainBank().(epochDay := Some(10), amount := Some(100.0), direction := Some(Deposit));
    var open := Row(3, "", "", "").(epochDay := Some(10), amount := Some(100.0), direction := Some(Deposit));
    inp := Sheet([Row(2, "", "", "REF1"), open], [bank], false);
    assert inp.rows[0].directSearchTexts[0] == "REF1";
  }

  lemma StarvedUntilForced(inp: Input)
    requires Starved(inp)
    ensures Current(Stage(inp, 3), inp.rows[0]) == Some(Link(inp, inp.rows[0]))
    ensures Link(inp, inp.rows[0]).status == NeedsReview && !inp.Preserved(inp.rows[0]) && !inp.Preserved(inp.rows[1])
    ensures OwnBank(Current(Stage(inp, 3), inp.rows[1])) == None && 0 in Stage(inp, 3).used
  {
    FirstRowIsOpen(inp, "");
    PlainRow(inp, inp.rows[1]);
    LinkLasts(inp, 0);
    NothingLeft(inp, 0, 1);
  }

  lemma StarvedByForce(inp: Input)
    requires Starved(inp)
    ensures Cov.Decided(inp, Stage(inp, 3), inp.rows[1])
    ensures Current(Stage(inp, 4), inp.rows[0]) == Some(NOTHING) && Current(Stage(inp, 4), inp.rows[1]) == Some(NOTHING)
  {
    StarvedUntilForced(inp);
    PlainRow(inp, inp.rows[0]);
    PlainRow(inp, inp.rows[1]);
    LinkIsDropped(inp, Stage(inp, 3), 0);
    Cov.ExhaustiveTurn(inp, 1);
    FoldIsLocal(inp, Exhaustive, Stage(inp, 3), 0, 1);
    NoTierIsOpen(inp, inp.rows[1], Fold(inp.rows, Stepper(inp, Exhaustive), Stage(inp, 3), 1).used);
  }

  lemma NobodyHolds(inp: Input)
    requires inp.Valid() && !inp.opts.allowManyToOne && |inp.banks| > 0 && |inp.rows| == 2
    requires !IsCashJournal(inp.ev, inp.rows[0]) && Current(Stage(inp, 4), inp.rows[0]) == Some(NOTHING)
    requires !IsCashJournal(inp.ev, inp.rows[1]) && Current(Stage(inp, 4), inp.rows[1]) == Some(NOTHING)
    ensures inp.banks[0] in Cov.UnmatchedBanks(inp, Final(inp).used)
  {
    NoCashJournal(inp, 0);
    NoCashJournal(inp, 1);
    HeldByNone(inp, Final(inp));
    Cov.UnmatchedListIsComplement(inp, inp.banks[0]);
  }

  lemma HeldByNone(inp: Input, s: State)
    requires |inp.rows| == 2 && Current(s, inp.rows[0]) == Some(NOTHING) == Current(s, inp.rows[1])
    ensures !Cov.HeldAtEnd(inp, s, 0)
  {
  }

  lemma StarvedFits(inp: Input)
    requires Starved(inp)
    ensures EvidenceTier(inp, inp.rows[1], inp.banks[0])
    ensures !IsCashJournal(inp.ev, inp.rows[0]) && !IsCashJournal(inp.ev, inp.rows[1])
  {
    PlainRow(inp, inp.rows[0]);
    PlainRow(inp, inp.rows[1]);
    PlainLink(inp, inp.banks[0], []);
    FitsByDay(inp, inp.rows[1], inp.banks[0]);
  }

  /** There is a sheet on which a decided row is left without a bank although the bank that fits it ends on the
      unmatched list: another row held it when its turn came, and lost it in the same phase. */
  lemma FittingBankMayBePassedOver() returns (inp: Input)
    ensures inp.Valid() && inp.opts.forceAll && !inp.opts.allowManyToOne && |inp.rows| == 2 && |inp.banks| == 1
    ensures Cov.Decided(inp, Stage(inp, 3), inp.rows[1]) && Current(Stage(inp, 4), inp.rows[1]) == Some(NOTHING)
    ensures EvidenceTier(inp, inp.rows[1], inp.banks[0])
    ensures inp.banks[0] in Cov.UnmatchedBanks(inp, Final(inp).used)
  {
    inp := StarvedSheet();
    StarvedByForce(inp);
    StarvedFits(inp);
    NobodyHolds(inp);
  }

  // ---------------------------------------------------------------- the order of the tiers

  /** A row with a bank row of the same amount and one a little off that account and reference speak for. */
  ghost predicate TwoTiers(inp: Input) {
    && inp.Valid() && |inp.rows| == 1 && |inp.banks| == 2
    && inp.Ref(inp.banks[0]) != "" && inp.Ref(inp.banks[1]) != ""
    && inp.opts == Options(3, 0.01, 0.05, 100.0, 0.75, false, true)
    && inp.rows[0].accountCode == "" && inp.rows[0].amount == Some(100.0)
    && Fits(inp.rows[0], inp.banks[0]) && Fits(inp.rows[0], inp.banks[1].(amount := Some(100.0)))
    && inp.banks[1].amount == Some(108.0)
    && Favours(inp.ev, inp.rows[0], inp.banks[1])
  }

  predicate Favours(ev: Evidence, ist: Ist, b: Bank) {
    ev.accountScore("", b.accountCode) == 0.8 && ev.referenceScore(ist, b) == 1.0
  }

  /** Measures under which every account and every reference speaks for every bank. */
  function Favourable(): (ev: Evidence)
    ensures forall ist: Ist, b: Bank :: Favours(ev, ist, b)
    ensures forall t: string :: ev.compact(t) == t
  {
    PLAIN.(accountScore := (t: string, u: string) => 0.8, referenceScore := (r: Ist, b: Bank) => 1.0)
  }

  lemma FavourableReference(ev: Evidence)
    requires forall t: string :: ev.compact(t) == t
    ensures NormalizeReference(ev, "REF1") == "REF1"
  {
    NoPlaceholder("REF1");
    assert ev.compact("REF1")[0] == 'R';
  }

  lemma TwoTierSheet() returns (inp: Input)
    ensures TwoTiers(inp)
  {
    var ev := Favourable();
    var bank := PlainBank().(epochDay := Some(10), amount := Some(100.0), direction := Some(Deposit));
    var open := Row(2, "", "", "").(epochDay := Some(10), amount := Some(100.0), direction := Some(Deposit));
    inp := TwoTierInput(ev, open, bank);
  }

  lemma TwoTierInput(ev: Evidence, open: Ist, bank: Bank) returns (inp: Input)
    requires forall t: string :: ev.compact(t) == t
    requires forall ist: Ist, b: Bank :: Favours(ev, ist, b)
    requires bank.index == 0 && bank.bankRef == "REF1" && Fits(open, bank)
    requires open.accountCode == "" && open.amount == Some(100.0)
    ensures TwoTiers(inp)
  {
    inp := Input([open], [bank, bank.(index := 1, amount := Some(108.0))],
                 Options(3, 0.01, 0.05, 100.0, 0.75, false, true), ev);
    FavourableReference(ev);
    assert Favours(ev, open, inp.banks[1]);
  }

  lemma NoCodes(inp: Input, ist: Ist)
    requires ist.accountCode == ""
    ensures CompatibleCodes(inp, ist) == {}
  {
    forall c
      ensures !Aliases.IsAlias(inp, "", c)
    {
      assert Aliases.Pairs(inp, "", c, |inp.rows|) == {};
    }
  }

  lemma NearIsOpen(inp: Input)
    requires TwoTiers(inp)
    ensures NearTier(inp, inp.rows[0], {}, inp.banks[1])
  {
  }

  /** There is a sheet on which both lower tiers are open, and the description fallback is taken, ahead of the near
      amount. */
  lemma DescriptionBeforeNear() returns (inp: Input)
    ensures inp.Valid() && |inp.rows| == 1
    ensures TierOpen(inp, {}, None, ByDescription(inp, inp.rows[0]))
    ensures TierOpen(inp, {}, None, Near(inp, inp.rows[0], CompatibleCodes(inp, inp.rows[0])))
    ensures ExhaustiveResult(inp, inp.rows[0], CompatibleCodes(inp, inp.rows[0]), {}, None).matchCase
         == AmountDescriptionFallback
  {
    inp := TwoTierSheet();
    var ist := inp.rows[0];
    NoCodes(inp, ist);
    NearIsOpen(inp);
    FitsByDay(inp, ist, inp.banks[0]);
    assert inp.Owns(inp.banks[0]) && ByDescription(inp, ist)(inp.banks[0]);
    assert inp.Owns(inp.banks[1]) && Near(inp, ist, {})(inp.banks[1]);
    assert forall b | inp.Owns(b) :: !Forced(inp, ist, {})(b);
    ExhaustiveIsTierOptimal(inp, ist, {}, {}, None);
  }

  // ---------------------------------------------------------------- two currencies

  /** An open row without links and a bank with its account, day and amount, but in another currency. */
  ghost predicate TwoCurrencies(inp: Input) {
    && inp.Valid() && inp.opts == Options(3, 0.01, 0.05, 100.0, 0.75, false, false)
    && |inp.rows| == 1 && |inp.banks| == 1 && inp.Ref(inp.banks[0]) != "" && !inp.Preserved(inp.rows[0])
    && inp.rows[0].directSearchTexts == [] && !IsCashJournal(inp.ev, inp.rows[0])
    && OtherwiseEqual(inp.rows[0], inp.banks[0]) && !CurrencyAgrees(inp.rows[0], inp.banks[0])
    && inp.ev.accountScore(inp.rows[0].accountCode, inp.banks[0].accountCode) == 1.0
    && ScoreCandidate(inp, inp.rows[0], inp.banks[0]).score == 0.83
  }

  predicate OtherwiseEqual(ist: Ist, b: Bank) {
    && ist.amount.Some? && b.amount == ist.amount && ist.direction.Some? && b.direction == ist.direction
    && ist.epochDay.Some? && b.epochDay == ist.epochDay && b.valueEpochDay.None?
  }

  /** Measures under which every account and every reference speaks for every bank, and no text does. */
  function SameAccount(): (ev: Evidence)
    ensures forall t: string, u: string :: ev.accountScore(t, u) == 1.0 && ev.similarity(t, u) == 0.0
    ensures forall ist: Ist, b: Bank :: ev.referenceScore(ist, b) == 1.0
    ensures forall t: string :: ev.compact(t) == t && ev.normalizeText(t) == t && !ev.cashJournal(t)
  {
    PLAIN.(accountScore := (t: string, u: string) => 1.0, referenceScore := (r: Ist, b: Bank) => 1.0)
  }

  lemma TwoCurrencySheet() returns (inp: Input)
    ensures TwoCurrencies(inp)
  {
    var ev := SameAccount();
    var bank :=
      PlainBank().(epochDay := Some(10), amount := Some(100.0), direction := Some(Deposit), currency := "EUR");
    var open := Row(2, "", "", "").(
      epochDay := Some(10), amount := Some(100.0), direction := Some(Deposit), currency := "USD",
      directSearchTexts := []);
    inp := Input([open], [bank], Options(3, 0.01, 0.05, 100.0, 0.75, false, false), ev);
    FavourableReference(ev);
    assert "EUR"[0] != "USD"[0];
    FullScore(inp, open, bank);
  }

  /** Amount, day, account, direction and reference add up to 0.83. */
  lemma FullScore(inp: Input, ist: Ist, b: Bank)
    requires OtherwiseEqual(ist, b) && inp.opts.amountTolerance >= 0.0 && ist.hintText == ""
    requires inp.ev.accountScore(ist.accountCode, b.accountCode) == 1.0 && inp.ev.referenceScore(ist, b) == 1.0
    requires forall t: string, u: string :: inp.ev.similarity(t, u) == 0.0
    requires forall t: string :: inp.ev.normalizeText(t) == t
    ensures ScoreCandidate(inp, ist, b).score == 0.83
  {
    AmountMatchIsSymmetric(inp.opts, ist.amount.value, ist.amount.value);
  }

  lemma NothingIsLinked(inp: Input)
    requires TwoCurrencies(inp)
    ensures Stage(inp, 2) == Stage(inp, 0)
  {
    var ist, s := inp.rows[0], Stage(inp, 0);
    var found := RM.Find(inp, [], ist.row);
    if |found| > 0 {
      RM.FindMeaning(inp, [], ist.row, found[0]);
    }
    assert Step(inp, ByReference, s, ist) == s;
    OneStep(inp, s);
    assert Stage(inp, 1) == s;
    assert GroupKeys(inp, s, 1) == [];
  }

  lemma OneStep(inp: Input, s: State)
    requires inp.Valid() && |inp.rows| == 1
    ensures Sweep(inp, ByReference, s) == Step(inp, ByReference, s, inp.rows[0])
  {
    assert Fold(inp.rows, Stepper(inp, ByReference), s, 0) == s;
  }

  /** The 30-day search finds the bank, once, and nothing else. */
  lemma OnlyInFallback(inp: Input)
    requires TwoCurrencies(inp)
    ensures FallbackCandidatesFor(inp, inp.rows[0]) == [inp.banks[0]]
  {
    var ist, b, found := inp.rows[0], inp.banks[0], FallbackCandidatesFor(inp, inp.rows[0]);
    AmountMatchIsSymmetric(inp.opts, ist.amount.value, ist.amount.value);
    forall c
      ensures c in found <==> c == b
    {
      assert inp.Owns(c) <==> c == b;
      FallbackMeaning(inp, ist, b);
      FallbackMeaning(inp, ist, c);
    }
    var tolerance := MaxNat(inp.opts.toleranceDays, 30);
    SearchOrder(inp.banks, ist.epochDay.value, tolerance, EvidentFallback(inp, ist));
    SearchOrder(inp.banks, ist.epochDay.value, tolerance, PlainFallback(inp, ist));
    OneOfOne(found, b);
  }

  lemma OnlyBankWins(inp: Input)
    requires TwoCurrencies(inp)
    ensures Cert.WinsAmong(inp, inp.rows[0], [inp.banks[0]], {}, inp.banks[0])
  {
    var ist, b := inp.rows[0], inp.banks[0];
    AmountMatchIsSymmetric(inp.opts, ist.amount.value, ist.amount.value);
    var free := Filter([b], Unused(inp, {}));
    InFilter([b], Unused(inp, {}));
    FilterKeepsDistinct([b], Unused(inp, {}));
    OneOfOne(free, b);
    var scores := Scores(inp, ist, free);
    assert scores[0] == ScoreCandidate(inp, ist, b);
    assert Wins(inp.opts, scores, 0);
  }

  lemma OtherCurrencyIsOffered(inp: Input)
    requires TwoCurrencies(inp)
    ensures Verified.OtherCurrency(inp, inp.rows[0], {}, inp.banks[0]) && Cert.NarrowIsTaken(inp, inp.rows[0], {})
  {
    OnlyInFallback(inp);
    OnlyBankWins(inp);
  }

  lemma NothingBeforeScoring(inp: Input)
    requires TwoCurrencies(inp)
    ensures Current(Stage(inp, 2), inp.rows[0]).None? && Cert.UsedAtScoring(inp, 0) == {}
  {
    NothingIsLinked(inp);
    EmptyIsSound(inp);
  }

  /** There is a sheet on which a row ends with the account-date-amount case on a bank in another currency. */
  lemma CurrencyMayDiffer() returns (inp: Input)
    ensures inp.Valid() && |inp.rows| == 1 && |inp.banks| == 1
    ensures Verified.MisnamedCurrency(inp, inp.rows[0])
  {
    inp := TwoCurrencySheet();
    NothingBeforeScoring(inp);
    OtherCurrencyIsOffered(inp);
    Verified.CurrencyGoesWrong(inp, 0);
  }
}
