/** The rows, bank transactions, options and match results of the reconciliation engine. */
module Ledger {
  import opened Basics

  datatype Direction = Deposit | Withdraw

  /** One bank transaction. `index` is its position in the list of usable bank rows; the account code is
      already normalized. Blank text stands for an empty cell. */
  datatype Bank = Bank(
    index: nat,
    bankRef: string,
    description: string,
    supplierBeneficiary: string,
    cashFlow: string,
    customerReference: string,
    dynamicsEntry: string,
    epochDay: Option<int>,
    valueEpochDay: Option<int>,
    amount: Option<real>,
    direction: Option<Direction>,
    accountCode: string,
    currency: string,
    searchText: string,
    partyText: string)

  /** One IST row. */
  datatype Ist = Ist(
    row: nat,
    paymentReference: string,
    description: string,
    journalName: string,
    clientName: string,
    document: string,
    invoice: string,
    voucher: string,
    operationNo: string,
    epochDay: Option<int>,
    amount: Option<real>,
    direction: Option<Direction>,
    accountCode: string,
    currency: string,
    directSearchTexts: seq<string>,
    searchText: string,
    partyText: string,
    hintText: string,
    referenceTokens: seq<string>)

  datatype Options = Options(
    toleranceDays: nat,
    amountTolerance: real,
    amountTolerancePercent: real,
    amountToleranceCap: real,
    confidenceThreshold: real,
    allowManyToOne: bool,
    forceAll: bool)

  datatype Status = Matched | NeedsReview | Unmatched

  datatype MatchCase =
    | ExistingReferencePreserved
    | DirectReferenceMatch
    | AccountDateAmountMatch
    | GroupedSettlementMatch
    | CashJournalMatch
    | ForcedBestBankMatch
    | AmountDescriptionFallback
    | NearAmountClientMatch
    | DateAmountTermsMatch
    | FuzzyProbableMatch
    | IncorrectOrAmbiguousLink
    | NoCandidate

  datatype MatchResult = MatchResult(status: Status, matchCase: MatchCase, confidence: real, bank: Option<Bank>)

  /** The text measures the engine consults. Nothing is assumed about them, so every result holds for
      whatever they compute. */
  datatype Evidence = Evidence(
    compact: string -> string,
    normalizeText: string -> string,
    similarity: (string, string) -> real,
    terms: string -> seq<string>,
    accountScore: (string, string) -> real,
    referenceScore: (Ist, Bank) -> real,
    cashJournal: string -> bool,
    cashLike: (string, Direction) -> bool)

  /** Measures that take every text as it stands and see no likeness anywhere, for concrete sheets. */
  const PLAIN := Evidence((t: string) => t, (t: string) => t, (t: string, u: string) => 0.0, (t: string) => [],
                          (t: string, u: string) => 0.0, (r: Ist, b: Bank) => 0.0, (t: string) => false,
                          (t: string, d: Direction) => false)

  datatype Input = Input(rows: seq<Ist>, banks: seq<Bank>, opts: Options, ev: Evidence) {
    /** What reading the two sheets guarantees: banks are numbered in order and row numbers differ. */
    ghost predicate Valid() {
      && (forall i | 0 <= i < |banks| :: banks[i].index == i)
      && (forall i, j | 0 <= i < j < |rows| :: rows[i].row != rows[j].row)
    }

    /** The normalized reference of a bank row; blank for a placeholder. */
    function Ref(b: Bank): string {
      NormalizeReference(ev, b.bankRef)
    }

    /** hasValidPaymentReference. */
    predicate Preserved(ist: Ist) {
      NormalizeReference(ev, ist.paymentReference) != ""
    }

    /** The bank is one of this input's own transactions. */
    predicate Owns(b: Bank) {
      b.index < |banks| && banks[b.index] == b
    }
  }

  const PLACEHOLDERS: set<string> := {"na", "none", "null", "undefined", "nonref", "noref"}

  /** A reference shorter than four characters, all zeros, or a known placeholder word counts as blank. */
  function NormalizeReference(ev: Evidence, text: string): string {
    var c := ev.compact(text);
    if |c| < 4 || (forall i | 0 <= i < |c| :: c[i] == '0') || c in PLACEHOLDERS then "" else c
  }

  predicate CurrencyAgrees(ist: Ist, b: Bank) {
    ist.currency == "" || b.currency == "" || ist.currency == b.currency
  }

  const PETTY_CASH_PREFIXES: seq<string> :=
    ["PSD", "AIRPORT", "DMT", "ALEXSUB", "ALEXHO", "MERGHEM", "POS", "CCC", "TR-SKHN"]

  predicate IsPettyCashAccount(code: string) {
    exists p | p in PETTY_CASH_PREFIXES :: code == p || p + "-" <= code
  }

  predicate IsCashJournal(ev: Evidence, ist: Ist) {
    ev.cashJournal(ev.normalizeText(ist.journalName + " " + ist.description))
  }

  predicate IsPettyCashRow(ev: Evidence, ist: Ist) {
    IsCashJournal(ev, ist) && IsPettyCashAccount(ist.accountCode)
  }

  predicate IsCashLikeBank(ev: Evidence, b: Bank, d: Direction) {
    ev.cashLike(ev.normalizeText(b.cashFlow + " " + b.description), d)
  }

  /** The days a bank row is filed under. */
  predicate FiledOn(b: Bank, day: int) {
    b.epochDay == Some(day) || b.valueEpochDay == Some(day)
  }

  predicate WithinDays(b: Bank, day: int, tolerance: nat) {
    || (b.epochDay.Some? && Gap(b.epochDay.value, day) <= tolerance)
    || (b.valueEpochDay.Some? && Gap(b.valueEpochDay.value, day) <= tolerance)
  }

  /** Days between a row and the nearer of the bank's two dates. */
  function DayGap(ist: Ist, b: Bank): Option<nat> {
    match (ist.epochDay, b.epochDay, b.valueEpochDay)
    case (None, _, _) => None
    case (_, None, None) => None
    case (Some(d), Some(e), None) => Some(Gap(d, e))
    case (Some(d), None, Some(v)) => Some(Gap(d, v))
    case (Some(d), Some(e), Some(v)) => Some(if Gap(d, v) < Gap(d, e) then Gap(d, v) else Gap(d, e))
  }
}
