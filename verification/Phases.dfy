/** The six phases of the reconciliation engine as functions on its two shared structures. */
module Phases {
  import opened Basics
  import opened Ledger
  import opened Scoring
  import opened Window
  import RM = ReferenceMatching
  import Aliases

  /** The results by row number and the numbers of the banks taken so far. */
  datatype State = State(matches: map<nat, MatchResult>, used: set<nat>)

  function Current(s: State, ist: Ist): Option<MatchResult> {
    if ist.row in s.matches then Some(s.matches[ist.row]) else None
  }

  function OwnBank(current: Option<MatchResult>): Option<nat> {
    if current.Some? && current.value.bank.Some? then Some(current.value.bank.value.index) else None
  }

  /** Matched to a bank with a reference: no later phase touches the row. */
  predicate Settled(inp: Input, current: Option<MatchResult>) {
    current.Some? && current.value.status == Matched && current.value.bank.Some? && inp.Ref(current.value.bank.value) != ""
  }

  /** Records a result; its bank, if any, becomes used when `take` holds. */
  function Record(s: State, ist: Ist, m: MatchResult, take: bool): State {
    State(s.matches[ist.row := m],
          if m.bank.Some? && take then s.used + {m.bank.value.index} else s.used)
  }

  predicate Free(inp: Input, used: set<nat>, own: Option<nat>, b: Bank) {
    inp.opts.allowManyToOne || b.index !in used || own == Some(b.index)
  }

  function MaxNat(x: nat, y: nat): nat {
    if x < y then y else x
  }

  // ---------------------------------------------------------------- phase 1: references

  function ByDirectRank(inp: Input, ist: Ist): Bank -> Rank {
    b =>
      var s := ScoreCandidate(inp, ist, b);
      Rank(s.amountScore + s.directionScore + s.accountScore + s.dateScore, s.score, 0.0)
  }

  function BestDirect(inp: Input, ist: Ist, candidates: seq<Bank>): Option<Bank> {
    if |candidates| == 0 then None else Some(candidates[Foremost(candidates, ByDirectRank(inp, ist))])
  }

  function RuleConfidence(inp: Input, ist: Ist, b: Bank): real {
    var ref := inp.Ref(b);
    var payment := inp.ev.compact(ist.paymentReference);
    if ref == "" then 0.8
    else if payment == ref then 1.0
    else if inp.ev.compact(ist.document) == ref || inp.ev.compact(ist.invoice) == ref then 0.95
    else if inp.ev.compact(ist.voucher) == ref || inp.ev.compact(ist.operationNo) == ref then 0.9
    else if |payment| >= 4 && (Contains(payment, ref) || Contains(ref, payment)) then 0.85
    else 0.8
  }

  function PreservedResult(inp: Input, ist: Ist, found: seq<Bank>): MatchResult {
    match BestDirect(inp, ist, found)
    case Some(b) => MatchResult(Matched, ExistingReferencePreserved, 1.0, Some(b))
    case None => MatchResult(NeedsReview, ExistingReferencePreserved, 0.5, None)
  }

  function Available(inp: Input, used: set<nat>): Bank -> bool {
    b => inp.Ref(b) != "" && Free(inp, used, None, b)
  }

  function DirectResult(inp: Input, ist: Ist, found: seq<Bank>, used: set<nat>): Option<MatchResult> {
    match BestDirect(inp, ist, Filter(found, Available(inp, used)))
    case Some(b) =>
      var confidence := RuleConfidence(inp, ist, b);
      Some(MatchResult(if confidence >= 0.9 then Matched else NeedsReview, DirectReferenceMatch, confidence, Some(b)))
    case None =>
      if |found| > 0 then Some(MatchResult(NeedsReview, IncorrectOrAmbiguousLink, 1.0, None)) else None
  }

  ghost function ReferenceStep(inp: Input, s: State, ist: Ist): State
    requires inp.Valid()
  {
    if inp.Preserved(ist) then
      Record(s, ist, PreservedResult(inp, ist, RM.Find(inp, [ist.paymentReference], ist.row)), !inp.opts.allowManyToOne)
    else
      match DirectResult(inp, ist, RM.Find(inp, ist.directSearchTexts, ist.row), s.used)
      case Some(m) => Record(s, ist, m, !inp.opts.allowManyToOne)
      case None => s
  }

  // ---------------------------------------------------------------- phase 2: grouped settlement

  datatype GroupKey = GroupKey(day: int, account: string, direction: Direction, client: string)

  predicate Groupable(inp: Input, s: State, ist: Ist) {
    && !inp.Preserved(ist)
    && ist.row in s.matches
    && s.matches[ist.row].status != Matched
    && s.matches[ist.row].matchCase != CashJournalMatch
    && ist.epochDay.Some? && ist.amount.Some? && ist.direction.Some?
    && (ist.accountCode != "" || inp.ev.normalizeText(ist.clientName) != "")
  }

  function KeyOf(ev: Evidence, ist: Ist): GroupKey
    requires ist.epochDay.Some? && ist.direction.Some?
  {
    GroupKey(ist.epochDay.value, ist.accountCode, ist.direction.value, ev.normalizeText(ist.clientName))
  }

  predicate InGroup(inp: Input, s: State, key: GroupKey, ist: Ist) {
    Groupable(inp, s, ist) && KeyOf(inp.ev, ist) == key
  }

  function HasKey(inp: Input, s: State, key: GroupKey): Ist -> bool {
    ist => InGroup(inp, s, key, ist)
  }

  /** The rows that share a key, in sheet order. */
  function GroupOf(inp: Input, s: State, key: GroupKey): seq<Ist> {
    Filter(inp.rows, HasKey(inp, s, key))
  }

  /** The keys among the first `n` rows, each at its first appearance. */
  function GroupKeys(inp: Input, s: State, n: nat): seq<GroupKey>
    requires n <= |inp.rows|
  {
    if n == 0 then [] else
    var keys := GroupKeys(inp, s, n - 1);
    var ist := inp.rows[n - 1];
    if Groupable(inp, s, ist) && KeyOf(inp.ev, ist) !in keys then keys + [KeyOf(inp.ev, ist)] else keys
  }

  function Total(group: seq<Ist>): real {
    if |group| == 0 then 0.0
    else Total(group[..|group| - 1]) + (match group[|group| - 1].amount case Some(a) => a case None => 0.0)
  }

  function BestReference(ev: Evidence, group: seq<Ist>, b: Bank): real
    requires |group| > 0
  {
    var last := ev.referenceScore(group[|group| - 1], b);
    if |group| == 1 then last else Max(BestReference(ev, group[..|group| - 1], b), last)
  }

  predicate GroupAccepts(inp: Input, group: seq<Ist>, b: Bank)
    requires |group| > 0
  {
    var anchor := group[0];
    && inp.Ref(b) != ""
    && b.direction == anchor.direction
    && b.amount.Some? && AmountMatched(inp.opts, Total(group), b.amount.value)
    && CurrencyAgrees(anchor, b)
    && (|| inp.ev.accountScore(anchor.accountCode, b.accountCode) >= 0.3
        || PartyScore(inp.ev, anchor, b) >= 0.2
        || inp.ev.similarity(Join(Map(group, (r: Ist) => r.searchText)), b.searchText) >= 0.18
        || BestReference(inp.ev, group, b) >= 0.75)
  }

  function GroupCandidate(inp: Input, group: seq<Ist>, used: set<nat>): Bank -> bool
    requires |group| > 0
  {
    b => GroupAccepts(inp, group, b) && Free(inp, used, None, b)
  }

  function References(inp: Input, banks: seq<Bank>): set<string> {
    set b | b in banks :: inp.Ref(b)
  }

  predicate RightSize(group: seq<Ist>) {
    2 <= |group| <= 50
  }

  function GroupChoice(inp: Input, group: seq<Ist>, candidates: seq<Bank>): Option<Bank>
    requires |group| > 0
  {
    if |References(inp, candidates)| != 1 then None else BestDirect(inp, group[0], candidates)
  }

  function GroupedResult(b: Bank): MatchResult {
    MatchResult(Matched, GroupedSettlementMatch, 0.95, Some(b))
  }

  /** Gives every row of the group the same result. */
  function RecordAll(s: State, group: seq<Ist>, m: MatchResult, n: nat): State
    requires n <= |group|
  {
    if n == 0 then s else Record(RecordAll(s, group, m, n - 1), group[n - 1], m, true)
  }

  function GroupSearch(inp: Input, group: seq<Ist>, used: set<nat>): seq<Bank>
    requires |group| > 0 && group[0].epochDay.Some?
  {
    Search(inp.banks, group[0].epochDay.value, inp.opts.toleranceDays, GroupCandidate(inp, group, used))
  }

  function GroupStep(inp: Input, s: State, group: seq<Ist>): State
    requires |group| > 0 && group[0].epochDay.Some?
  {
    if !RightSize(group) then s else
    match GroupChoice(inp, group, GroupSearch(inp, group, s.used))
    case Some(b) => RecordAll(s, group, GroupedResult(b), |group|)
    case None => s
  }

  lemma {:induction false} KeyHasGroup(inp: Input, s: State, n: nat, key: GroupKey)
    requires n <= |inp.rows|
    ensures key in GroupKeys(inp, s, n) <==> exists i | 0 <= i < n :: InGroup(inp, s, key, inp.rows[i])
  {
    if n > 0 {
      KeyHasGroup(inp, s, n - 1, key);
    }
  }

  lemma GroupIsInhabited(inp: Input, s: State, key: GroupKey)
    requires key in GroupKeys(inp, s, |inp.rows|)
    ensures |GroupOf(inp, s, key)| > 0 && GroupOf(inp, s, key)[0].epochDay.Some?
    ensures forall r | r in GroupOf(inp, s, key) :: r in inp.rows && InGroup(inp, s, key, r)
  {
    KeyHasGroup(inp, s, |inp.rows|, key);
    InFilter(inp.rows, HasKey(inp, s, key));
    var i :| 0 <= i < |inp.rows| && InGroup(inp, s, key, inp.rows[i]);
    var group := GroupOf(inp, s, key);
    assert inp.rows[i] in group;
    assert group[0] in group;
  }

  /** The first `k` groups; who belongs to a group is settled by the state the phase starts from. */
  function GroupSweep(inp: Input, s: State, k: nat): State
    requires k <= |GroupKeys(inp, s, |inp.rows|)|
  {
    if k == 0 then s else
    var key := GroupKeys(inp, s, |inp.rows|)[k - 1];
    GroupIsInhabited(inp, s, key);
    GroupStep(inp, GroupSweep(inp, s, k - 1), GroupOf(inp, s, key))
  }

  // ---------------------------------------------------------------- phase 3: scored match

  predicate ScoredAccepts(inp: Input, ist: Ist, b: Bank) {
    var account := inp.ev.accountScore(ist.accountCode, b.accountCode);
    && SameMoney(inp, ist, b)
    && CurrencyAgrees(ist, b)
    && (|| account >= (if IsPettyCashRow(inp.ev, ist) then 0.75 else 0.3)
        || PartyScore(inp.ev, ist, b) >= 0.3
        || inp.ev.referenceScore(ist, b) >= 0.75)
  }

  function ScoredCandidate(inp: Input, ist: Ist): Bank -> bool {
    b => ScoredAccepts(inp, ist, b)
  }

  function CandidatesFor(inp: Input, ist: Ist): seq<Bank> {
    if ist.epochDay.None? || ist.amount.None? then []
    else Search(inp.banks, ist.epochDay.value, inp.opts.toleranceDays, ScoredCandidate(inp, ist))
  }

  predicate FallbackEvidence(inp: Input, ist: Ist, b: Bank) {
    || (ist.partyText != "" && b.partyText != "" && PartyScore(inp.ev, ist, b) >= 0.2)
    || inp.ev.referenceScore(ist, b) >= 0.75
  }

  function PlainFallback(inp: Input, ist: Ist): Bank -> bool {
    b => SameMoney(inp, ist, b)
  }

  function EvidentFallback(inp: Input, ist: Ist): Bank -> bool {
    b => SameMoney(inp, ist, b) && FallbackEvidence(inp, ist, b)
  }

  /** The 30-day search: banks with client or reference evidence if there are any, otherwise all. */
  function FallbackCandidatesFor(inp: Input, ist: Ist): seq<Bank> {
    if ist.epochDay.None? || ist.amount.None? || IsPettyCashRow(inp.ev, ist) then [] else
    var tolerance := MaxNat(inp.opts.toleranceDays, 30);
    var evident := Search(inp.banks, ist.epochDay.value, tolerance, EvidentFallback(inp, ist));
    if |evident| > 0 then evident else Search(inp.banks, ist.epochDay.value, tolerance, PlainFallback(inp, ist))
  }

  function Unused(inp: Input, used: set<nat>): Bank -> bool {
    b => Free(inp, used, None, b)
  }

  function Scores(inp: Input, ist: Ist, banks: seq<Bank>): seq<Scored> {
    Map(banks, b => ScoreCandidate(inp, ist, b))
  }

  function DecideAmong(inp: Input, ist: Ist, candidates: seq<Bank>, used: set<nat>): MatchResult {
    Decide(inp.opts, Scores(inp, ist, Filter(candidates, Unused(inp, used))))
  }

  function ScoredResult(inp: Input, ist: Ist, used: set<nat>): MatchResult {
    var first := DecideAmong(inp, ist, CandidatesFor(inp, ist), used);
    if first.status != Unmatched then first else
    var second := DecideAmong(inp, ist, FallbackCandidatesFor(inp, ist), used);
    if second.status != Unmatched then second.(status := NeedsReview) else first
  }

  function ScoredStep(inp: Input, s: State, ist: Ist): State {
    if ist.row in s.matches then s else Record(s, ist, ScoredResult(inp, ist, s.used), true)
  }

  // ---------------------------------------------------------------- phase 4: exhaustive fallback

  const NOTHING := MatchResult(Unmatched, NoCandidate, 0.0, None)

  ghost function CompatibleCodes(inp: Input, ist: Ist): set<string> {
    (if ist.accountCode != "" && exists b | b in inp.banks :: b.accountCode == ist.accountCode
     then {ist.accountCode} else {})
    + Aliases.AliasesOf(inp, ist.accountCode)
  }

  predicate ForcedTier(inp: Input, ist: Ist, codes: set<string>, b: Bank) {
    SameMoney(inp, ist, b) && CurrencyAgrees(ist, b) && b.accountCode in codes
  }

  predicate DescriptionTier(inp: Input, ist: Ist, b: Bank) {
    && SameMoney(inp, ist, b)
    && CurrencyAgrees(ist, b)
    && (|| DateDifference(ist, b) <= MaxNat(inp.opts.toleranceDays, 7)
        || inp.ev.referenceScore(ist, b) >= 0.75
        || PartyScore(inp.ev, ist, b) >= 0.2
        || inp.ev.similarity(ist.searchText, b.searchText) >= 0.18
        || inp.ev.accountScore(ist.accountCode, b.accountCode) >= 0.25)
  }

  const IGNORED_TERMS: set<string> := {"egypt", "misr", "company", "co", "sae", "s.a.e"}

  function Telling(ev: Evidence, text: string): seq<string> {
    Filter(ev.terms(text), t => t !in IGNORED_TERMS)
  }

  /** The share of the client's telling words that the bank text contains. */
  function ClientCoverage(ev: Evidence, client: string, bankText: string): real {
    var words := Telling(ev, client);
    if |words| == 0 then 0.0
    else |Filter(words, t => t in ev.terms(bankText))| as real / |words| as real
  }

  function MaxNearDifference(amount: real): real {
    Min(500.0, Max(10.0, amount * 0.005))
  }

  predicate NearTier(inp: Input, ist: Ist, codes: set<string>, b: Bank) {
    var account := inp.ev.accountScore(ist.accountCode, b.accountCode);
    var reference := inp.ev.referenceScore(ist, b);
    && inp.Ref(b) != ""
    && ist.amount.Some? && b.amount.Some?
    && ist.direction.Some? && b.direction == ist.direction
    && CurrencyAgrees(ist, b)
    && !AmountMatched(inp.opts, ist.amount.value, b.amount.value)
    && AmountDifference(ist, b) <= MaxNearDifference(ist.amount.value)
    && DateDifference(ist, b) <= MaxNat(inp.opts.toleranceDays, 14)
    && (account >= 0.75 || b.accountCode in codes || (account >= 0.25 && reference >= 0.75))
    && (|| reference >= 0.75
        || ClientCoverage(inp.ev, ist.partyText, b.partyText + " " + b.description) >= 0.5
        || PartyScore(inp.ev, ist, b) >= 0.45)
  }

  function TierCandidates(inp: Input, used: set<nat>, own: Option<nat>, tier: Bank -> bool): seq<Bank> {
    Filter(inp.banks, b => tier(b) && Free(inp, used, own, b))
  }

  function Forced(inp: Input, ist: Ist, codes: set<string>): Bank -> bool {
    b => ForcedTier(inp, ist, codes, b)
  }

  function ByDescription(inp: Input, ist: Ist): Bank -> bool {
    b => DescriptionTier(inp, ist, b)
  }

  function Near(inp: Input, ist: Ist, codes: set<string>): Bank -> bool {
    b => NearTier(inp, ist, codes, b)
  }

  function BestForced(inp: Input, ist: Ist, candidates: seq<Bank>, matchCase: MatchCase): MatchResult
    requires |candidates| > 0
  {
    var b := candidates[Foremost(candidates, ByForcedRank(inp.ev, ist))];
    MatchResult(NeedsReview, matchCase, ForcedScore(inp.ev, ist, b), Some(b))
  }

  function ExhaustiveResult(inp: Input, ist: Ist, codes: set<string>, used: set<nat>, own: Option<nat>): MatchResult {
    var forced := TierCandidates(inp, used, own, Forced(inp, ist, codes));
    if |forced| > 0 then BestForced(inp, ist, forced, ForcedBestBankMatch) else
    var described := TierCandidates(inp, used, own, ByDescription(inp, ist));
    if |described| > 0 then BestForced(inp, ist, described, AmountDescriptionFallback) else
    var near := TierCandidates(inp, used, own, Near(inp, ist, codes));
    if |near| > 0 then BestForced(inp, ist, near, NearAmountClientMatch) else
    NOTHING
  }

  ghost function ExhaustiveStep(inp: Input, s: State, ist: Ist): State {
    var current := Current(s, ist);
    if inp.Preserved(ist) || Settled(inp, current) then s
    else if IsPettyCashRow(inp.ev, ist) then
      if current.None? || current.value.status == Unmatched then Record(s, ist, NOTHING, false) else s
    else if ist.amount.None? || ist.direction.None? then Record(s, ist, NOTHING, false)
    else
      Record(s, ist, ExhaustiveResult(inp, ist, CompatibleCodes(inp, ist), s.used, OwnBank(current)),
             !inp.opts.allowManyToOne)
  }

  // ---------------------------------------------------------------- phase 5: rebuild

  predicate Holds(inp: Input, m: MatchResult) {
    m.status != Unmatched && m.bank.Some? && inp.Ref(m.bank.value) != ""
  }

  /** The numbers of the banks with a reference that some result holds. */
  function HeldBanks(inp: Input, matches: map<nat, MatchResult>): set<nat> {
    set r | r in matches && Holds(inp, matches[r]) :: matches[r].bank.value.index
  }

  function Rebuild(inp: Input, s: State): State {
    if inp.opts.allowManyToOne then s else s.(used := HeldBanks(inp, s.matches))
  }

  // ---------------------------------------------------------------- phase 6: cash journals

  predicate CashAccepts(inp: Input, ist: Ist, b: Bank) {
    && SameMoney(inp, ist, b)
    && CurrencyAgrees(ist, b)
    && IsCashLikeBank(inp.ev, b, ist.direction.value)
    && (IsPettyCashAccount(ist.accountCode) && b.accountCode != "" ==>
          inp.ev.accountScore(ist.accountCode, b.accountCode) >= 0.75)
  }

  function CashCandidate(inp: Input, ist: Ist, used: set<nat>, own: Option<nat>): Bank -> bool {
    b => CashAccepts(inp, ist, b) && Free(inp, used, own, b)
  }

  function CashSearch(inp: Input, ist: Ist, used: set<nat>, own: Option<nat>): seq<Bank>
    requires ist.epochDay.Some?
  {
    Search(inp.banks, ist.epochDay.value, MaxNat(inp.opts.toleranceDays, 3), CashCandidate(inp, ist, used, own))
  }

  function CashResult(inp: Input, ist: Ist, b: Bank): MatchResult {
    MatchResult(NeedsReview, CashJournalMatch, Max(0.9, ForcedScore(inp.ev, ist, b)), Some(b))
  }

  predicate CashRow(inp: Input, ist: Ist, current: Option<MatchResult>) {
    && !inp.Preserved(ist) && !Settled(inp, current) && IsCashJournal(inp.ev, ist)
    && ist.epochDay.Some? && ist.amount.Some? && ist.direction.Some?
  }

  /** A row that already holds another bank with a reference keeps it. */
  predicate Keeps(inp: Input, current: Option<MatchResult>, b: Bank) {
    && current.Some? && current.value.bank.Some? && inp.Ref(current.value.bank.value) != ""
    && current.value.bank.value.index != b.index
  }

  function CashStep(inp: Input, s: State, ist: Ist): State {
    var current := Current(s, ist);
    if !CashRow(inp, ist, current) then s else
    var candidates := CashSearch(inp, ist, s.used, OwnBank(current));
    if |candidates| != 1 || Keeps(inp, current, candidates[0]) then s
    else Record(s, ist, CashResult(inp, ist, candidates[0]), !inp.opts.allowManyToOne)
  }

  // ---------------------------------------------------------------- the whole run

  datatype Phase = ByReference | BestScored | Exhaustive | Cash

  ghost function Step(inp: Input, phase: Phase, s: State, ist: Ist): State
    requires inp.Valid()
  {
    match phase
    case ByReference => ReferenceStep(inp, s, ist)
    case BestScored => ScoredStep(inp, s, ist)
    case Exhaustive => ExhaustiveStep(inp, s, ist)
    case Cash => CashStep(inp, s, ist)
  }

  ghost function Stepper(inp: Input, phase: Phase): (State, Ist) -> State
    requires inp.Valid()
  {
    (s: State, ist: Ist) => Step(inp, phase, s, ist)
  }

  /** `step` is the phase's step; the definition is unfolded only where the step itself is mentioned. */
  ghost predicate Implements(inp: Input, phase: Phase, step: (State, Ist) -> State)
    requires inp.Valid()
  {
    forall s: State, ist: Ist {:trigger Step(inp, phase, s, ist)} :: step(s, ist) == Step(inp, phase, s, ist)
  }

  lemma StepperImplements(inp: Input, phase: Phase)
    requires inp.Valid()
    ensures Implements(inp, phase, Stepper(inp, phase))
  {
  }

  /** One pass over the first `k` rows. */
  ghost function Fold(rows: seq<Ist>, step: (State, Ist) -> State, s: State, k: nat): State
    requires k <= |rows|
  {
    if k == 0 then s else step(Fold(rows, step, s, k - 1), rows[k - 1])
  }

  /** Induction over a pass: what the start satisfies and every step hands on holds after the pass. */
  lemma {:induction false} FoldInvariant(
    rows: seq<Ist>, step: (State, Ist) -> State, holds: (nat, State) -> bool, s: State, k: nat)
    requires k <= |rows|
    requires holds(0, s)
    requires forall j: nat, t: State | j < |rows| && holds(j, t) :: holds(j + 1, step(t, rows[j]))
    ensures holds(k, Fold(rows, step, s, k))
  {
    if k > 0 {
      FoldInvariant(rows, step, holds, s, k - 1);
    }
  }

  /** Two points of one pass: what every step relates, later points of a pass relate to earlier ones. */
  lemma {:induction false} FoldRelates(
    rows: seq<Ist>, step: (State, Ist) -> State, rel: (State, State) -> bool, s: State, j: nat, k: nat)
    requires j <= k <= |rows|
    requires forall t: State :: rel(t, t)
    requires forall t: State, u: State, v: State | rel(t, u) && rel(u, v) :: rel(t, v)
    requires forall n: nat, t: State | n < |rows| :: rel(t, step(t, rows[n]))
    ensures rel(Fold(rows, step, s, j), Fold(rows, step, s, k))
  {
    if j < k {
      FoldRelates(rows, step, rel, s, j, k - 1);
      assert rel(Fold(rows, step, s, k - 1), step(Fold(rows, step, s, k - 1), rows[k - 1]));
    }
  }

  /** A row-by-row phase over all rows. */
  ghost function Sweep(inp: Input, phase: Phase, s: State): State
    requires inp.Valid()
  {
    Fold(inp.rows, Stepper(inp, phase), s, |inp.rows|)
  }

  /** Phase `n`, from the state the phase before it left. */
  ghost function Next(inp: Input, n: nat, s: State): State
    requires inp.Valid()
  {
    if n == 1 then Sweep(inp, ByReference, s)
    else if n == 2 then GroupSweep(inp, s, |GroupKeys(inp, s, |inp.rows|)|)
    else if n == 3 then Sweep(inp, BestScored, s)
    else if n == 4 then (if inp.opts.forceAll then Sweep(inp, Exhaustive, s) else s)
    else if n == 5 then Rebuild(inp, s)
    else if n == 6 then Sweep(inp, Cash, s)
    else s
  }

  /** The state after each of the six phases. */
  ghost function Stage(inp: Input, n: nat): State
    requires inp.Valid()
  {
    if n == 0 then State(map[], {}) else Next(inp, n, Stage(inp, n - 1))
  }

  ghost function Final(inp: Input): State
    requires inp.Valid()
  {
    Stage(inp, 6)
  }
}
