# Reconciliation engine and session protocol: a Dafny model

This project models two parts of a finance back end and proves what they keep.

**The reconciliation engine** matches the rows of an internal settlement sheet (IST rows) with bank
transactions. Six phases share a map of results by row number and a set of used bank numbers: existing and
direct references, grouped settlements, scored matches with a 30-day fallback, an exhaustive fallback in three
tiers, a rebuild of the used set, and cash journals. Phases overwrite each other's results and the used set goes
stale in between; the theorems say what nevertheless holds at the end.

**The session and access protocol** covers refresh-token families, workforce access decisions with a version
counter and a log, the guard that compares versions, and the login limiter. It is a transition system with one
atomic step per request, over arbitrary runs with a clock.

## Layout

| file | contents |
|---|---|
| Basics.dfy | filters, de-duplication, first maximum under a three-part rank |
| Ledger.dfy | rows, banks, options, results; normalized references; petty cash |
| Scoring.dfy | amount tolerance, the two candidate scores, the decision on a list of candidates |
| Window.dfy | the index of banks by day and the window searches |
| Automaton.dfy | the multi-pattern automaton with failure links, built and searched in place |
| ReferenceMatching.dfy | the two-way reference matcher built on it |
| Aliases.dfy | account aliases by hash join and nested counters |
| Phases.dfy | the six phases as functions on the shared state |
| Criteria.dfy | what the tests, scores and rankings of the engine amount to in cells and figures |
| Invariants.dfy | what one step of each phase keeps |
| Guarantees.dfy | what the whole run keeps: one bank for one open row, fixed and settled results |
| Certificates.dfy | the evidence behind every final result |
| Outcomes.dfy | what each phase decides at a row's or a group's turn, exactly |
| Verified.dfy | the rule for verified transactions |
| Coverage.dfy | what the used set means during and after the run |
| Report.dfy | write-back, summary, repeated runs |
| Sharing.dfy | which rows can end with one bank, preserved rows included |
| Listing.dfy | the list of unmatched banks, told from the sheets and the turns of the rows |
| Engine.dfy | the engine as a class with loops, shown to compute the phases |
| Sheets.dfy | small sheets on which the qualified guarantees are seen to fail |
| Sessions.dfy, Limiter.dfy, Accounts.dfy, Auth.dfy | the services as classes over their stores, with the functions that specify them |
| Runs.dfy | the transition system and its theorems over all runs |
| Requests.dfy | what each request does to the whole state |

The services' methods and the steps of the transition system are specified by the same functions
(`TokensAfterRefresh`, `CountersAfterLogin`, `UsersAfter` and so on), so a theorem about runs is a theorem about
what the methods do. The engine's methods end in the state `Final(inp)` that the theorems speak of.

## What the model assumes

- Amounts and scores are exact reals; a missing amount, date or direction is `None`. Days are integers and the
  day tolerance is a natural number.
- The text measures (text compaction and normalization, similarity, meaningful terms, account compatibility,
  reference-token score, cash patterns) are arbitrary functions of their inputs, so the theorems hold for
  whatever they compute. Only the report theorems ask one thing of them: that compacting an empty cell gives
  nothing. The normalized reference is computed from the compacted text as the code does; the code's compact
  reference is the same text, since compaction has removed all spaces already.
- `Input.Valid` is what reading the sheets guarantees: banks are numbered by position and row numbers differ.
  Account codes arrive normalized, that is in capitals, without `_` and `|`; so the joined group key cannot confuse
  two keys and is modelled as a tuple.
- Each request is one atomic step, identifiers are fresh, and whether a presented password or token opens a hash is
  a parameter of the step. A presented refresh token counts with its payload and signed expiry once signature and
  type hold; only the theorems on reuse detection ask that such a payload be one the service has signed. Expired
  records also vanish by the database's own expiry index, 30 days after `expiresAt` (`StoreExpiry`).

## What the code does differently from what it says

- The matching rules sheet lists near-amount matches before the description fallback; the code tries the
  description fallback first (`DescriptionBeforeNear`).
- The rule for verified transactions asks for currency agreement. The 30-day search ignores currency, so without
  `forceAll` the account-date-amount case can go to a bank in another currency, always for review
  (`VerifiedUpToCurrency` and `CurrencyGoesWrong` say exactly when, `CurrencyMayDiffer` shows a sheet); the rest of
  the rule holds.
- `reviewRecordsTruncated` ignores preserved rows that were not found in the bank sheet, which are entered for review
  all the same (`TruncationFlag` gives the exact condition, `TruncationFlagBySheet` what the sheets alone decide).
- A replayed refresh token ends its family only if its record has been deleted and the token has not expired
  (`ReplayEndsFamily`); otherwise the family lives on, as in the run of `ReplayLeavesSuccessor`. Records go with
  their expiry or through the clean-up of revoked ones, so reuse is detected only for tokens valid longer than the
  retention of revoked records (`OrphansAreRevokedLeftovers`).
- Without many-to-one a bank can still serve several preserved rows, or an open row and a preserved one after it
  (`SharedBank` says exactly when, `PreservedRowsMayShare` and `MixedRowsMayShare` show sheets).
- A bank that a row loses in the group phase or in the exhaustive phase stays unavailable to the rows after it and
  returns only with the rebuild (`UsedMeansEverNamed`, `PassedOverBankWasNamed`, `FittingBankMayBePassedOver`);
  `ReleasedBankIsListed` says when it is still unmatched at the end.
- With many-to-one the unmatched list names the banks that neither a group nor a scored row has taken, held or not
  (`SharedUse`, `SharedListIsComplement`, `HeldBankMayBeListed`); `SearchedListIsComplement` gives sheets on which the
  list is right.

## Model

| member | source | states |
|---|---|---|
| Scoring.AmountMatchIsSymmetric | src/modules/reconciliation/utils/matching.ts:266-295 | The tolerance test does not depend on which side is the bank, and an amount matches itself under any tolerance that is not negative. |
| Criteria.AmountMatchMeaning | src/modules/reconciliation/utils/matching.ts:266-295 | The six comparisons amount to four on the smaller and the larger amount: within the tolerance, within the capped percentage of the larger, or within the tolerance of 99% or 98% of the larger. |
| Criteria.ReferenceMeaning | src/modules/reconciliation/utils/normalization.ts:63-74 | A text is kept as a reference exactly if it has four characters, not all zeros, and is none of five words; otherwise it counts as blank. |
| Criteria.PreservedMeaning | src/modules/reconciliation/utils/normalization.ts:63-74 | A row is preserved exactly if its reference cell is such a text. |
| Criteria.PettyCashMeaning | src/modules/reconciliation/reconciliation.service.ts:1158-1179 | The codes of registers and safes are nine names, alone or followed by a hyphen. |
| Criteria.CashTextMeaning | src/modules/reconciliation/reconciliation.service.ts:1122-1150 | Journal name and description are searched as one text, and so are cash flow and description of the bank row. |
| Scoring.DecideMeaning | src/modules/reconciliation/utils/matching.ts:404-515 | A candidate list is matched exactly when one candidate wins outright: confident enough, at least 0.05 ahead of every other, exact in amount and direction, and backed by account or independent evidence. No candidate means unmatched and no bank; anything else puts a top scorer up for review. A match is named after its winner: account, date and amount exactly if the date scores and the account is the same; date, amount and terms exactly if the date scores and the account is nearly the same; otherwise a fuzzy match. |
| Scoring.DateScoreMeaning | src/modules/reconciliation/utils/matching.ts:334-351 | A date scores exactly when the transaction or the value date lies within the tolerance. |
| Criteria.DateScoreSteps | src/modules/reconciliation/utils/matching.ts:337-351 | The date scores 1 on the same day, 0.85 within two days, 0.75 within the tolerance, else 0. |
| Criteria.ScoreShortfall | src/modules/reconciliation/utils/matching.ts:375-386 | For measures between 0 and 1 the score falls short of 1 by what each measure lacks, times its weight: the weights add up to 1, and the hint makes up for 0.05. |
| Criteria.MeasuresMeaning | src/modules/reconciliation/utils/matching.ts:297-392 | The seven measures of a candidate, each told by the cells it compares. |
| Criteria.EvidenceMeaning | src/modules/reconciliation/utils/matching.ts:435-480 | A convincing candidate needs one of four kinds of evidence; the first evidence test of the source never decides. |
| Scoring.WinnerIsMatched | src/modules/reconciliation/utils/matching.ts:417-514 | A candidate that wins outright is the bank of the match, with its own score as confidence and the case that its date and account earn. |
| Scoring.MatchedHasWinner | src/modules/reconciliation/utils/matching.ts:420-480 | Conversely a match has such a winner, and it is the first of the top scorers. |
| Scoring.RunnerUp | src/modules/reconciliation/utils/matching.ts:417-429 | The score compared with the best is the highest among the others. |
| Scoring.ForcedScore | src/modules/reconciliation/reconciliation.service.ts:1516-1527 | The score lies between 0 and 1 for arbitrary text scores, although the weights add up to 1.10. |
| Scoring.ForcedScoreAnchors | src/modules/reconciliation/reconciliation.service.ts:1493-1527 | Exact values at the weights' corner points: 0.80 for equal amount, day and direction alone; 1 once full text evidence is added; 0.55 plus a quarter divided by the days otherwise. |
| Scoring.ForcedScoreMonotone | src/modules/reconciliation/reconciliation.service.ts:1493-1527 | With equal text scores and direction, a smaller relative difference and day gap never score lower, clamping included. |
| Criteria.ForcedShortfall | src/modules/reconciliation/reconciliation.service.ts:1516-1527 | Before it is cut off the forced score falls short of 1.10 by 0.45 for the amount, halved at a twelfth of the larger one, by 0.25 for the date, halved after a week, and by the weights of what else is lacking. |
| Criteria.DifferenceMeaning | src/modules/reconciliation/reconciliation.service.ts:1482-1515 | The difference in amount is relative to the larger amount, at least to 1; a missing amount counts as far off as a number can be. |
| Scoring.NearerOnOneSideRanksFirst | src/modules/reconciliation/reconciliation.service.ts:1298-1309 | For amounts from 0: on one side of the row's amount the bank nearer in money and in days never ranks below the other under all three sort keys. |
| Scoring.AcrossSidesExactly | src/modules/reconciliation/reconciliation.service.ts:1493-1527 | Across the two sides the order by absolute difference fails exactly here: unless both sums are cut off alike, a bank d below the amount a ranks under one e above it precisely when e times max(1, a) is less than d times max(1, a + e). |
| Scoring.NearerAcrossSidesMayRankLower | src/modules/reconciliation/reconciliation.service.ts:1497-1499 | An instance: a bank 5 below an amount of 10 ranks under one 8 above it. |
| Window.IndexBanksByDay | src/modules/reconciliation/reconciliation.service.ts:737-750 | The index lists under each day exactly the banks filed on it, in sheet order, each once even if both its dates fall on that day. |
| Window.SearchByDay | src/modules/reconciliation/reconciliation.service.ts:761-794 | The loop over the days with its set of seen numbers returns what the reference search returns, element by element. |
| Window.SearchIsLinearScan | src/modules/reconciliation/reconciliation.service.ts:761-794 | That search finds a bank exactly when one pass over all banks would accept it and its transaction or value date is within the tolerance. |
| Window.SearchOrder | src/modules/reconciliation/reconciliation.service.ts:761-794 | No bank is found twice, and candidates reach the tie-breaking sorts ordered by the first day of the window they appear on, then by sheet position. |
| Invariants.CandidatesMeaning | src/modules/reconciliation/reconciliation.service.ts:752-795 | The scored candidates are exactly the sheet's banks that satisfy the money, currency and evidence conditions within the tolerance, with the stricter account threshold for petty cash. |
| Invariants.FallbackMeaning | src/modules/reconciliation/reconciliation.service.ts:797-853 | The 30-day search returns the banks with client or reference evidence if there is one, otherwise all that agree in money and direction; nothing for petty cash. |
| Invariants.CashSearchMeaning | src/modules/reconciliation/reconciliation.service.ts:1075-1120 | The cash candidates are exactly the cash-like banks that agree in money, direction and currency within the wider of tolerance and three days, and are free or the row's own. |
| Criteria.NarrowMeaning | src/modules/reconciliation/reconciliation.service.ts:752-795 | The test of the narrow search in terms of cells and figures. |
| Criteria.EvidentMeaning | src/modules/reconciliation/reconciliation.service.ts:797-853 | The evidence that the 30-day search prefers, and its conditions on money. |
| Criteria.CashMeaning | src/modules/reconciliation/reconciliation.service.ts:1085-1118 | The test of the cash search. |
| Criteria.TimeMeaning | src/modules/reconciliation/reconciliation.service.ts:1482-1515 | The gap in days is within a limit exactly if one of the bank's dates is; without a date it counts as ten years. |
| Automaton.Matcher.constructor | src/modules/reconciliation/utils/matching.ts:30-35 | Adding the patterns and linking yields an automaton in which every failure link is the longest proper suffix in the trie and every node reports all patterns that end there. |
| Automaton.Matcher.Add | src/modules/reconciliation/utils/matching.ts:52-64 | Adding a pattern keeps the trie's shape and records the pattern at its own node only. |
| Automaton.Matcher.Follow | src/modules/reconciliation/utils/matching.ts:43-45 | The walk along failure links ends at the longest suffix of the text read that is a node. |
| Automaton.Matcher.BuildFailureLinks | src/modules/reconciliation/utils/matching.ts:66-83 | The breadth-first pass leaves every node linked, with the outputs of its failure node appended. |
| Automaton.ExtendLongest | src/modules/reconciliation/utils/matching.ts:73-77 | The step behind the linking: the longest suffix after one more letter is found from the longest suffix before it. |
| Automaton.EndsOfLongest | src/modules/reconciliation/utils/matching.ts:78-80 | A string reports the same patterns as its longest suffix in the trie. |
| Automaton.Matcher.Find | src/modules/reconciliation/utils/matching.ts:37-50 | One pass over each text returns every hit once, in order of first occurrence. |
| Automaton.FindsExactlyTheOccurring | src/modules/reconciliation/utils/matching.ts:37-50 | An id is reported exactly when one of its patterns is a substring of one of the texts. |
| ReferenceMatching.FindMeaning | src/modules/reconciliation/utils/matching.ts:194-208 | The two-way matcher returns a bank exactly when its reference occurs in one of the row's texts or one of the row's searchable texts occurs in one of the bank's, and never twice. |
| ReferenceMatching.BankTextMeaning | src/modules/reconciliation/utils/matching.ts:158-182 | A row text is searched for if it has five characters, or four that are not all digits; it is looked for in the bank's reference and five of its cells. |
| Criteria.ContainsMeaning | src/modules/reconciliation/reconciliation.service.ts:688-693 | The substring test of the direct rules is the one the automaton decides. |
| ReferenceMatching.TwoWayMatcher.constructor | src/modules/reconciliation/utils/matching.ts:152-192 | Construction files every bank under exactly the rows one of whose texts it contains. |
| ReferenceMatching.TwoWayMatcher.FindBanks | src/modules/reconciliation/utils/matching.ts:194-208 | The object returns the same banks in the same order as the specification. |
| Aliases.CountersCountPairs | src/modules/reconciliation/reconciliation.service.ts:1456-1469 | The nested counters count the pairs of a preserved row and a bank that share a reference. |
| Aliases.LearnAccountAliases | src/modules/reconciliation/reconciliation.service.ts:1444-1480 | The hash join and counters accept a bank code for a row code exactly when at least two such pairs exist, or at least one and the codes are equal. |
| Aliases.AcceptedAreAliases | src/modules/reconciliation/reconciliation.service.ts:1471-1478 | The acceptance test on the counters is the plain pair-count definition. |
| Criteria.CodesMeaning | src/modules/reconciliation/reconciliation.service.ts:1223-1226 | A bank's code is compatible with a row exactly if it is the row's own, or if two pairs of a preserved row with the row's code and a bank with that code share a reference. |
| Criteria.AccountTierMeaning | src/modules/reconciliation/reconciliation.service.ts:1244-1256 | First tier: amount, direction, currency, and a code of that kind. |
| Criteria.EvidenceTierMeaning | src/modules/reconciliation/reconciliation.service.ts:1333-1370 | Second tier: amount, direction, currency, and one of six kinds of evidence. |
| Criteria.NearbyTierMeaning | src/modules/reconciliation/reconciliation.service.ts:1372-1442 | Third tier: an amount that misses by at most 10, or half a percent up to 500, within 14 days, with account and name or reference behind it. |
| Engine.Reconciler.constructor | src/modules/reconciliation/reconciliation.service.ts:184-187 | The matcher, the day index and the two empty structures the phases start from. |
| Engine.Reconciler.MatchReferences | src/modules/reconciliation/reconciliation.service.ts:191-227 | The first loop, on its map and set updated in place, computes the first phase of the specification. |
| Engine.Reconciler.CollectGroups | src/modules/reconciliation/reconciliation.service.ts:885-910 | The open rows are collected by key; each key lists exactly its rows, in sheet order. |
| Engine.Reconciler.ApplyGroupedSettlement | src/modules/reconciliation/reconciliation.service.ts:878-983 | The group loop computes the second phase. |
| Engine.Reconciler.MatchByScore | src/modules/reconciliation/reconciliation.service.ts:238-278 | The third loop computes the scored phase with its fallback. |
| Engine.Reconciler.ApplyExhaustiveFallback | src/modules/reconciliation/reconciliation.service.ts:1181-1331 | The fourth loop computes the exhaustive phase, with aliases learned by the hash join. |
| Engine.Reconciler.RebuildUsedBanks | src/modules/reconciliation/reconciliation.service.ts:1025-1040 | The rebuild leaves the banks with a reference that some matched or reviewed row holds. |
| Engine.Reconciler.ApplyCashJournals | src/modules/reconciliation/reconciliation.service.ts:985-1023 | The last loop computes the cash-journal phase. |
| Engine.Reconciler.Reconcile | src/modules/reconciliation/reconciliation.service.ts:189-297 | All six phases in order, with `forceAll` deciding on the fourth, end in the final state every theorem below is about. |
| Engine.Reconciler.ReconcileWithReport | src/modules/reconciliation/reconciliation.service.ts:189-425 | The run together with the written cells, the summary counts, the first 2000 entries for review, the sheet of unmatched banks and the first 1000 of them that the report carries. |
| Invariants.RecordKeepsInv | src/modules/reconciliation/reconciliation.service.ts:1311-1329 | Recording a bank that is free or the row's own for an unsettled row keeps: sound results, no sharing outside a group, every held bank used. |
| Invariants.NoOtherHolder | src/modules/reconciliation/reconciliation.service.ts:1249-1251 | Preserved rows aside, no other row holds a bank that is unused, or that an unsettled row holds itself, which is why a row may choose its own bank again. |
| Invariants.GroupKeepsInv | src/modules/reconciliation/reconciliation.service.ts:964-982 | Giving a whole group one free bank keeps the same invariant. |
| Invariants.ReferenceStepKeepsInv | src/modules/reconciliation/reconciliation.service.ts:192-227 | One row of the first phase keeps it, although preserved rows take a bank without asking. |
| Invariants.ScoredStepKeepsInv | src/modules/reconciliation/reconciliation.service.ts:239-278 | One row of the scored phase keeps it, with or without many-to-one. |
| Invariants.ExhaustiveStepKeepsInv | src/modules/reconciliation/reconciliation.service.ts:1193-1330 | One row of the exhaustive phase keeps it, although it drops and replaces banks. |
| Invariants.CashStepKeepsInv | src/modules/reconciliation/reconciliation.service.ts:992-1022 | One row of the cash phase keeps it. |
| Invariants.RebuildKeepsInv | src/modules/reconciliation/reconciliation.service.ts:1025-1040 | Releasing stale banks keeps it. |
| Invariants.ExhaustiveIsTierOptimal | src/modules/reconciliation/reconciliation.service.ts:1239-1329 | Each case is chosen exactly when all higher tiers offer no available bank and its own does; no candidate exactly when all three are empty; and the bank is maximal in its tier by score, then smaller amount difference, then fewer days, the first in the sheet among equals. |
| Sheets.DescriptionBeforeNear | src/modules/reconciliation/reconciliation.service.ts:1254-1281 | There is a sheet on which both lower tiers offer a bank; the description fallback is taken, although the rules sheet ranks the near amount before it. |
| Invariants.GroupChoiceMeaning | src/modules/reconciliation/reconciliation.service.ts:912-968 | A group takes a bank exactly when it has a candidate and all its candidates carry one reference, and then one of them. |
| Criteria.TotalAdds | src/modules/reconciliation/reconciliation.service.ts:914 | The group's total is additive: that of two lists together is the sum of both, and that of one row its amount. |
| Criteria.TotalIsSum | src/modules/reconciliation/reconciliation.service.ts:914 | It is the sum of the amounts. |
| Criteria.GroupMeaning | src/modules/reconciliation/reconciliation.service.ts:920-960 | The test of the group search in terms of cells, the sum, and the best of the rows' references. |
| Criteria.DirectChoiceMeaning | src/modules/reconciliation/reconciliation.service.ts:855-876 | The chosen candidate has the highest sum of amount, direction, account and date scores, among equals the highest score, and among those the first place in the list. |
| Outcomes.GroupsByParty | src/modules/reconciliation/reconciliation.service.ts:885-910 | Two rows share a group exactly if they agree in day, account, direction and normalized client. |
| Outcomes.GroupableMeaning | src/modules/reconciliation/reconciliation.service.ts:886-900 | Only rows that the first phase left under review, with date, amount, direction and an account or a client, can join a group. |
| Outcomes.GroupTakesExactly | src/modules/reconciliation/reconciliation.service.ts:912-981 | A group takes a bank at its turn exactly if it has 2 to 50 rows and the banks on offer carry one reference, and then the best placed of them. |
| Outcomes.SettlementsAddUp | src/modules/reconciliation/reconciliation.service.ts:912-981 | Of every settlement at the end the rows agree in all four, and the sum of their amounts matches the bank's. |
| Guarantees.StageInv | src/modules/reconciliation/reconciliation.service.ts:191-297 | The invariant holds between all phases of every run. |
| Sharing.SharedBank | src/modules/reconciliation/reconciliation.service.ts:191-297 | Without many-to-one, two rows of any kind end with the same bank exactly if one settlement group has them both and takes it, or both are preserved with it, or one was linked to it in the first phase ahead of a preserved one that takes it regardless, and keeps the link. |
| Sharing.OpenRowsShare | src/modules/reconciliation/reconciliation.service.ts:878-983 | Two open rows share a bank exactly if one group has them both and takes it at its turn. |
| Sharing.MixedRowsShare | src/modules/reconciliation/reconciliation.service.ts:191-297 | An open and a preserved row share exactly if the open one was linked first and keeps its link: its group takes no bank, and, if all rows are forced, the link was verified, the row is petty cash, or the bank leads the first tier open at its turn. |
| Sharing.RegroupedLosesLink | src/modules/reconciliation/reconciliation.service.ts:878-983 | A row whose group takes a bank never ends with the bank it was linked to. |
| Sharing.MixedShareIsOvertaken | src/modules/reconciliation/reconciliation.service.ts:191-297 | An open and a preserved row share only if the open one stands before the other, mentions the bank or is mentioned by it, and held it after the first phase. |
| Sharing.VerifiedOvertakenShare | src/modules/reconciliation/reconciliation.service.ts:698-724 | If that first link was a verified one, it is always kept. |
| Sharing.PreservedRowsShare | src/modules/reconciliation/reconciliation.service.ts:194-210 | Two preserved rows share exactly when the banks found for their references are the same. |
| Sheets.MixedRowsMayShare | src/modules/reconciliation/reconciliation.service.ts:192-227 | There is a sheet on which an open and a preserved row end with one bank, many-to-one being off. |
| Sheets.PreservedRowsMayShare | src/modules/reconciliation/reconciliation.service.ts:194-210 | There is a sheet on which two preserved rows do. |
| Guarantees.PreservedIsFixed | src/modules/reconciliation/reconciliation.service.ts:194-210 | A preserved row has one fixed result from the first phase to the last. |
| Guarantees.ResultsEvolve | src/modules/reconciliation/reconciliation.service.ts:191-297 | Over any stretch of phases rows keep having a result, and preserved rows and rows matched to a bank with a reference keep theirs. |
| Guarantees.EveryRowHasResult | src/modules/reconciliation/reconciliation.service.ts:239-311 | From the scored phase on every row has a result, so the write-back always finds one. |
| Guarantees.GroupOutcome | src/modules/reconciliation/reconciliation.service.ts:912-982 | A row is touched by its own group only, so its result after the phase is the one decided at its group's turn. |
| Certificates.DirectRuleMeaning | src/modules/reconciliation/reconciliation.service.ts:668-696 | A direct link counts as verified exactly when one of five reference fields equals the bank reference; which fields each of the five confidences stands for. |
| Outcomes.LinkTurn | src/modules/reconciliation/reconciliation.service.ts:698-735 | A row without a reference leaves the first phase without a result if no bank is linked, as ambiguous if all linked ones are taken, and otherwise with the best placed of those on offer. |
| Outcomes.DirectLinkIsBest | src/modules/reconciliation/reconciliation.service.ts:855-876 | A direct link at the end is the best placed of the banks that were on offer at the row's turn. |
| Certificates.CertificateLasts | src/modules/reconciliation/reconciliation.service.ts:189-297 | Evidence recorded in one phase still holds after every later one. |
| Certificates.GroupTurn | src/modules/reconciliation/reconciliation.service.ts:912-982 | At its turn a group gives all its rows the one bank it chooses among the banks then free, or leaves them alone if it chooses none. |
| Certificates.EveryResultIsCertified | src/modules/reconciliation/reconciliation.service.ts:189-297 | Every row ends with a result whose case is backed: preserved with the best placed bank found for its reference, or none; grouped by 2 to 50 rows with one key whose total matches the bank, no other reference having been on offer at the group's turn and the bank the best placed, all still holding the result; forced by amount, direction, currency and a learned or own account; near by an inexact amount within the cap and date, account and text evidence; cash by being the only candidate left in its window; direct by a reference in either text; scored by its search, under the case that its date and account earn. |
| Certificates.ScoredMatchWon | src/modules/reconciliation/reconciliation.service.ts:238-278 | A row that ends with a scored case holds the bank that won outright when the row was scored: as a match, among all candidates of the narrow search then free; for review, among those of the 30-day search, when none of the narrow search was free. |
| Invariants.ScoredResultEarned | src/modules/reconciliation/reconciliation.service.ts:239-271 | A scored case is earned by its bank, and it is a match exactly when the bank is a candidate of the narrow search. |
| Verified.VerifiedUpToCurrency | src/modules/reconciliation/types.ts:204-209 | The account-date-amount case always has amount, direction and account right and a date within the tolerance. The currency is right exactly if the row is matched and not up for review, and always with `forceAll`. |
| Verified.CurrencyGoesWrong | src/modules/reconciliation/reconciliation.service.ts:239-271 | A row ends with that case in another currency exactly if the exhaustive phase is off, the row is still open when scored, every candidate of the narrow search is taken, and the winner of the 30-day search has its account and date but not its currency. |
| Sheets.CurrencyMayDiffer | src/modules/reconciliation/reconciliation.service.ts:797-853 | There is a sheet on which that happens. |
| Certificates.ScoredTurn | src/modules/reconciliation/reconciliation.service.ts:239-271 | A row that is open after the group phase gets the scored decision among the banks free at its turn; every other row keeps its result. |
| Outcomes.ScoreTurn | src/modules/reconciliation/reconciliation.service.ts:239-271 | An open row is matched exactly if a free candidate of the narrow search wins outright; it is left without a bank exactly if neither search has a free candidate. |
| Certificates.PettyCashIsNeverForced | src/modules/reconciliation/reconciliation.service.ts:1202-1219 | A petty-cash row never ends with a forced, description or near-amount match. |
| Certificates.ForcedRunsAgree | src/modules/reconciliation/reconciliation.service.ts:280-297 | With `forceAll` every result that is neither preserved, direct nor grouped agrees with its bank in direction, and in currency when both state one, although the 30-day search ignores currency. |
| Certificates.ExhaustiveAgrees | src/modules/reconciliation/reconciliation.service.ts:1193-1330 | The reason: the exhaustive phase re-decides every row that might not agree. |
| Coverage.UsedIsExact | src/modules/reconciliation/reconciliation.service.ts:1025-1040 | Without many-to-one, the used banks at the end are exactly the banks with a reference that some row, preserved or not, is matched to or under review with. |
| Coverage.UnmatchedListIsComplement | src/modules/reconciliation/reconciliation.service.ts:355-356 | The "Unmatched Bank Transactions" list is the exact complement, and a bank without a reference is always on it. |
| Coverage.UsedMeansEverNamed | src/modules/reconciliation/reconciliation.service.ts:191-288 | Before the rebuild a bank counts as used exactly when some row named it at the end of a phase, even if that row has dropped it since. |
| Coverage.HigherTiersAreTaken | src/modules/reconciliation/reconciliation.service.ts:1239-1281 | In the run, a row falls to a lower tier, or to none, only when every bank of the higher ones is used at its turn and not its own. |
| Outcomes.ForcingTurn | src/modules/reconciliation/reconciliation.service.ts:1193-1330 | What every row has after the exhaustive phase: preserved and verified rows and register rows as before, rows without amount or direction nothing, and all others the first-ranked open bank of the first tier that has one. |
| Outcomes.ForcedExactly | src/modules/reconciliation/reconciliation.service.ts:1223-1270 | A row left to the tiers is forced exactly if an open bank agrees in amount, direction and currency and in its own or a learned code; the bank taken is such a one. |
| Outcomes.CashTurn | src/modules/reconciliation/reconciliation.service.ts:985-1073 | A cash journal takes a bank exactly if it is the only open one that fits, the row is not verified, and it holds no other bank with a reference; the confidence is at least 0.9. Every other row is unchanged. |
| Coverage.PassedOverBankWasNamed | src/modules/reconciliation/reconciliation.service.ts:1283-1296 | If a row is left without a bank while one that fits ends on the unmatched list, some row named that bank and lost it in the group phase or in the exhaustive phase. |
| Coverage.OnlyTwoPhasesLetGo | src/modules/reconciliation/reconciliation.service.ts:189-297 | No other phase ever takes a bank with a reference from a row. |
| Sheets.FittingBankMayBePassedOver | src/modules/reconciliation/reconciliation.service.ts:1283-1296 | There is a sheet on which that happens. |
| Listing.ReleasedBankIsListed | src/modules/reconciliation/reconciliation.service.ts:1025-1120 | A bank that a row loses ends on the list exactly if no preserved row takes it and no cash row finds it, and no other, at its turn. |
| Coverage.SharedUse | src/modules/reconciliation/reconciliation.service.ts:272-288 | With many-to-one, a bank counts as used at the end exactly when a row was settled with it by its group or an open row was scored with it. |
| Coverage.SharedListIsComplement | src/modules/reconciliation/reconciliation.service.ts:355-356 | So the list then names exactly the banks of neither kind; it is the complement of the held banks precisely when the two coincide, and without the exhaustive phase precisely when every held bank is of one of the two kinds. |
| Coverage.MarkedIsHeld | src/modules/reconciliation/reconciliation.service.ts:229-297 | Without the exhaustive phase every such bank is still held at the end. |
| Sheets.HeldBankMayBeListed | src/modules/reconciliation/reconciliation.service.ts:355-356 | There is a sheet on which a bank that two rows hold is on the list. |
| Listing.SearchedBankIsListed | src/modules/reconciliation/reconciliation.service.ts:355-356 | With many-to-one and without the exhaustive phase the list is right about every bank that no reference or text links to a row and no cash journal may take. |
| Listing.SearchedListIsComplement | src/modules/reconciliation/reconciliation.service.ts:355-356 | So it is the complement of the held banks if that is so of every bank. |
| Report.WriteBack | src/modules/reconciliation/reconciliation.service.ts:309-351 | The write-back loop writes each cell as its row's result demands, counts what the specification counts, and enters the first 2000 rows that are not matched for review. |
| Report.RecordAgreesWithCell | src/modules/reconciliation/reconciliation.service.ts:1562-1584 | An entry for review tells the reference that the write-back leaves in the cell, and none for a row that had none and was not filled. |
| Report.ReportConserves | src/modules/reconciliation/reconciliation.service.ts:299-351 | Matched, preserved, review and unmatched rows add up to all rows; so do preserved, filled and still blank ones; forced matches are among the filled. |
| Report.SummaryMeaning | src/modules/reconciliation/reconciliation.service.ts:299-351 | The summary told by the final results: matched, under review and unmatched are the rows without a reference by status, filled and blank those with and without a bank, forced those that end with the forced case. |
| Report.CellMeaning | src/modules/reconciliation/reconciliation.service.ts:314-333 | A row without a reference takes over its bank's as written on the bank sheet; every other cell stays. |
| Report.RecordTellsItsRow | src/modules/reconciliation/reconciliation.service.ts:1562-1584 | Entry k for review belongs to the k-th row that is not matched and tells its cells, its result and its bank. |
| Report.TruncationFlag | src/modules/reconciliation/reconciliation.service.ts:416-418 | The truncation flag is right exactly unless the review and unmatched rows fit into the limit of 2000 while the preserved rows for which the two sheets offer no bank push the entries past it. |
| Report.LostIsUnlinked | src/modules/reconciliation/reconciliation.service.ts:194-210 | Whether a preserved row goes unfound can be told from the two sheets alone: no bank's reference occurs in its reference, and none of its texts in any bank's. |
| Report.TruncationFlagBySheet | src/modules/reconciliation/reconciliation.service.ts:416-418 | The flag is right on every sheet without such a row and on every sheet of at most 2000 rows, and wrong on every sheet with more than 2000 such rows and at most 2000 open ones. |
| Report.TruncationFlagCanMislead | src/modules/reconciliation/reconciliation.service.ts:348-418 | 2001 rows with references no bank carries leave a review record out without the flag. |
| Report.ReferencesAreNeverOverwritten | src/modules/reconciliation/reconciliation.service.ts:314-345 | Over any number of runs on the written rows no reference is ever overwritten, whatever bank sheets and options are used. |
| Report.NextRunPreserves | src/modules/reconciliation/reconciliation.service.ts:312-333 | What a run preserved and filled is exactly what the next run preserves. |
| Report.FillingAddsUp | src/modules/reconciliation/reconciliation.service.ts:312-333 | Over a series of runs the preserved rows grow by exactly the cells filled, and never past the sheet. |
| Report.FilledIsFound | src/modules/reconciliation/reconciliation.service.ts:194-210 | A row filled in one run is preserved and found in the next run on the same bank sheet. |
| Report.LostNeverGrows | src/modules/reconciliation/reconciliation.service.ts:194-210 | On the same bank sheet the preserved rows that go unfound are as many in the next run as in this one, since they are the same. |
| Sessions.SessionService.RevokeMatching | src/modules/auth/services/session.service.ts:51-66 | The bulk update stamps exactly the unrevoked records that match and leaves earlier stamps alone. |
| Sessions.RotationHandsOver | src/modules/auth/services/session.service.ts:68-90 | A rotation hands the family's life from the presented record to its successor: one unrevoked record leaves, one of the same user and family comes, all other families and records are as before. |
| Sessions.SessionService.CleanupExpiredTokens | src/modules/auth/services/session.service.ts:96-102 | A record survives exactly if it has not expired, unchanged, and the number returned is that of the expired records. |
| Sessions.SessionService.CleanupOldRevokedTokens | src/modules/auth/services/session.service.ts:109-118 | Unrevoked records survive, revoked ones exactly if they were revoked within the retention, and the number returned is that of the others. |
| Auth.CleanupDeniesNothing | src/modules/auth/services/session.service.ts:92-118 | No clean-up ever costs a refresh: what is granted after it, now or later, is exactly what would have been granted without it. |
| Sessions.WithdrawalsWeaken | src/modules/auth/services/session.service.ts:44-118 | Every revocation and clean-up only revokes and deletes. |
| Limiter.LoginRateLimitService.RecordFailure | src/modules/auth/services/login-rate-limit.service.ts:18-27 | A failure raises both counters from their current reading and restarts both windows. |
| Accounts.ActionsMeaning | src/modules/user/admin-access.controller.ts:36-95 | The actions come to seven permitted moves from one status to another, and rejecting and revoking are the ones that close sessions. |
| Accounts.JudgeMeaning | src/modules/user/access-review.service.ts:76-88 | A decision applies exactly to workforce users whose status permits it; who is not found, left unchanged, or in conflict otherwise. |
| Accounts.UserService.TransitionAccess | src/modules/user/user.service.ts:176-205 | The compare-and-set on the status, with role and version, and nothing otherwise. |
| Accounts.UserService.UpsertEntraUser | src/modules/user/user.service.ts:62-99 | A known directory user keeps status, role and version; an unknown one starts pending at version 1. |
| Accounts.AccessReviewService.ApplyTransition | src/modules/user/access-review.service.ts:65-121 | The answer, the new users, the log and the sessions after an access decision. |
| Auth.AuthService.Login | src/modules/auth/auth.service.ts:44-84 | Outcome, counters and session of a login attempt. |
| Auth.AuthService.Refresh | src/modules/auth/auth.service.ts:86-177 | Outcome, token store and access token of a refresh, branch by branch; a token past its signed expiry is answered as invalid before any lookup. |
| Auth.AuthService.ChangeAdminPassword | src/modules/auth/auth.service.ts:192-210 | A password change and the end of all sessions, or neither. |
| Auth.RefreshMeaning | src/modules/auth/auth.service.ts:86-177 | A refresh is granted exactly to a live, unexpired record whose hash opens and whose user is neither rejected nor revoked; what each kind of refusal does to the store. |
| Requests.LoginExactly | src/modules/auth/auth.service.ts:44-84 | Access is granted exactly if neither key has failed too often and the user found is a local administrator whose hash the password opens. Success clears the account's counter only; failure counts on both keys for 15 minutes; a throttled login changes nothing. |
| Requests.OnlyTheAdministratorLogsIn | src/modules/auth/auth.service.ts:61-83 | In every run a successful login is that of the one administrator, with a password that opens the stored hash. |
| Requests.RefreshExactly | src/modules/auth/auth.service.ts:86-177 | The whole state after a refresh, by its ground. |
| Requests.WrongHashEndsFamily | src/modules/auth/auth.service.ts:115-126 | A token whose hash does not fit its live record ends the family and grants nothing. |
| Requests.LogoutExactly | src/modules/auth/auth.service.ts:179-186 | A logout revokes the presented record, if live, and changes nothing else. |
| Requests.LogoutEndsFamily | src/modules/auth/auth.service.ts:179-186 | With it the whole family ends. |
| Requests.LogoutAllExactly | src/modules/auth/auth.service.ts:188-190 | A logout from all devices revokes every live record of the user and touches no other. |
| Requests.DecisionExactly | src/modules/user/access-review.service.ts:65-121 | The whole state after an access decision: a rejection or revocation silences the user's records, the other three actions touch none, and a decision that does not apply changes nothing. |
| Requests.PasswordExactly | src/modules/auth/auth.service.ts:192-210 | A password change takes the current password; it replaces hash, flag and version and silences the user's records. |
| Requests.NewPasswordSignsIn | src/modules/auth/auth.service.ts:192-210 | After it a login succeeds exactly with a password that opens the new hash. |
| Requests.BootstrapExactly | src/modules/auth/services/admin-bootstrap.service.ts:61-78 | An administrator is created only if there is none, and is forbidden everything but four endpoints until the password has been changed. |
| Requests.SignInExactly | src/modules/user/user.service.ts:62-99 | A sign-in touches only the address of a known user; an unknown one is added as pending and is forbidden everything but four endpoints. |
| Requests.CleanUpExactly | src/modules/auth/services/session.service.ts:92-118 | Which records each clean-up leaves. |
| Requests.GuardExactly | src/modules/auth/guards/auth.guard.ts:43-86 | The guard's answer on every route, public and open ones included, in terms of the decisions taken. |
| Runs.StepKeepsInv | src/modules/auth/auth.service.ts:44-210 | One request, clean-up or tick keeps the invariant of tokens, history, users and counters. |
| Runs.OneLiveTokenPerFamily | src/modules/auth/auth.service.ts:148-165 | In every reachable state a token family has at most one unrevoked token. |
| Runs.RefreshSucceedsOnce | src/modules/auth/auth.service.ts:86-177 | A refresh token that has succeeded once never succeeds again, before or after clean-up deletes its record. |
| Runs.SpentIsRefused | src/modules/auth/auth.service.ts:90-110 | How it is refused: as invalid past its signed expiry, else as expired or revoked while its record exists, else as reuse. |
| Runs.ReplayEndsFamily | src/modules/auth/auth.service.ts:99-110 | Replaying a spent token ends its family exactly when the record has been deleted while the token is still valid; in every other case no record changes. |
| Runs.OrphansAreRevokedLeftovers | src/modules/auth/services/session.service.ts:92-118 | That state is reached only through the clean-up of revoked records, so only for tokens that outlive its retention: expired records take their tokens' validity with them. |
| Runs.ReplayLeavesSuccessor | src/modules/auth/auth.service.ts:108-110 | A run in which a token is replayed and its successor stays alive. |
| Runs.DeadFamilyStaysDead | src/modules/auth/services/session.service.ts:44-90 | A family without an unrevoked token never has one again and yields no further access token. |
| Runs.EndedSessionsYieldNothing | src/modules/user/access-review.service.ts:101-106 | Sessions open at a logout from all devices, a password change, a rejection or a revocation yield no further access token in any continuation, later approval included. |
| Runs.DecisionsExplainWorkforce | src/modules/user/access-review.service.ts:65-121 | For every workforce user in every reachable state the version is one more than the logged decisions, the log is a chain of permitted transitions from pending to the current status, and the OPS role goes with approval exactly. |
| Runs.AtMostOneAdmin | src/modules/auth/services/admin-bootstrap.service.ts:61-78 | In every reachable state there is at most one administrator. |
| Runs.VersionsGrow | src/modules/user/user.service.ts:129-205 | Along a run users stay, keep their provider, and versions never fall. |
| Runs.StaleTokenIsRefused | src/modules/auth/guards/auth.guard.ts:43-51 | An access token granted before a decision on its user or a password change is refused at every later state on every route that is neither public nor open to stale sessions. |
| Runs.AdmittedExactly | src/modules/auth/guards/auth.guard.ts:43-86 | Outside development mode and beyond the open endpoints a workforce token admits exactly while its user is approved and undecided since, an administrator's exactly while the password is unchanged and no longer the initial one. |
| Runs.CountersStayBounded | src/modules/auth/services/login-rate-limit.service.ts:9-27 | No counter ever reads above 5 for an account or 20 for an address. |
| Runs.LockStartsWithFailure | src/modules/auth/auth.service.ts:62-80 | Only a recorded failure on the key starts a lock, and it is set to end 15 minutes later. |
| Runs.LockIsUntouched | src/modules/auth/auth.service.ts:50-60 | No request changes a locked key, and every login attempt on it is throttled. |
| Runs.LockoutIsFixed | src/modules/auth/services/login-rate-limit.service.ts:9-31 | Whatever is attempted meanwhile, a lock holds until its end and is gone at the first moment past it. |

## Left out

- Workbooks: sheets, headers, cell and date parsing, swapping of files, notes, audit columns, colours; a second run on the same workbook would also add a second sheet of unmatched banks.
- Reason texts, and of the entries for review the date and the rounding of the confidence; a bank is named there by its number instead of its sheet row.
- Floating-point rounding, and a fractional day tolerance, for which the code's day loop meets no integer day.
- Surrogate pairs: a character of the model is a code point, where the code measures the length of a text in UTF-16 units.
- The order in which the letters of a trie node are linked: any order is allowed, and the outcome does not depend on it.
- The second automaton class, over IST texts: it has the same code as the first and shares its model.
- Interleaving inside a request: the refresh read and its rotation are not one conditional update in the store.
- Token signing, password hashing, the OIDC exchange with its one-time codes, mail domains, logging, role decorators, and the `getTokenStatistics` counts.
- Profile updates, listings, deletion of users and the migration of legacy administrators; colliding e-mail addresses, of which a login may find any one.
- Accounts receivable, cash and closing processors, queues, D365FO posting, caches, scripts and report renderers.
- Runs.EndedSessionsYieldNothing: speaks of refresh tokens and new access tokens. Expiry of access tokens is not modelled; one already granted stays usable until it expires, after a logout on every route its user may reach, since no version changes, and after a decision or a password change on routes open to stale sessions.
