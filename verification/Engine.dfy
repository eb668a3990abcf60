/** The engine itself: six loops over two structures updated in place, each shown to compute its phase. */
module Engine {
  import opened Basics
  import opened Ledger
  import opened Scoring
  import opened Phases
  import W = Window
  import RM = ReferenceMatching
  import Aliases
  import Report
  import Coverage
  import Guarantees

  class Reconciler {
    const inp: Input
    const matcher: RM.TwoWayMatcher
    const banksByDay: map<int, seq<Bank>>
    var matches: map<nat, MatchResult>
    var usedBanks: set<nat>

    /** The two indexes built before the first phase. */
    ghost predicate Ready()
      reads matcher, matcher.bankTrie
    {
      && matcher.Valid()
      && matcher.inp == inp
      && forall d :: W.At(banksByDay, d) == W.DayRows(inp.banks, d)
    }

    /** What the two mutable structures hold. */
    ghost function Contents(): State
      reads this
    {
      State(matches, usedBanks)
    }

    constructor (inp: Input)
      requires inp.Valid()
      ensures this.inp == inp && Ready() && Contents() == Stage(inp, 0)
      ensures fresh(matcher) && fresh(matcher.bankTrie)
    {
      this.inp := inp;
      this.matcher := new RM.TwoWayMatcher(inp);
      var index := W.IndexBanksByDay(inp.banks);
      this.banksByDay := index;
      matches := map[];
      usedBanks := {};
    }

    // -------------------------------------------------------------- phase 1

    method ReferenceRow(ist: Ist, ghost step: (State, Ist) -> State)
      requires Ready() && Implements(inp, ByReference, step)
      modifies this
      ensures Contents() == step(old(Contents()), ist)
    {
      assert step(old(Contents()), ist) == Step(inp, ByReference, old(Contents()), ist);
      if inp.Preserved(ist) {
        var existing := matcher.FindBanks([ist.paymentReference], ist.row);
        var bank := BestDirect(inp, ist, existing);
        matches := matches[ist.row := MatchResult(
          if bank.Some? then Matched else NeedsReview, ExistingReferencePreserved,
          if bank.Some? then 1.0 else 0.5, bank)];
        if bank.Some? && !inp.opts.allowManyToOne {
          usedBanks := usedBanks + {bank.value.index};
        }
        return;
      }
      var found := matcher.FindBanks(ist.directSearchTexts, ist.row);
      var result := DirectResult(inp, ist, found, usedBanks);
      if result.Some? {
        matches := matches[ist.row := result.value];
        if result.value.bank.Some? && !inp.opts.allowManyToOne {
          usedBanks := usedBanks + {result.value.bank.value.index};
        }
      }
    }

    method MatchReferences(ghost step: (State, Ist) -> State)
      requires Ready() && Implements(inp, ByReference, step)
      modifies this
      ensures Contents() == Fold(inp.rows, step, old(Contents()), |inp.rows|)
    {
      for k := 0 to |inp.rows|
        invariant Contents() == Fold(inp.rows, step, old(Contents()), k)
      {
        ReferenceRow(inp.rows[k], step);
      }
    }

    // -------------------------------------------------------------- phase 2

    /** One turn of the collection. */
    method Collect(n: nat, keys: seq<GroupKey>, groups: map<GroupKey, seq<Ist>>)
      returns (grown: seq<GroupKey>, filed: map<GroupKey, seq<Ist>>)
      requires n < |inp.rows| && keys == GroupKeys(inp, Contents(), n) && Collected(inp, Contents(), n, keys, groups)
      ensures grown == GroupKeys(inp, Contents(), n + 1) && Collected(inp, Contents(), n + 1, grown, filed)
    {
      var ist := inp.rows[n];
      grown, filed := keys, groups;
      if Groupable(inp, State(matches, usedBanks), ist) {
        var key := KeyOf(inp.ev, ist);
        filed := groups[key := Listed(groups, key) + [ist]];
        grown := if key in keys then keys else keys + [key];
      }
      CollectedOneMore(inp, Contents(), n, keys, groups, grown, filed);
    }

    /** Collects the open rows by key; a map in JavaScript keeps its keys in order of insertion. */
    method CollectGroups() returns (keys: seq<GroupKey>, groups: map<GroupKey, seq<Ist>>)
      ensures keys == GroupKeys(inp, Contents(), |inp.rows|)
      ensures forall key | key in keys :: key in groups && groups[key] == GroupOf(inp, Contents(), key)
    {
      keys, groups := [], map[];
      for n := 0 to |inp.rows|
        invariant keys == GroupKeys(inp, Contents(), n) && Collected(inp, Contents(), n, keys, groups)
      {
        keys, groups := Collect(n, keys, groups);
      }
      CollectedAll(inp, Contents(), keys, groups);
    }

    method SettleGroup(group: seq<Ist>)
      requires Ready() && |group| > 0 && group[0].epochDay.Some?
      modifies this
      ensures Contents() == GroupStep(inp, old(Contents()), group)
    {
      if |group| < 2 || |group| > 50 {
        return;
      }
      var anchor := group[0];
      var candidates := W.SearchByDay(inp.banks, banksByDay, anchor.epochDay.value, inp.opts.toleranceDays,
                                      GroupCandidate(inp, group, usedBanks));
      var refs := References(inp, candidates);
      if |candidates| == 0 || |refs| != 1 {
        assert |candidates| == 0 ==> refs == {};
        return;
      }
      var bank := BestDirect(inp, anchor, candidates).value;
      var result := GroupedResult(bank);
      ghost var s := Contents();
      for i := 0 to |group|
        invariant matches == RecordAll(s, group, result, i).matches && usedBanks == s.used
        invariant RecordAll(s, group, result, i).used == s.used + if i > 0 then {bank.index} else {}
      {
        matches := matches[group[i].row := result];
      }
      usedBanks := usedBanks + {bank.index};
    }

    method ApplyGroupedSettlement()
      requires Ready()
      modifies this
      ensures Contents() == Next(inp, 2, old(Contents()))
    {
      var keys, groups := CollectGroups();
      for k := 0 to |keys|
        invariant Contents() == GroupSweep(inp, old(Contents()), k)
      {
        GroupIsInhabited(inp, old(Contents()), keys[k]);
        SettleGroup(groups[keys[k]]);
      }
    }

    // -------------------------------------------------------------- phase 3

    method FindCandidates(ist: Ist) returns (candidates: seq<Bank>)
      requires Ready()
      ensures candidates == CandidatesFor(inp, ist)
    {
      if ist.epochDay.None? || ist.amount.None? {
        return [];
      }
      candidates := W.SearchByDay(inp.banks, banksByDay, ist.epochDay.value, inp.opts.toleranceDays,
                                  ScoredCandidate(inp, ist));
    }

    method FindFallbackCandidates(ist: Ist) returns (candidates: seq<Bank>)
      requires Ready()
      ensures candidates == FallbackCandidatesFor(inp, ist)
    {
      if ist.epochDay.None? || ist.amount.None? || IsPettyCashRow(inp.ev, ist) {
        return [];
      }
      var tolerance := MaxNat(inp.opts.toleranceDays, 30);
      candidates := W.SearchByDay(inp.banks, banksByDay, ist.epochDay.value, tolerance, EvidentFallback(inp, ist));
      if |candidates| == 0 {
        candidates := W.SearchByDay(inp.banks, banksByDay, ist.epochDay.value, tolerance, PlainFallback(inp, ist));
      }
    }

    method ScoredRow(ist: Ist, ghost step: (State, Ist) -> State)
      requires Ready() && Implements(inp, BestScored, step)
      modifies this
      ensures Contents() == step(old(Contents()), ist)
    {
      assert step(old(Contents()), ist) == Step(inp, BestScored, old(Contents()), ist);
      if ist.row in matches {
        return;
      }
      var candidates := FindCandidates(ist);
      var result := DecideAmong(inp, ist, candidates, usedBanks);
      if result.status == Unmatched {
        var fallbackCandidates := FindFallbackCandidates(ist);
        var fallback := DecideAmong(inp, ist, fallbackCandidates, usedBanks);
        if fallback.status != Unmatched {
          result := fallback.(status := NeedsReview);
        }
      }
      matches := matches[ist.row := result];
      if (result.status == Matched || result.status == NeedsReview) && result.bank.Some? {
        usedBanks := usedBanks + {result.bank.value.index};
      }
      UnmatchedHasNoBank(inp, ist, old(usedBanks));
    }

    method MatchByScore(ghost step: (State, Ist) -> State)
      requires Ready() && Implements(inp, BestScored, step)
      modifies this
      ensures Contents() == Fold(inp.rows, step, old(Contents()), |inp.rows|)
    {
      for k := 0 to |inp.rows|
        invariant Contents() == Fold(inp.rows, step, old(Contents()), k)
      {
        ScoredRow(inp.rows[k], step);
      }
    }

    // -------------------------------------------------------------- phase 4

    /** Tries the three tiers in turn and takes the top-ranked bank of the first that offers any. */
    method SelectFallback(ist: Ist, codes: set<string>, own: Option<nat>) returns (result: MatchResult)
      ensures result == ExhaustiveResult(inp, ist, codes, usedBanks, own)
    {
      var matchCase := ForcedBestBankMatch;
      var candidates := TierCandidates(inp, usedBanks, own, Forced(inp, ist, codes));
      if |candidates| == 0 {
        matchCase := AmountDescriptionFallback;
        candidates := TierCandidates(inp, usedBanks, own, ByDescription(inp, ist));
      }
      if |candidates| == 0 {
        matchCase := NearAmountClientMatch;
        candidates := TierCandidates(inp, usedBanks, own, Near(inp, ist, codes));
      }
      if |candidates| == 0 {
        return NOTHING;
      }
      var best := candidates[Foremost(candidates, ByForcedRank(inp.ev, ist))];
      result := MatchResult(NeedsReview, matchCase, ForcedScore(inp.ev, ist, best), Some(best));
    }

    /** The bank codes the row's account may be booked under. */
    method CodesOf(ist: Ist, aliases: map<string, set<string>>, bankCodes: set<string>) returns (codes: set<string>)
      requires forall a :: (if a in aliases then aliases[a] else {}) == Aliases.AliasesOf(inp, a)
      requires bankCodes == set b | b in inp.banks && b.accountCode != "" :: b.accountCode
      ensures codes == CompatibleCodes(inp, ist)
    {
      codes := if ist.accountCode in bankCodes then {ist.accountCode} else {};
      if ist.accountCode in aliases {
        codes := codes + aliases[ist.accountCode];
      }
    }

    method ExhaustiveRow(ist: Ist, aliases: map<string, set<string>>, bankCodes: set<string>,
                         ghost step: (State, Ist) -> State)
      requires Ready() && Implements(inp, Exhaustive, step)
      requires forall a :: (if a in aliases then aliases[a] else {}) == Aliases.AliasesOf(inp, a)
      requires bankCodes == set b | b in inp.banks && b.accountCode != "" :: b.accountCode
      modifies this
      ensures Contents() == step(old(Contents()), ist)
    {
      assert step(old(Contents()), ist) == Step(inp, Exhaustive, old(Contents()), ist);
      var current := if ist.row in matches then Some(matches[ist.row]) else None;
      if inp.Preserved(ist) || Settled(inp, current) {
        return;
      }
      if IsPettyCashRow(inp.ev, ist) {
        if current.None? || current.value.status == Unmatched {
          matches := matches[ist.row := NOTHING];
        }
        return;
      }
      var codes := CodesOf(ist, aliases, bankCodes);
      if ist.amount.None? || ist.direction.None? {
        matches := matches[ist.row := NOTHING];
        return;
      }
      var result := SelectFallback(ist, codes, OwnBank(current));
      matches := matches[ist.row := result];
      if result.bank.Some? && !inp.opts.allowManyToOne {
        usedBanks := usedBanks + {result.bank.value.index};
      }
    }

    method ApplyExhaustiveFallback(ghost step: (State, Ist) -> State)
      requires Ready() && Implements(inp, Exhaustive, step)
      modifies this
      ensures Contents() == Fold(inp.rows, step, old(Contents()), |inp.rows|)
    {
      var aliases := Aliases.LearnAccountAliases(inp);
      var bankCodes := set b | b in inp.banks && b.accountCode != "" :: b.accountCode;
      for k := 0 to |inp.rows|
        invariant Contents() == Fold(inp.rows, step, old(Contents()), k)
      {
        ExhaustiveRow(inp.rows[k], aliases, bankCodes, step);
      }
    }

    // -------------------------------------------------------------- phases 5 and 6

    method RebuildUsedBanks()
      modifies this
      ensures Contents() == Rebuild(inp, old(Contents()))
    {
      if inp.opts.allowManyToOne {
        return;
      }
      usedBanks := {};
      var todo := matches.Keys;
      while todo != {}
        invariant todo <= matches.Keys && matches == old(matches)
        invariant usedBanks == set r | r in matches.Keys - todo && Holds(inp, matches[r]) :: matches[r].bank.value.index
      {
        var r :| r in todo;
        if Holds(inp, matches[r]) {
          usedBanks := usedBanks + {matches[r].bank.value.index};
        }
        todo := todo - {r};
      }
    }

    method CashJournalRow(ist: Ist, ghost step: (State, Ist) -> State)
      requires Ready() && Implements(inp, Cash, step)
      modifies this
      ensures Contents() == step(old(Contents()), ist)
    {
      assert step(old(Contents()), ist) == Step(inp, Cash, old(Contents()), ist);
      var current := if ist.row in matches then Some(matches[ist.row]) else None;
      if inp.Preserved(ist) || Settled(inp, current) || !IsCashJournal(inp.ev, ist)
         || ist.epochDay.None? || ist.amount.None? || ist.direction.None? {
        return;
      }
      var candidates := W.SearchByDay(inp.banks, banksByDay, ist.epochDay.value, MaxNat(inp.opts.toleranceDays, 3),
                                      CashCandidate(inp, ist, usedBanks, OwnBank(current)));
      if |candidates| != 1 {
        return;
      }
      var bank := candidates[0];
      if current.Some? && current.value.bank.Some? && inp.Ref(current.value.bank.value) != ""
         && current.value.bank.value.index != bank.index {
        return;
      }
      matches := matches[ist.row := CashResult(inp, ist, bank)];
      if !inp.opts.allowManyToOne {
        usedBanks := usedBanks + {bank.index};
      }
    }

    method ApplyCashJournals(ghost step: (State, Ist) -> State)
      requires Ready() && Implements(inp, Cash, step)
      modifies this
      ensures Contents() == Fold(inp.rows, step, old(Contents()), |inp.rows|)
    {
      for k := 0 to |inp.rows|
        invariant Contents() == Fold(inp.rows, step, old(Contents()), k)
      {
        CashJournalRow(inp.rows[k], step);
      }
    }

    // -------------------------------------------------------------- the run

    /** All six phases, in order, on freshly built structures. */
    method Reconcile()
      requires Ready() && Contents() == Stage(inp, 0)
      modifies this
      ensures Contents() == Final(inp)
    {
      StepperImplements(inp, ByReference);
      MatchReferences(Stepper(inp, ByReference));
      assert Contents() == Stage(inp, 1);
      ApplyGroupedSettlement();
      assert Contents() == Stage(inp, 2);
      StepperImplements(inp, BestScored);
      MatchByScore(Stepper(inp, BestScored));
      assert Contents() == Stage(inp, 3);
      if inp.opts.forceAll {
        StepperImplements(inp, Exhaustive);
        ApplyExhaustiveFallback(Stepper(inp, Exhaustive));
      }
      assert Contents() == Stage(inp, 4);
      RebuildUsedBanks();
      assert Contents() == Stage(inp, 5);
      StepperImplements(inp, Cash);
      ApplyCashJournals(Stepper(inp, Cash));
    }

    /** The run, the written cells, the summary, the entries for review, the sheet of unmatched banks, and the
        first thousand of them that the report carries. */
    method ReconcileWithReport() returns (
        cells: seq<string>, summary: Report.Summary, records: seq<Report.ReviewRecord>, unmatched: seq<Bank>,
        reported: seq<Bank>)
      requires Ready() && Contents() == Stage(inp, 0)
      modifies this
      ensures Contents() == Final(inp)
      ensures cells == Report.Cells(inp, Final(inp), |inp.rows|)
      ensures summary == Report.Tally(inp, Final(inp), |inp.rows|)
      ensures records == Report.Records(inp, Final(inp), |inp.rows|) && summary.reviewReturned == |records|
      ensures unmatched == Coverage.UnmatchedBanks(inp, Final(inp).used)
      ensures reported <= unmatched && |reported| == if |unmatched| < 1000 then |unmatched| else 1000
    {
      Reconcile();
      forall i | 0 <= i < |inp.rows|
        ensures inp.rows[i].row in matches
      {
        Guarantees.EveryRowHasResult(inp, i, 6);
      }
      cells, summary, records := Report.WriteBack(inp, matches, usedBanks);
      unmatched := Coverage.UnmatchedBanks(inp, usedBanks);
      reported := if |unmatched| < 1000 then unmatched else unmatched[..1000];
    }
  }

  function Listed(groups: map<GroupKey, seq<Ist>>, key: GroupKey): seq<Ist> {
    if key in groups then groups[key] else []
  }

  /** After `n` rows every key seen lists its rows so far. */
  ghost predicate Collected(inp: Input, s: State, n: nat, keys: seq<GroupKey>, groups: map<GroupKey, seq<Ist>>)
    requires n <= |inp.rows|
  {
    && (forall key :: key in groups <==> key in keys)
    && (forall key :: Listed(groups, key) == Filter(inp.rows[..n], HasKey(inp, s, key)))
  }

  lemma CollectedAll(inp: Input, s: State, keys: seq<GroupKey>, groups: map<GroupKey, seq<Ist>>)
    requires Collected(inp, s, |inp.rows|, keys, groups)
    ensures forall key | key in keys :: key in groups && groups[key] == GroupOf(inp, s, key)
  {
    assert inp.rows[..|inp.rows|] == inp.rows;
  }

  lemma CollectedOneMore(inp: Input, s: State, n: nat, keys: seq<GroupKey>, groups: map<GroupKey, seq<Ist>>,
                         keys': seq<GroupKey>, groups': map<GroupKey, seq<Ist>>)
    requires n < |inp.rows| && Collected(inp, s, n, keys, groups)
    requires
      var ist := inp.rows[n];
      if Groupable(inp, s, ist) then
        var key := KeyOf(inp.ev, ist);
        && groups' == groups[key := Listed(groups, key) + [ist]]
        && keys' == if key in keys then keys else keys + [key]
      else groups' == groups && keys' == keys
    ensures Collected(inp, s, n + 1, keys', groups')
  {
    forall key
      ensures Listed(groups', key) == Filter(inp.rows[..n + 1], HasKey(inp, s, key))
    {
      OneMoreRow(inp, s, n, key);
      assert Listed(groups, key) == Filter(inp.rows[..n], HasKey(inp, s, key));
    }
  }

  lemma OneMoreRow(inp: Input, s: State, n: nat, key: GroupKey)
    requires n < |inp.rows|
    ensures Filter(inp.rows[..n + 1], HasKey(inp, s, key))
         == Filter(inp.rows[..n], HasKey(inp, s, key)) + if InGroup(inp, s, key, inp.rows[n]) then [inp.rows[n]] else []
  {
    FilterSnoc(inp.rows, n, HasKey(inp, s, key));
  }

  lemma UnmatchedHasNoBank(inp: Input, ist: Ist, used: set<nat>)
    requires inp.Valid()
    ensures var m := ScoredResult(inp, ist, used); m.status == Unmatched ==> m.bank.None?
  {
    DecideMeaning(inp.opts, Scores(inp, ist, Filter(CandidatesFor(inp, ist), Unused(inp, used))));
    DecideMeaning(inp.opts, Scores(inp, ist, Filter(FallbackCandidatesFor(inp, ist), Unused(inp, used))));
  }
}
