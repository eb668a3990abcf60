/** What every step of every phase keeps: results are well formed, preserved rows are fixed, and, unless one
    bank may serve many rows, no bank is shared outside one settlement group. */
module Invariants {
  import opened Basics
  import opened Ledger
  import opened Scoring
  import opened Window
  import opened Phases
  import opened Criteria
  import RM = ReferenceMatching

  ghost function PreservedMatch(inp: Input, ist: Ist): MatchResult
    requires inp.Valid()
  {
    PreservedResult(inp, ist, RM.Find(inp, [ist.paymentReference], ist.row))
  }

  /** A result a row may carry: the fixed one for a preserved row; otherwise the status says whether there is
      a bank, and the bank is one of the sheet's, with a reference. */
  ghost predicate RowSound(inp: Input, ist: Ist, m: MatchResult)
    requires inp.Valid()
  {
    if inp.Preserved(ist) then m == PreservedMatch(inp, ist)
    else
      && (m.status.Matched? ==> m.bank.Some?)
      && (m.status.Unmatched? ==> m.bank.None?)
      && (m.bank.Some? ==> inp.Owns(m.bank.value) && inp.Ref(m.bank.value) != "")
  }

  ghost predicate Sound(inp: Input, s: State)
    requires inp.Valid()
  {
    && (forall r | r in s.matches :: IsRow(inp, r))
    && (forall i | 0 <= i < |inp.rows| :: SoundAt(inp, s, i))
  }

  ghost predicate IsRow(inp: Input, r: nat) {
    exists i | 0 <= i < |inp.rows| :: inp.rows[i].row == r
  }

  ghost predicate SoundAt(inp: Input, s: State, i: nat)
    requires inp.Valid() && i < |inp.rows|
  {
    Current(s, inp.rows[i]).Some? ==> RowSound(inp, inp.rows[i], Current(s, inp.rows[i]).value)
  }

  /** Row `i` is not preserved and its result names bank `b`. */
  predicate HasBank(inp: Input, s: State, i: nat, b: nat) {
    && i < |inp.rows|
    && !inp.Preserved(inp.rows[i])
    && OwnBank(Current(s, inp.rows[i])) == Some(b)
  }

  predicate SameGroup(inp: Input, s: State, i: nat, j: nat)
    requires i < |inp.rows| && j < |inp.rows|
  {
    var m := Current(s, inp.rows[i]);
    m == Current(s, inp.rows[j]) && m.Some? && m.value.matchCase == GroupedSettlementMatch && m.value.status == Matched
  }

  ghost predicate Exclusive(inp: Input, s: State) {
    forall i: nat, j: nat, b: nat | i != j && HasBank(inp, s, i, b) && HasBank(inp, s, j, b) :: SameGroup(inp, s, i, j)
  }

  ghost predicate Covered(inp: Input, s: State) {
    forall i: nat, b: nat | HasBank(inp, s, i, b) :: b in s.used
  }

  ghost predicate Inv(inp: Input, s: State)
    requires inp.Valid()
  {
    Sound(inp, s) && (inp.opts.allowManyToOne || (Exclusive(inp, s) && Covered(inp, s)))
  }

  // ---------------------------------------------------------------- recording results

  lemma RecordCurrent(inp: Input, s: State, k: nat, m: MatchResult, take: bool)
    requires inp.Valid() && k < |inp.rows|
    ensures forall i | 0 <= i < |inp.rows| ::
      Current(Record(s, inp.rows[k], m, take), inp.rows[i]) == if i == k then Some(m) else Current(s, inp.rows[i])
  {
    forall i | 0 <= i < |inp.rows| && i != k
      ensures inp.rows[i].row != inp.rows[k].row
    {
      assert i < k || k < i;
    }
  }

  /** The bank of a new result is free, or the row's own. */
  predicate Grants(inp: Input, s: State, ist: Ist, m: MatchResult, take: bool) {
    inp.opts.allowManyToOne
    || m.bank.None?
    || (take && (m.bank.value.index !in s.used || OwnBank(Current(s, ist)) == Some(m.bank.value.index)))
  }

  lemma RecordKeepsSound(inp: Input, s: State, k: nat, m: MatchResult, take: bool)
    requires inp.Valid() && Sound(inp, s) && k < |inp.rows| && RowSound(inp, inp.rows[k], m)
    ensures Sound(inp, Record(s, inp.rows[k], m, take))
  {
    RecordCurrent(inp, s, k, m, take);
    assert IsRow(inp, inp.rows[k].row);
    forall i | 0 <= i < |inp.rows|
      ensures SoundAt(inp, Record(s, inp.rows[k], m, take), i)
    {
      assert SoundAt(inp, s, i);
    }
  }

  lemma RecordKeepsInv(inp: Input, s: State, k: nat, m: MatchResult, take: bool)
    requires inp.Valid() && Inv(inp, s) && k < |inp.rows| && !inp.Preserved(inp.rows[k])
    requires RowSound(inp, inp.rows[k], m)
    requires !Settled(inp, Current(s, inp.rows[k]))
    requires Grants(inp, s, inp.rows[k], m, take)
    ensures Inv(inp, Record(s, inp.rows[k], m, take))
  {
    RecordKeepsSound(inp, s, k, m, take);
    RecordCurrent(inp, s, k, m, take);
    var s' := Record(s, inp.rows[k], m, take);
    if !inp.opts.allowManyToOne {
      forall i: nat, j: nat, b: nat | i != j && HasBank(inp, s', i, b) && HasBank(inp, s', j, b)
        ensures SameGroup(inp, s', i, j)
      {
        if i == k {
          NoOtherHolder(inp, s, k, j, b);
        } else if j == k {
          NoOtherHolder(inp, s, k, i, b);
        } else {
          assert HasBank(inp, s, i, b) && HasBank(inp, s, j, b);
        }
      }
      forall i: nat, b: nat | HasBank(inp, s', i, b)
        ensures b in s'.used
      {
        assert i == k || HasBank(inp, s, i, b);
        if i == k && b in s.used {
        }
      }
    }
  }

  /** Nobody else holds a bank that is free for a row or that an unsettled row holds itself. */
  lemma NoOtherHolder(inp: Input, s: State, k: nat, j: nat, b: nat)
    requires inp.Valid() && Inv(inp, s) && !inp.opts.allowManyToOne
    requires k < |inp.rows| && j < |inp.rows| && j != k
    requires !inp.Preserved(inp.rows[k]) && !Settled(inp, Current(s, inp.rows[k]))
    requires b !in s.used || OwnBank(Current(s, inp.rows[k])) == Some(b)
    ensures !HasBank(inp, s, j, b)
  {
    assert SoundAt(inp, s, k);
    assert HasBank(inp, s, j, b) && HasBank(inp, s, k, b) ==> SameGroup(inp, s, k, j);
  }

  lemma RecordPreservedKeepsInv(inp: Input, s: State, k: nat, take: bool)
    requires inp.Valid() && Inv(inp, s) && k < |inp.rows| && inp.Preserved(inp.rows[k])
    ensures Inv(inp, Record(s, inp.rows[k], PreservedMatch(inp, inp.rows[k]), take))
  {
    var m := PreservedMatch(inp, inp.rows[k]);
    RecordKeepsSound(inp, s, k, m, take);
    RecordCurrent(inp, s, k, m, take);
    var s' := Record(s, inp.rows[k], m, take);
    assert forall i: nat, b: nat :: HasBank(inp, s', i, b) <==> HasBank(inp, s, i, b);
    forall i: nat, j: nat, b: nat | i != j && HasBank(inp, s', i, b) && HasBank(inp, s', j, b) && Exclusive(inp, s)
      ensures SameGroup(inp, s', i, j)
    {
      assert SameGroup(inp, s, i, j);
    }
  }

  // ---------------------------------------------------------------- phase 1

  lemma BestDirectIsCandidate(inp: Input, ist: Ist, candidates: seq<Bank>)
    ensures BestDirect(inp, ist, candidates).None? <==> |candidates| == 0
    ensures BestDirect(inp, ist, candidates).Some? ==> BestDirect(inp, ist, candidates).value in candidates
  {
  }

  lemma DirectResultOk(inp: Input, ist: Ist, s: State)
    requires inp.Valid() && !inp.Preserved(ist)
    ensures var r := DirectResult(inp, ist, RM.Find(inp, ist.directSearchTexts, ist.row), s.used);
      r.Some? ==> RowSound(inp, ist, r.value) && Grants(inp, s, ist, r.value, !inp.opts.allowManyToOne)
  {
    var found := RM.Find(inp, ist.directSearchTexts, ist.row);
    InFilter(found, Available(inp, s.used));
    var best := BestDirect(inp, ist, Filter(found, Available(inp, s.used)));
    if best.Some? {
      RM.FindMeaning(inp, ist.directSearchTexts, ist.row, best.value);
    }
  }

  lemma ReferenceStepKeepsInv(inp: Input, s: State, k: nat)
    requires inp.Valid() && Inv(inp, s) && k < |inp.rows| && Current(s, inp.rows[k]).None?
    ensures Inv(inp, ReferenceStep(inp, s, inp.rows[k]))
  {
    var ist := inp.rows[k];
    if inp.Preserved(ist) {
      RecordPreservedKeepsInv(inp, s, k, !inp.opts.allowManyToOne);
    } else {
      DirectResultOk(inp, ist, s);
      var r := DirectResult(inp, ist, RM.Find(inp, ist.directSearchTexts, ist.row), s.used);
      if r.Some? {
        RecordKeepsInv(inp, s, k, r.value, !inp.opts.allowManyToOne);
      }
    }
  }

  // ---------------------------------------------------------------- phase 2

  lemma {:induction false} RecordAllCurrent(inp: Input, s: State, group: seq<Ist>, m: MatchResult, n: nat, ist: Ist)
    requires n <= |group|
    ensures Current(RecordAll(s, group, m, n), ist) ==
      if exists i | 0 <= i < n :: group[i].row == ist.row then Some(m) else Current(s, ist)
    ensures RecordAll(s, group, m, n).used == s.used + if n > 0 && m.bank.Some? then {m.bank.value.index} else {}
  {
    if n > 0 {
      RecordAllCurrent(inp, s, group, m, n - 1, ist);
    }
  }

  lemma {:induction false} RecordAllKeys(s: State, group: seq<Ist>, m: MatchResult, n: nat, r: nat)
    requires n <= |group| && r in RecordAll(s, group, m, n).matches
    ensures r in s.matches || exists i | 0 <= i < n :: group[i].row == r
  {
    if n > 0 && r != group[n - 1].row {
      RecordAllKeys(s, group, m, n - 1, r);
    }
  }

  /** A row's number occurs in a group exactly when the row does. */
  lemma InGroupByRow(inp: Input, group: seq<Ist>, ist: Ist)
    requires inp.Valid() && ist in inp.rows && forall r | r in group :: r in inp.rows
    ensures (exists i | 0 <= i < |group| :: group[i].row == ist.row) <==> ist in group
  {
    if i :| 0 <= i < |group| && group[i].row == ist.row {
      assert group[i] in group;
      var a, b :| 0 <= a < |inp.rows| && inp.rows[a] == ist && 0 <= b < |inp.rows| && inp.rows[b] == group[i];
      assert a == b;
    }
  }

  ghost predicate MayGroup(inp: Input, group: seq<Ist>) {
    |group| > 0 && forall r | r in group :: r in inp.rows && !inp.Preserved(r)
  }

  /** After a group is recorded its rows carry the group's result and all other rows what they had. */
  lemma GroupRecorded(inp: Input, s: State, group: seq<Ist>, m: MatchResult, ist: Ist)
    requires inp.Valid() && MayGroup(inp, group) && ist in inp.rows
    ensures Current(RecordAll(s, group, m, |group|), ist) == if ist in group then Some(m) else Current(s, ist)
    ensures RecordAll(s, group, m, |group|).used == s.used + if m.bank.Some? then {m.bank.value.index} else {}
  {
    RecordAllCurrent(inp, s, group, m, |group|, ist);
    InGroupByRow(inp, group, ist);
  }

  lemma GroupKeepsSound(inp: Input, s: State, group: seq<Ist>, m: MatchResult)
    requires inp.Valid() && Sound(inp, s) && MayGroup(inp, group)
    requires m.status == Matched && m.bank.Some? && inp.Owns(m.bank.value) && inp.Ref(m.bank.value) != ""
    ensures Sound(inp, RecordAll(s, group, m, |group|))
  {
    var s' := RecordAll(s, group, m, |group|);
    forall i | 0 <= i < |inp.rows|
      ensures SoundAt(inp, s', i)
    {
      GroupRecorded(inp, s, group, m, inp.rows[i]);
      assert SoundAt(inp, s, i);
    }
    forall r | r in s'.matches
      ensures IsRow(inp, r)
    {
      RecordAllKeys(s, group, m, |group|, r);
      if r !in s.matches {
        var i :| 0 <= i < |group| && group[i].row == r;
        assert group[i] in group;
      }
    }
  }

  lemma GroupHolders(inp: Input, s: State, group: seq<Ist>, m: MatchResult, i: nat, x: nat)
    requires inp.Valid() && MayGroup(inp, group) && m.bank.Some?
    requires HasBank(inp, RecordAll(s, group, m, |group|), i, x)
    ensures i < |inp.rows|
    ensures if inp.rows[i] in group then x == m.bank.value.index else HasBank(inp, s, i, x)
  {
    GroupRecorded(inp, s, group, m, inp.rows[i]);
  }

  lemma GroupKeepsInv(inp: Input, s: State, group: seq<Ist>, b: Bank)
    requires inp.Valid() && Inv(inp, s) && MayGroup(inp, group)
    requires inp.Owns(b) && inp.Ref(b) != "" && Free(inp, s.used, None, b)
    ensures Inv(inp, RecordAll(s, group, GroupedResult(b), |group|))
  {
    var m := GroupedResult(b);
    var s' := RecordAll(s, group, m, |group|);
    GroupKeepsSound(inp, s, group, m);
    if !inp.opts.allowManyToOne {
      forall i: nat, j: nat, x: nat | i != j && HasBank(inp, s', i, x) && HasBank(inp, s', j, x)
        ensures SameGroup(inp, s', i, j)
      {
        GroupHolders(inp, s, group, m, i, x);
        GroupHolders(inp, s, group, m, j, x);
        GroupRecorded(inp, s, group, m, inp.rows[i]);
        GroupRecorded(inp, s, group, m, inp.rows[j]);
        if inp.rows[i] !in group && inp.rows[j] !in group {
          assert SameGroup(inp, s, i, j);
        }
      }
      forall i: nat, x: nat | HasBank(inp, s', i, x)
        ensures x in s'.used
      {
        GroupHolders(inp, s, group, m, i, x);
        GroupRecorded(inp, s, group, m, inp.rows[i]);
      }
    }
  }

  lemma GroupMembers(inp: Input, s: State, key: GroupKey)
    requires key in GroupKeys(inp, s, |inp.rows|)
    ensures MayGroup(inp, GroupOf(inp, s, key)) && GroupOf(inp, s, key)[0].epochDay.Some?
  {
    GroupIsInhabited(inp, s, key);
  }

  /** The bank chosen for a group is an acceptable, free one inside the window. */
  lemma GroupChoiceOk(inp: Input, group: seq<Ist>, used: set<nat>, b: Bank)
    requires inp.Valid() && |group| > 0 && group[0].epochDay.Some?
    requires GroupChoice(inp, group, GroupSearch(inp, group, used)) == Some(b)
    ensures inp.Owns(b) && GroupAccepts(inp, group, b) && Free(inp, used, None, b)
    ensures WithinDays(b, group[0].epochDay.value, inp.opts.toleranceDays)
  {
    BestDirectIsCandidate(inp, group[0], GroupSearch(inp, group, used));
    SearchIsLinearScan(inp.banks, group[0].epochDay.value, inp.opts.toleranceDays, GroupCandidate(inp, group, used), b);
  }

  /** A free bank inside the window that the group's evidence accepts. */
  ghost predicate GroupMay(inp: Input, group: seq<Ist>, used: set<nat>, b: Bank)
    requires |group| > 0 && group[0].epochDay.Some?
  {
    && inp.Owns(b) && GroupFits(inp, group, b) && Free(inp, used, None, b)
    && WithinDays(b, group[0].epochDay.value, inp.opts.toleranceDays)
  }

  /** A bank is chosen exactly when there is a candidate and all candidates carry one reference, and then it is
      one of them. */
  lemma GroupChoiceMeaning(inp: Input, group: seq<Ist>, used: set<nat>)
    requires inp.Valid() && |group| > 0 && group[0].epochDay.Some?
    ensures var choice := GroupChoice(inp, group, GroupSearch(inp, group, used));
      && (choice.Some? <==>
            && (exists b :: GroupMay(inp, group, used, b))
            && forall b, c | GroupMay(inp, group, used, b) && GroupMay(inp, group, used, c) :: inp.Ref(b) == inp.Ref(c))
      && (choice.Some? ==> GroupMay(inp, group, used, choice.value))
  {
    var found := GroupSearch(inp, group, used);
    forall b
      ensures b in found <==> GroupMay(inp, group, used, b)
    {
      SearchIsLinearScan(inp.banks, group[0].epochDay.value, inp.opts.toleranceDays,
                         GroupCandidate(inp, group, used), b);
      GroupMeaning(inp, group, b);
      assert inp.Owns(b) <==> b in inp.banks;
    }
    BestDirectIsCandidate(inp, group[0], found);
    OneReference(inp, found);
    if |found| > 0 {
      assert found[0] in found;
    }
  }

  lemma OneReference(inp: Input, found: seq<Bank>)
    ensures |References(inp, found)| == 1 <==>
      |found| > 0 && forall b, c | b in found && c in found :: inp.Ref(b) == inp.Ref(c)
  {
    var refs := References(inp, found);
    if |found| > 0 {
      var r := inp.Ref(found[0]);
      assert found[0] in found && r in refs;
      assert (forall b, c | b in found && c in found :: inp.Ref(b) == inp.Ref(c)) ==> refs == {r};
      if |refs| == 1 {
        assert |refs - {r}| == 0;
        assert forall b | b in found :: inp.Ref(b) in refs && inp.Ref(b) !in refs - {r};
      }
    } else {
      assert refs == {};
    }
  }

  lemma GroupStepKeepsInv(inp: Input, s: State, group: seq<Ist>)
    requires inp.Valid() && Inv(inp, s) && MayGroup(inp, group) && group[0].epochDay.Some?
    ensures Inv(inp, GroupStep(inp, s, group))
  {
    var choice := GroupChoice(inp, group, GroupSearch(inp, group, s.used));
    if RightSize(group) && choice.Some? {
      GroupChoiceOk(inp, group, s.used, choice.value);
      GroupKeepsInv(inp, s, group, choice.value);
    }
  }

  lemma {:induction false} GroupSweepKeepsInv(inp: Input, s: State, k: nat)
    requires inp.Valid() && Inv(inp, s) && k <= |GroupKeys(inp, s, |inp.rows|)|
    ensures Inv(inp, GroupSweep(inp, s, k))
  {
    if k > 0 {
      GroupSweepKeepsInv(inp, s, k - 1);
      var key := GroupKeys(inp, s, |inp.rows|)[k - 1];
      GroupMembers(inp, s, key);
      GroupStepKeepsInv(inp, GroupSweep(inp, s, k - 1), GroupOf(inp, s, key));
    }
  }

  // ---------------------------------------------------------------- phase 3

  /** A decision among searched candidates names one of them that is unused, or there was none. */
  lemma DecideAmongOk(inp: Input, ist: Ist, candidates: seq<Bank>, used: set<nat>)
    ensures var m := DecideAmong(inp, ist, candidates, used);
      && (m.status.Unmatched? <==> m.bank.None?)
      && (m.bank.Some? ==> m.bank.value in candidates && Free(inp, used, None, m.bank.value))
      && (m.status.Matched? <==> IsScoredCase(m.matchCase))
      && (m.status.NeedsReview? <==> m.matchCase == IncorrectOrAmbiguousLink)
      && (m.status.Unmatched? ==> m == NOTHING)
  {
    var unused := Filter(candidates, Unused(inp, used));
    InFilter(candidates, Unused(inp, used));
    var scored := Scores(inp, ist, unused);
    DecideMeaning(inp.opts, scored);
    var m := Decide(inp.opts, scored);
    if m.bank.Some? {
      var i: nat :| i < |scored| && m.bank.value == scored[i].bank;
      assert scored[i] == ScoreCandidate(inp, ist, unused[i]);
      assert unused[i] in unused;
    }
  }

  /** The bank decided on carries its own score and, if it won, the name its date and account earn; without a
      decision no candidate was free. */
  lemma DecideAmongWins(inp: Input, ist: Ist, candidates: seq<Bank>, used: set<nat>)
    ensures var m := DecideAmong(inp, ist, candidates, used);
      && (m.status.Unmatched? <==> forall b | b in candidates :: !Free(inp, used, None, b))
      && (m.bank.Some? ==> m.confidence == ScoreCandidate(inp, ist, m.bank.value).score)
      && (m.status.Matched? ==> m.bank.Some? && Earned(inp, ist, m.matchCase, m.bank.value))
  {
    var unused := Filter(candidates, Unused(inp, used));
    InFilter(candidates, Unused(inp, used));
    var scored := Scores(inp, ist, unused);
    DecideMeaning(inp.opts, scored);
    forall i | 0 <= i < |scored|
      ensures scored[i] == ScoreCandidate(inp, ist, scored[i].bank) && scored[i].bank in unused
    {
      assert scored[i] == ScoreCandidate(inp, ist, unused[i]);
    }
    if |unused| > 0 {
      assert unused[0] in unused;
    }
    if Decide(inp.opts, scored).status.Matched? {
      MatchedHasWinner(inp.opts, scored);
      WinnerIsMatched(inp.opts, scored, Foremost(scored, ByScore));
    }
  }

  /** The bank's scores convince, and the case names what its date and account are. */
  predicate Earned(inp: Input, ist: Ist, matchCase: MatchCase, b: Bank) {
    var c := ScoreCandidate(inp, ist, b);
    Convinces(inp.opts, c) && NameHolds(matchCase, c)
  }

  ghost predicate InScoredSearch(inp: Input, ist: Ist, b: Bank) {
    && NarrowFits(inp, ist, b)
    && ist.epochDay.Some? && WithinDays(b, ist.epochDay.value, inp.opts.toleranceDays)
  }

  ghost predicate InFallbackSearch(inp: Input, ist: Ist, b: Bank) {
    && MoneyFits(inp, ist, b) && !OfRegister(inp.ev, ist)
    && ist.epochDay.Some? && WithinDays(b, ist.epochDay.value, MaxNat(inp.opts.toleranceDays, 30))
  }

  lemma CandidatesMeaning(inp: Input, ist: Ist, b: Bank)
    requires inp.Valid()
    ensures b in CandidatesFor(inp, ist) <==> inp.Owns(b) && InScoredSearch(inp, ist, b)
  {
    NarrowMeaning(inp, ist, b);
    if ist.epochDay.Some? {
      SearchIsLinearScan(inp.banks, ist.epochDay.value, inp.opts.toleranceDays, ScoredCandidate(inp, ist), b);
    }
    assert inp.Owns(b) <==> b in inp.banks;
  }

  /** The 30-day search returns the banks with evidence when there are any, and otherwise all that agree in
      money and direction. */
  lemma FallbackMeaning(inp: Input, ist: Ist, b: Bank)
    requires inp.Valid()
    ensures b in FallbackCandidatesFor(inp, ist) <==>
      && inp.Owns(b) && InFallbackSearch(inp, ist, b)
      && (Evident(inp, ist, b)
          || forall c | inp.Owns(c) && InFallbackSearch(inp, ist, c) :: !Evident(inp, ist, c))
  {
    if ist.epochDay.Some? && ist.amount.Some? && !IsPettyCashRow(inp.ev, ist) {
      var tolerance := MaxNat(inp.opts.toleranceDays, 30);
      var evident := Search(inp.banks, ist.epochDay.value, tolerance, EvidentFallback(inp, ist));
      forall c
        ensures c in evident <==> inp.Owns(c) && InFallbackSearch(inp, ist, c) && Evident(inp, ist, c)
      {
        EvidentMeaning(inp, ist, c);
        SearchIsLinearScan(inp.banks, ist.epochDay.value, tolerance, EvidentFallback(inp, ist), c);
        assert inp.Owns(c) <==> c in inp.banks;
      }
      SearchIsLinearScan(inp.banks, ist.epochDay.value, tolerance, PlainFallback(inp, ist), b);
      EvidentMeaning(inp, ist, b);
      assert inp.Owns(b) <==> b in inp.banks;
      if |evident| > 0 {
        assert evident[0] in evident;
      }
    }
  }

  lemma ScoredResultOk(inp: Input, ist: Ist, used: set<nat>)
    requires inp.Valid()
    ensures var m := ScoredResult(inp, ist, used);
      && (m.status.Unmatched? <==> m.bank.None?)
      && (m.status.Unmatched? ==> m == NOTHING)
      && (m.bank.Some? ==> inp.Owns(m.bank.value) && Free(inp, used, None, m.bank.value))
      && (m.status.Matched? ==> InScoredSearch(inp, ist, m.bank.value) && IsScoredCase(m.matchCase))
      && (m.status.NeedsReview? ==>
            && (IsScoredCase(m.matchCase) || m.matchCase == IncorrectOrAmbiguousLink)
            && (InScoredSearch(inp, ist, m.bank.value) || InFallbackSearch(inp, ist, m.bank.value)))
  {
    DecideAmongOk(inp, ist, CandidatesFor(inp, ist), used);
    DecideAmongOk(inp, ist, FallbackCandidatesFor(inp, ist), used);
    var m := ScoredResult(inp, ist, used);
    if m.bank.Some? {
      CandidatesMeaning(inp, ist, m.bank.value);
      FallbackMeaning(inp, ist, m.bank.value);
    }
  }

  /** A scored case is earned, and it is a match exactly when the bank is a candidate of the narrow search: while
      one of those is free the 30-day search is not consulted. */
  lemma ScoredResultEarned(inp: Input, ist: Ist, used: set<nat>)
    requires inp.Valid()
    ensures var m := ScoredResult(inp, ist, used);
      && (m.bank.Some? ==> m.confidence == ScoreCandidate(inp, ist, m.bank.value).score)
      && (IsScoredCase(m.matchCase) ==>
            && m.bank.Some? && Earned(inp, ist, m.matchCase, m.bank.value)
            && (m.status.Matched? <==> InScoredSearch(inp, ist, m.bank.value)))
  {
    DecideAmongOk(inp, ist, CandidatesFor(inp, ist), used);
    DecideAmongOk(inp, ist, FallbackCandidatesFor(inp, ist), used);
    DecideAmongWins(inp, ist, CandidatesFor(inp, ist), used);
    DecideAmongWins(inp, ist, FallbackCandidatesFor(inp, ist), used);
    var m := ScoredResult(inp, ist, used);
    if m.bank.Some? {
      CandidatesMeaning(inp, ist, m.bank.value);
      FallbackMeaning(inp, ist, m.bank.value);
    }
  }

  lemma ScoredStepKeepsInv(inp: Input, s: State, k: nat)
    requires inp.Valid() && Inv(inp, s) && k < |inp.rows|
    requires inp.Preserved(inp.rows[k]) ==> Current(s, inp.rows[k]).Some?
    ensures Inv(inp, ScoredStep(inp, s, inp.rows[k]))
  {
    if Current(s, inp.rows[k]).None? {
      ScoredResultOk(inp, inp.rows[k], s.used);
      RecordKeepsInv(inp, s, k, ScoredResult(inp, inp.rows[k], s.used), true);
    }
  }

  // ---------------------------------------------------------------- phase 4

  lemma InTier(inp: Input, used: set<nat>, own: Option<nat>, tier: Bank -> bool, b: Bank)
    requires inp.Valid()
    ensures b in TierCandidates(inp, used, own, tier) <==> inp.Owns(b) && tier(b) && Free(inp, used, own, b)
  {
    InFilter(inp.banks, b => tier(b) && Free(inp, used, own, b));
    assert inp.Owns(b) <==> b in inp.banks;
  }

  lemma BestForcedOk(inp: Input, ist: Ist, candidates: seq<Bank>, matchCase: MatchCase)
    requires |candidates| > 0 && Increasing(candidates)
    ensures var m := BestForced(inp, ist, candidates, matchCase);
      && m.status == NeedsReview && m.matchCase == matchCase
      && m.bank.Some? && m.bank.value in candidates
      && m.confidence == ForcedScore(inp.ev, ist, m.bank.value)
      && forall c | c in candidates :: RanksBefore(inp.ev, ist, m.bank.value, c)
  {
    var key := ByForcedRank(inp.ev, ist);
    ForemostIsBest(candidates, key);
    var i := Foremost(candidates, key);
    forall c | c in candidates
      ensures RanksBefore(inp.ev, ist, candidates[i], c)
    {
      var j :| 0 <= j < |candidates| && candidates[j] == c;
      assert !Below(key(candidates[i]), key(candidates[j]));
      assert j < i ==> Below(key(candidates[j]), key(candidates[i]));
    }
  }

  /** Some bank of the tier is free for the row. */
  ghost predicate TierOpen(inp: Input, used: set<nat>, own: Option<nat>, tier: Bank -> bool) {
    exists b: Bank :: inp.Owns(b) && tier(b) && Free(inp, used, own, b)
  }

  /** `m` names the top-ranked free bank of the tier, the first in the sheet among equals. */
  ghost predicate BestOfTier(
    inp: Input, ist: Ist, used: set<nat>, own: Option<nat>, tier: Bank -> bool, m: MatchResult)
  {
    && m.status == NeedsReview && m.bank.Some?
    && inp.Owns(m.bank.value) && tier(m.bank.value) && Free(inp, used, own, m.bank.value)
    && m.confidence == ForcedScore(inp.ev, ist, m.bank.value)
    && forall c: Bank | inp.Owns(c) && tier(c) && Free(inp, used, own, c) :: RanksBefore(inp.ev, ist, m.bank.value, c)
  }

  lemma TierBest(inp: Input, ist: Ist, used: set<nat>, own: Option<nat>, tier: Bank -> bool, matchCase: MatchCase)
    requires inp.Valid()
    ensures TierOpen(inp, used, own, tier) <==> |TierCandidates(inp, used, own, tier)| > 0
    ensures TierOpen(inp, used, own, tier) ==>
      var m := BestForced(inp, ist, TierCandidates(inp, used, own, tier), matchCase);
      BestOfTier(inp, ist, used, own, tier, m) && m.matchCase == matchCase
  {
    var candidates := TierCandidates(inp, used, own, tier);
    forall b
      ensures b in candidates <==> inp.Owns(b) && tier(b) && Free(inp, used, own, b)
    {
      InTier(inp, used, own, tier, b);
    }
    if |candidates| > 0 {
      assert candidates[0] in candidates;
      FilterIncreasing(inp.banks, b => tier(b) && Free(inp, used, own, b));
      BestForcedOk(inp, ist, candidates, matchCase);
    }
  }

  /** The exhaustive fallback is tier-optimal: the first tier with a free bank decides, the top-ranked free
      bank of that tier is taken, the first in the sheet among equals, and nothing is selected exactly when all
      three tiers are closed. */
  lemma ExhaustiveIsTierOptimal(inp: Input, ist: Ist, codes: set<string>, used: set<nat>, own: Option<nat>)
    requires inp.Valid()
    ensures var m := ExhaustiveResult(inp, ist, codes, used, own);
      var open1 := TierOpen(inp, used, own, Forced(inp, ist, codes));
      var open2 := TierOpen(inp, used, own, ByDescription(inp, ist));
      var open3 := TierOpen(inp, used, own, Near(inp, ist, codes));
      && (m.matchCase == ForcedBestBankMatch <==> open1)
      && (m.matchCase == AmountDescriptionFallback <==> !open1 && open2)
      && (m.matchCase == NearAmountClientMatch <==> !open1 && !open2 && open3)
      && (m == NOTHING <==> !open1 && !open2 && !open3)
      && (open1 ==> BestOfTier(inp, ist, used, own, Forced(inp, ist, codes), m))
      && (!open1 && open2 ==> BestOfTier(inp, ist, used, own, ByDescription(inp, ist), m))
      && (!open1 && !open2 && open3 ==> BestOfTier(inp, ist, used, own, Near(inp, ist, codes), m))
  {
    TierBest(inp, ist, used, own, Forced(inp, ist, codes), ForcedBestBankMatch);
    TierBest(inp, ist, used, own, ByDescription(inp, ist), AmountDescriptionFallback);
    TierBest(inp, ist, used, own, Near(inp, ist, codes), NearAmountClientMatch);
  }

  lemma ExhaustiveResultOk(inp: Input, s: State, ist: Ist, codes: set<string>)
    requires inp.Valid() && !inp.Preserved(ist)
    ensures var m := ExhaustiveResult(inp, ist, codes, s.used, OwnBank(Current(s, ist)));
      && RowSound(inp, ist, m) && Grants(inp, s, ist, m, !inp.opts.allowManyToOne)
      && (m == NOTHING || (m.status == NeedsReview && m.bank.Some? && inp.Owns(m.bank.value)))
      && (m.matchCase == ForcedBestBankMatch ==> ForcedTier(inp, ist, codes, m.bank.value))
      && (m.matchCase == AmountDescriptionFallback ==> DescriptionTier(inp, ist, m.bank.value))
      && (m.matchCase == NearAmountClientMatch ==> NearTier(inp, ist, codes, m.bank.value))
      && (m.matchCase in {ForcedBestBankMatch, AmountDescriptionFallback, NearAmountClientMatch, NoCandidate})
  {
    ExhaustiveIsTierOptimal(inp, ist, codes, s.used, OwnBank(Current(s, ist)));
  }

  lemma ExhaustiveStepKeepsInv(inp: Input, s: State, k: nat)
    requires inp.Valid() && Inv(inp, s) && k < |inp.rows|
    ensures Inv(inp, ExhaustiveStep(inp, s, inp.rows[k]))
  {
    var ist := inp.rows[k];
    var current := Current(s, ist);
    if inp.Preserved(ist) || Settled(inp, current) {
    } else if IsPettyCashRow(inp.ev, ist) || ist.amount.None? || ist.direction.None? {
      RecordKeepsInv(inp, s, k, NOTHING, false);
    } else {
      var codes := CompatibleCodes(inp, ist);
      ExhaustiveResultOk(inp, s, ist, codes);
      RecordKeepsInv(inp, s, k, ExhaustiveResult(inp, ist, codes, s.used, OwnBank(current)), !inp.opts.allowManyToOne);
    }
  }

  // ---------------------------------------------------------------- phases 5 and 6

  lemma RebuildKeepsInv(inp: Input, s: State)
    requires inp.Valid() && Inv(inp, s)
    ensures Inv(inp, Rebuild(inp, s))
  {
    var s' := Rebuild(inp, s);
    forall i | 0 <= i < |inp.rows|
      ensures SoundAt(inp, s', i)
    {
      assert SoundAt(inp, s, i);
    }
    assert forall i: nat, b: nat :: HasBank(inp, s', i, b) <==> HasBank(inp, s, i, b);
    if !inp.opts.allowManyToOne {
      forall i: nat, j: nat, b: nat | i != j && HasBank(inp, s', i, b) && HasBank(inp, s', j, b)
        ensures SameGroup(inp, s', i, j)
      {
        assert SameGroup(inp, s, i, j);
      }
      forall i: nat, b: nat | HasBank(inp, s', i, b)
        ensures b in s'.used
      {
        assert SoundAt(inp, s, i);
        assert Holds(inp, s.matches[inp.rows[i].row]);
      }
    }
  }

  lemma CashSearchMeaning(inp: Input, ist: Ist, used: set<nat>, own: Option<nat>, b: Bank)
    requires inp.Valid() && ist.epochDay.Some?
    ensures b in CashSearch(inp, ist, used, own) <==>
      && inp.Owns(b) && CashFits(inp, ist, b) && Free(inp, used, own, b)
      && WithinDays(b, ist.epochDay.value, MaxNat(inp.opts.toleranceDays, 3))
  {
    SearchIsLinearScan(inp.banks, ist.epochDay.value, MaxNat(inp.opts.toleranceDays, 3),
                       CashCandidate(inp, ist, used, own), b);
    CashMeaning(inp, ist, b);
    assert inp.Owns(b) <==> b in inp.banks;
  }

  lemma CashStepKeepsInv(inp: Input, s: State, k: nat)
    requires inp.Valid() && Inv(inp, s) && k < |inp.rows|
    ensures Inv(inp, CashStep(inp, s, inp.rows[k]))
  {
    var ist := inp.rows[k];
    var current := Current(s, ist);
    if CashRow(inp, ist, current) {
      var candidates := CashSearch(inp, ist, s.used, OwnBank(current));
      if |candidates| == 1 && !Keeps(inp, current, candidates[0]) {
        assert candidates[0] in candidates;
        CashSearchMeaning(inp, ist, s.used, OwnBank(current), candidates[0]);
        RecordKeepsInv(inp, s, k, CashResult(inp, ist, candidates[0]), !inp.opts.allowManyToOne);
      }
    }
  }
}
