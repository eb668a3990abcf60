/** One bank, one row: what one-to-one means once preserved rows are counted in. */
module Sharing {
  import opened Basics
  import opened Ledger
  import opened Phases
  import opened Criteria
  import opened Invariants
  import opened Guarantees
  import Cov = Coverage
  import Cert = Certificates
  import Out = Outcomes
  import RM = ReferenceMatching

  // ---------------------------------------------------------------- used banks are not given away again

  /** From `s` to `t` no bank used in `s` reaches a row, preserved ones aside, that did not hold it in `s`. */
  ghost predicate Inherits(inp: Input, s: State, t: State) {
    forall i: nat, b: nat | HasBank(inp, t, i, b) && b in s.used :: HasBank(inp, s, i, b)
  }

  lemma InheritsTransitive(inp: Input, s: State, t: State, u: State)
    requires Inherits(inp, s, t) && Inherits(inp, t, u) && s.used <= t.used
    ensures Inherits(inp, s, u)
  {
  }

  lemma RecordInherits(inp: Input, s: State, k: nat, m: MatchResult, take: bool)
    requires inp.Valid() && !inp.opts.allowManyToOne && k < |inp.rows|
    requires inp.Preserved(inp.rows[k]) || Grants(inp, s, inp.rows[k], m, take)
    ensures Inherits(inp, s, Record(s, inp.rows[k], m, take))
  {
    RecordCurrent(inp, s, k, m, take);
  }

  lemma ReferenceStepInherits(inp: Input, s: State, k: nat)
    requires inp.Valid() && !inp.opts.allowManyToOne && k < |inp.rows|
    ensures Inherits(inp, s, ReferenceStep(inp, s, inp.rows[k]))
  {
    var ist := inp.rows[k];
    if inp.Preserved(ist) {
      RecordInherits(inp, s, k, PreservedMatch(inp, ist), true);
    } else {
      DirectResultOk(inp, ist, s);
      var r := DirectResult(inp, ist, RM.Find(inp, ist.directSearchTexts, ist.row), s.used);
      if r.Some? {
        RecordInherits(inp, s, k, r.value, true);
      }
    }
  }

  lemma ScoredStepInherits(inp: Input, s: State, k: nat)
    requires inp.Valid() && !inp.opts.allowManyToOne && k < |inp.rows|
    ensures Inherits(inp, s, ScoredStep(inp, s, inp.rows[k]))
  {
    if Current(s, inp.rows[k]).None? {
      ScoredResultOk(inp, inp.rows[k], s.used);
      RecordInherits(inp, s, k, ScoredResult(inp, inp.rows[k], s.used), true);
    }
  }

  lemma ExhaustiveStepInherits(inp: Input, s: State, k: nat)
    requires inp.Valid() && !inp.opts.allowManyToOne && k < |inp.rows|
    ensures Inherits(inp, s, ExhaustiveStep(inp, s, inp.rows[k]))
  {
    var ist := inp.rows[k];
    if inp.Preserved(ist) || Settled(inp, Current(s, ist)) {
    } else if IsPettyCashRow(inp.ev, ist) || ist.amount.None? || ist.direction.None? {
      RecordInherits(inp, s, k, NOTHING, false);
    } else {
      var codes := CompatibleCodes(inp, ist);
      ExhaustiveResultOk(inp, s, ist, codes);
      RecordInherits(inp, s, k, ExhaustiveResult(inp, ist, codes, s.used, OwnBank(Current(s, ist))), true);
    }
  }

  lemma CashStepInherits(inp: Input, s: State, k: nat)
    requires inp.Valid() && !inp.opts.allowManyToOne && k < |inp.rows|
    ensures Inherits(inp, s, CashStep(inp, s, inp.rows[k]))
  {
    var ist := inp.rows[k];
    var own := OwnBank(Current(s, ist));
    if CashRow(inp, ist, Current(s, ist)) {
      var found := CashSearch(inp, ist, s.used, own);
      if |found| == 1 {
        assert found[0] in found;
        CashSearchMeaning(inp, ist, s.used, own, found[0]);
        RecordInherits(inp, s, k, CashResult(inp, ist, found[0]), true);
      }
    }
  }

  lemma StepInherits(inp: Input, phase: Phase, s: State, k: nat)
    requires inp.Valid() && !inp.opts.allowManyToOne && k < |inp.rows|
    ensures Inherits(inp, s, Step(inp, phase, s, inp.rows[k]))
  {
    match phase
    case ByReference => ReferenceStepInherits(inp, s, k);
    case BestScored => ScoredStepInherits(inp, s, k);
    case Exhaustive => ExhaustiveStepInherits(inp, s, k);
    case Cash => CashStepInherits(inp, s, k);
  }

  /** Nothing is given back, and nothing used is given away. */
  ghost function Guards(inp: Input): (State, State) -> bool {
    (s: State, t: State) => Inherits(inp, s, t) && s.used <= t.used
  }

  lemma GuardsTwice(inp: Input, s: State, t: State, u: State)
    requires Guards(inp)(s, t) && Guards(inp)(t, u)
    ensures Guards(inp)(s, u)
  {
    InheritsTransitive(inp, s, t, u);
  }

  lemma StepGuards(inp: Input, phase: Phase, s: State, k: nat)
    requires inp.Valid() && !inp.opts.allowManyToOne && k < |inp.rows|
    ensures Guards(inp)(s, Stepper(inp, phase)(s, inp.rows[k]))
  {
    StepInherits(inp, phase, s, k);
    StepIsLocal(inp, phase, s, k);
  }

  /** Between two points of a pass. */
  lemma FoldGuards(inp: Input, phase: Phase, s: State, j: nat, k: nat)
    requires inp.Valid() && !inp.opts.allowManyToOne && j <= k <= |inp.rows|
    ensures Guards(inp)(Fold(inp.rows, Stepper(inp, phase), s, j), Fold(inp.rows, Stepper(inp, phase), s, k))
  {
    forall t: State, u: State, v: State | Guards(inp)(t, u) && Guards(inp)(u, v)
      ensures Guards(inp)(t, v)
    {
      GuardsTwice(inp, t, u, v);
    }
    forall n: nat, t: State | n < |inp.rows|
      ensures Guards(inp)(t, Stepper(inp, phase)(t, inp.rows[n]))
    {
      StepGuards(inp, phase, t, n);
    }
    FoldRelates(inp.rows, Stepper(inp, phase), Guards(inp), s, j, k);
  }

  lemma SweepInherits(inp: Input, phase: Phase, s: State)
    requires inp.Valid() && !inp.opts.allowManyToOne
    ensures Inherits(inp, s, Sweep(inp, phase, s)) && s.used <= Sweep(inp, phase, s).used
  {
    FoldGuards(inp, phase, s, 0, |inp.rows|);
  }

  lemma GroupStepInherits(inp: Input, s: State, group: seq<Ist>)
    requires inp.Valid() && !inp.opts.allowManyToOne && MayGroup(inp, group) && group[0].epochDay.Some?
    ensures Inherits(inp, s, GroupStep(inp, s, group)) && s.used <= GroupStep(inp, s, group).used
  {
    var t := GroupStep(inp, s, group);
    var choice := GroupChoice(inp, group, GroupSearch(inp, group, s.used));
    if RightSize(group) && choice.Some? {
      GroupChoiceOk(inp, group, s.used, choice.value);
      forall i: nat, b: nat | HasBank(inp, t, i, b) && b in s.used
        ensures HasBank(inp, s, i, b)
      {
        GroupRecorded(inp, s, group, GroupedResult(choice.value), inp.rows[i]);
      }
      GroupRecorded(inp, s, group, GroupedResult(choice.value), group[0]);
    }
  }

  lemma {:induction false} GroupSweepInherits(inp: Input, s: State, k: nat)
    requires inp.Valid() && !inp.opts.allowManyToOne && k <= |GroupKeys(inp, s, |inp.rows|)|
    ensures Inherits(inp, s, GroupSweep(inp, s, k)) && s.used <= GroupSweep(inp, s, k).used
  {
    if k > 0 {
      var key := GroupKeys(inp, s, |inp.rows|)[k - 1];
      GroupSweepInherits(inp, s, k - 1);
      GroupMembers(inp, s, key);
      var t := GroupSweep(inp, s, k - 1);
      GroupStepInherits(inp, t, GroupOf(inp, s, key));
      InheritsTransitive(inp, s, t, GroupStep(inp, t, GroupOf(inp, s, key)));
    }
  }

  /** From the end of the first phase to the rebuild. */
  lemma UntilRebuild(inp: Input)
    requires inp.Valid() && !inp.opts.allowManyToOne
    ensures Inherits(inp, Stage(inp, 1), Stage(inp, 4))
  {
    var s1, s2, s3, s4 := Stage(inp, 1), Stage(inp, 2), Stage(inp, 3), Stage(inp, 4);
    GroupSweepInherits(inp, s1, |GroupKeys(inp, s1, |inp.rows|)|);
    SweepInherits(inp, BestScored, s2);
    SweepInherits(inp, Exhaustive, s3);
    assert Inherits(inp, s3, s4);
    InheritsTransitive(inp, s1, s2, s3);
    InheritsTransitive(inp, s1, s3, s4);
  }

  // ---------------------------------------------------------------- preserved rows and others

  /** The row ends with bank `b`. */
  ghost predicate EndsWith(inp: Input, i: nat, b: nat)
    requires inp.Valid()
  {
    i < |inp.rows| && OwnBank(Current(Final(inp), inp.rows[i])) == Some(b)
  }

  /** The bank that a preserved row takes, whatever the others do. */
  ghost function FixedBank(inp: Input, j: nat): Option<nat>
    requires inp.Valid() && j < |inp.rows|
  {
    OwnBank(Some(PreservedMatch(inp, inp.rows[j])))
  }

  /** A preserved row ends with its fixed bank, so two of them share exactly when their fixed banks are equal. */
  lemma PreservedRowsShare(inp: Input, i: nat, j: nat, b: nat)
    requires inp.Valid() && i < |inp.rows| && j < |inp.rows|
    requires inp.Preserved(inp.rows[i]) && inp.Preserved(inp.rows[j])
    ensures EndsWith(inp, i, b) && EndsWith(inp, j, b) <==> FixedBank(inp, i) == FixedBank(inp, j) == Some(b)
  {
    PreservedIsFixed(inp, i, 6);
    PreservedIsFixed(inp, j, 6);
  }

  lemma PreservedStepTakes(inp: Input, s: State, ist: Ist, b: nat)
    requires inp.Valid() && !inp.opts.allowManyToOne && inp.Preserved(ist)
    requires OwnBank(Some(PreservedMatch(inp, ist))) == Some(b)
    ensures b in Step(inp, ByReference, s, ist).used
  {
  }

  /** A step of row `n` guards used banks and touches its own row only. */
  ghost predicate Careful(inp: Input, n: nat, s: State, t: State)
    requires n < |inp.rows|
  {
    Guards(inp)(s, t) && forall i | 0 <= i < |inp.rows| && i != n :: Current(t, inp.rows[i]) == Current(s, inp.rows[i])
  }

  lemma {:induction false} LaterRowsWait(inp: Input, step: (State, Ist) -> State, s: State, i: nat, k: nat)
    requires k <= i < |inp.rows|
    requires forall n: nat, t: State | n < |inp.rows| :: Careful(inp, n, t, step(t, inp.rows[n]))
    ensures Current(Fold(inp.rows, step, s, k), inp.rows[i]) == Current(s, inp.rows[i])
  {
    if k > 0 {
      LaterRowsWait(inp, step, s, i, k - 1);
      assert Careful(inp, k - 1, Fold(inp.rows, step, s, k - 1), step(Fold(inp.rows, step, s, k - 1), inp.rows[k - 1]));
    }
  }

  /** A bank that row `j` takes whatever the state is used at the end of the pass, and goes to no row after it. */
  lemma TakenOnce(inp: Input, step: (State, Ist) -> State, s: State, i: nat, j: nat, b: nat)
    requires j < |inp.rows| && inp.Preserved(inp.rows[j])
    requires forall i | 0 <= i < |inp.rows| :: Current(s, inp.rows[i]).None?
    requires forall n: nat, t: State | n < |inp.rows| :: Careful(inp, n, t, step(t, inp.rows[n]))
    requires forall t: State :: b in step(t, inp.rows[j]).used
    ensures b in Fold(inp.rows, step, s, |inp.rows|).used
    ensures HasBank(inp, Fold(inp.rows, step, s, |inp.rows|), i, b) ==> i < j
  {
    var u := Fold(inp.rows, step, s, j + 1);
    forall t: State, u: State, v: State | Guards(inp)(t, u) && Guards(inp)(u, v)
      ensures Guards(inp)(t, v)
    {
      GuardsTwice(inp, t, u, v);
    }
    forall n: nat, t: State | n < |inp.rows|
      ensures Guards(inp)(t, step(t, inp.rows[n]))
    {
      assert Careful(inp, n, t, step(t, inp.rows[n]));
    }
    FoldRelates(inp.rows, step, Guards(inp), s, j + 1, |inp.rows|);
    assert b in u.used;
    assert HasBank(inp, Fold(inp.rows, step, s, |inp.rows|), i, b) ==> HasBank(inp, u, i, b);
    if j < i < |inp.rows| {
      LaterRowsWait(inp, step, s, i, j + 1);
    }
  }

  /** A bank with a reference that a preserved row holds is used after the rebuild. */
  lemma PreservedIsCovered(inp: Input, j: nat, b: nat)
    requires inp.Valid() && !inp.opts.allowManyToOne && j < |inp.rows| && inp.Preserved(inp.rows[j])
    requires FixedBank(inp, j) == Some(b) && b < |inp.banks| && inp.Ref(inp.banks[b]) != ""
    ensures b in Stage(inp, 5).used
  {
    PreservedIsFixed(inp, j, 5);
    Cov.NamedIsOwned(inp, 5, j, b);
    RebuiltUse(inp);
    assert Holds(inp, PreservedMatch(inp, inp.rows[j]));
  }

  lemma RebuiltUse(inp: Input)
    requires inp.Valid() && !inp.opts.allowManyToOne
    ensures Stage(inp, 5).used == HeldBanks(inp, Stage(inp, 5).matches)
  {
    assert Stage(inp, 5) == Rebuild(inp, Stage(inp, 4));
  }

  lemma RebuiltMatches(inp: Input)
    requires inp.Valid()
    ensures Stage(inp, 5).matches == Stage(inp, 4).matches
  {
    assert Stage(inp, 5) == Rebuild(inp, Stage(inp, 4));
  }

  lemma HeldHasReference(inp: Input, n: nat, i: nat, b: nat)
    requires inp.Valid() && HasBank(inp, Stage(inp, n), i, b)
    ensures b < |inp.banks| && inp.Ref(inp.banks[b]) != ""
  {
    Cov.NamedIsOwned(inp, n, i, b);
    StageInv(inp, n);
    assert SoundAt(inp, Stage(inp, n), i);
  }

  lemma CashInherits(inp: Input)
    requires inp.Valid() && !inp.opts.allowManyToOne
    ensures Inherits(inp, Stage(inp, 5), Stage(inp, 6))
  {
    var s := Stage(inp, 5);
    SweepInherits(inp, Cash, s);
    assert Stage(inp, 6) == Sweep(inp, Cash, s);
  }

  lemma InheritedBank(inp: Input, s: State, t: State, i: nat, b: nat)
    requires Inherits(inp, s, t) && HasBank(inp, t, i, b) && b in s.used
    ensures HasBank(inp, s, i, b)
  {
  }

  /** After the rebuild too, a bank held by a preserved row reaches no other row. */
  lemma AfterRebuild(inp: Input, i: nat, j: nat, b: nat)
    requires inp.Valid() && !inp.opts.allowManyToOne && HasBank(inp, Final(inp), i, b)
    requires j < |inp.rows| && inp.Preserved(inp.rows[j]) && FixedBank(inp, j) == Some(b)
    ensures HasBank(inp, Stage(inp, 4), i, b)
  {
    HeldHasReference(inp, 6, i, b);
    PreservedIsCovered(inp, j, b);
    CashInherits(inp);
    InheritedBank(inp, Stage(inp, 5), Stage(inp, 6), i, b);
    RebuiltMatches(inp);
  }

  /** In the first phase a bank that a preserved row takes is used, and goes to no row after it. */
  lemma LinkedBefore(inp: Input, i: nat, j: nat, b: nat)
    requires inp.Valid() && !inp.opts.allowManyToOne && j < |inp.rows| && inp.Preserved(inp.rows[j])
    requires FixedBank(inp, j) == Some(b)
    ensures b in Stage(inp, 1).used
    ensures HasBank(inp, Stage(inp, 1), i, b) ==> i < j
  {
    var step := Stepper(inp, ByReference);
    forall n: nat, t: State | n < |inp.rows|
      ensures Careful(inp, n, t, step(t, inp.rows[n]))
    {
      StepGuards(inp, ByReference, t, n);
      StepIsLocal(inp, ByReference, t, n);
    }
    forall t: State
      ensures b in step(t, inp.rows[j]).used
    {
      PreservedStepTakes(inp, t, inp.rows[j], b);
    }
    EmptyIsSound(inp);
    TakenOnce(inp, step, Stage(inp, 0), i, j, b);
  }

  lemma FirstBankIsLinked(inp: Input, i: nat, b: nat)
    requires inp.Valid() && HasBank(inp, Stage(inp, 1), i, b)
    ensures b < |inp.banks| && Cert.Linked(inp, inp.rows[i], inp.banks[b])
  {
    var ist := inp.rows[i];
    Cov.NamedIsOwned(inp, 1, i, b);
    Cert.FirstCases(inp, i);
    Cert.StageCertified(inp, 1);
    assert Cert.CertifiedAt(inp, Stage(inp, 1), ist);
  }

  /** Row `i` was linked to the bank in the first phase, ahead of preserved row `j`, which takes it regardless. */
  ghost predicate Overtaken(inp: Input, i: nat, j: nat, b: nat)
    requires inp.Valid()
  {
    && i < j < |inp.rows| && !inp.Preserved(inp.rows[i]) && inp.Preserved(inp.rows[j])
    && HasBank(inp, Stage(inp, 1), i, b) && FixedBank(inp, j) == Some(b)
    && b < |inp.banks| && Cert.Linked(inp, inp.rows[i], inp.banks[b])
  }

  /** A preserved row and another share a bank only if the other was linked to it first. */
  lemma MixedShareIsOvertaken(inp: Input, i: nat, j: nat, b: nat)
    requires inp.Valid() && !inp.opts.allowManyToOne && EndsWith(inp, i, b) && EndsWith(inp, j, b)
    requires !inp.Preserved(inp.rows[i]) && inp.Preserved(inp.rows[j])
    ensures Overtaken(inp, i, j, b)
  {
    PreservedIsFixed(inp, j, 6);
    AfterRebuild(inp, i, j, b);
    LinkedBefore(inp, i, j, b);
    UntilRebuild(inp);
    FirstBankIsLinked(inp, i, b);
  }

  // ---------------------------------------------------------------- who keeps a first link

  /** The row's group takes a bank at its turn. */
  ghost predicate Regrouped(inp: Input, i: nat)
    requires inp.Valid() && i < |inp.rows|
  {
    exists n: nat :: TakesFor(inp, i, n)
  }

  /** Group `n` is the row's and takes a bank. */
  ghost predicate TakesFor(inp: Input, i: nat, n: nat)
    requires inp.Valid() && i < |inp.rows|
  {
    var s := Stage(inp, 1);
    && n < |GroupKeys(inp, s, |inp.rows|)|
    && inp.rows[i] in Cert.GroupAt(inp, s, n)
    && Cert.GroupTakes(inp, s, n).Some?
  }

  /** The bank a group takes is one of the sheet's, with a reference, and free at the group's turn. */
  lemma TakenBank(inp: Input, s: State, n: nat)
    requires inp.Valid() && n < |GroupKeys(inp, s, |inp.rows|)| && Cert.GroupTakes(inp, s, n).Some?
    ensures var c := Cert.GroupTakes(inp, s, n).value;
      inp.Owns(c) && inp.Ref(c) != "" && Free(inp, GroupSweep(inp, s, n).used, None, c)
  {
    var group := Cert.GroupAt(inp, s, n);
    GroupChoiceOk(inp, group, GroupSweep(inp, s, n).used, Cert.GroupTakes(inp, s, n).value);
  }

  lemma GroupedInPhase(inp: Input, i: nat, n: nat)
    requires inp.Valid() && i < |inp.rows| && TakesFor(inp, i, n)
    ensures Current(Stage(inp, 2), inp.rows[i]) == Some(GroupedResult(Cert.GroupTakes(inp, Stage(inp, 1), n).value))
  {
    Cert.GroupTurn(inp, Stage(inp, 1), n, inp.rows[i]);
    Cert.GroupMatesAgree(inp, Stage(inp, 1), n, inp.rows[i]);
  }

  /** A row whose group takes a bank ends with that bank. */
  lemma GroupedEndsWith(inp: Input, i: nat, n: nat)
    requires inp.Valid() && i < |inp.rows| && TakesFor(inp, i, n)
    ensures Current(Final(inp), inp.rows[i]) == Some(GroupedResult(Cert.GroupTakes(inp, Stage(inp, 1), n).value))
  {
    GroupedInPhase(inp, i, n);
    TakenBank(inp, Stage(inp, 1), n);
    SettledStays(inp, i, Cert.GroupTakes(inp, Stage(inp, 1), n).value);
  }

  /** So it does not end with a bank that was used after the first phase. */
  lemma RegroupedLosesLink(inp: Input, i: nat, n: nat, b: nat)
    requires inp.Valid() && !inp.opts.allowManyToOne && i < |inp.rows| && TakesFor(inp, i, n)
    requires b in Stage(inp, 1).used
    ensures !EndsWith(inp, i, b)
  {
    GroupedEndsWith(inp, i, n);
    TakenBank(inp, Stage(inp, 1), n);
    GroupSweepInherits(inp, Stage(inp, 1), n);
  }

  lemma SettledStays(inp: Input, i: nat, c: Bank)
    requires inp.Valid() && i < |inp.rows| && inp.Ref(c) != ""
    requires Current(Stage(inp, 2), inp.rows[i]) == Some(GroupedResult(c))
    ensures Current(Final(inp), inp.rows[i]) == Some(GroupedResult(c))
  {
    ResultsEvolve(inp, 2, 6);
    assert EvolvesAt(inp, Stage(inp, 2), Final(inp), inp.rows[i]);
  }

  /** A row whose group takes none, or that belongs to none, keeps its first result until it is forced. */
  lemma FirstResultLasts(inp: Input, i: nat)
    requires inp.Valid() && i < |inp.rows| && !Regrouped(inp, i) && Current(Stage(inp, 1), inp.rows[i]).Some?
    ensures Current(Stage(inp, 3), inp.rows[i]) == Current(Stage(inp, 1), inp.rows[i])
  {
    var s, ist := Stage(inp, 1), inp.rows[i];
    var keys := GroupKeys(inp, s, |inp.rows|);
    if Groupable(inp, s, ist) {
      var n := GroupOutcome(inp, s, ist);
      InGroupOf(inp, s, keys[n], ist);
      Cert.GroupTurn(inp, s, n, ist);
      assert !TakesFor(inp, i, n);
    } else {
      GroupSweepIsLocal(inp, s, 0, |keys|, ist);
    }
    Cert.ScoredTurn(inp, i);
  }

  /** The bank ranks before all open banks of the tier. */
  ghost predicate LeadsTier(inp: Input, ist: Ist, used: set<nat>, own: Option<nat>, tier: Bank -> bool, b: Bank) {
    tier(b) && forall c: Bank | inp.Owns(c) && tier(c) && Out.Open(inp, used, own, c) :: RanksBefore(inp.ev, ist, b, c)
  }

  /** The bank leads the first tier that offers one. */
  ghost predicate FirstChoice(inp: Input, ist: Ist, used: set<nat>, own: Option<nat>, b: Bank) {
    if Out.Offers(inp, used, own, Out.ByAccount(inp, ist)) then LeadsTier(inp, ist, used, own, Out.ByAccount(inp, ist), b)
    else if Out.Offers(inp, used, own, Out.ByEvidence(inp, ist)) then
      LeadsTier(inp, ist, used, own, Out.ByEvidence(inp, ist), b)
    else LeadsTier(inp, ist, used, own, Out.ByNearness(inp, ist), b)
  }

  lemma BestLeads(
    inp: Input, ist: Ist, used: set<nat>, own: Option<nat>, tier: Bank -> bool, m: MatchResult, b: Bank)
    requires inp.Valid() && inp.Owns(b) && Out.Open(inp, used, own, b)
    requires Out.FirstOf(inp, ist, used, own, tier, m.matchCase, m)
    ensures m.bank == Some(b) <==> LeadsTier(inp, ist, used, own, tier, b)
  {
    if LeadsTier(inp, ist, used, own, tier, b) {
      assert RanksBefore(inp.ev, ist, b, m.bank.value) && RanksBefore(inp.ev, ist, m.bank.value, b);
    }
  }

  /** A bank the row may have is its result exactly if it is the first choice. */
  lemma ChosenIsFirst(inp: Input, ist: Ist, used: set<nat>, own: Option<nat>, b: Bank)
    requires inp.Valid() && inp.Owns(b) && Out.Open(inp, used, own, b)
    ensures ExhaustiveResult(inp, ist, CompatibleCodes(inp, ist), used, own).bank == Some(b)
      <==> FirstChoice(inp, ist, used, own, b)
  {
    var m := ExhaustiveResult(inp, ist, CompatibleCodes(inp, ist), used, own);
    Out.FallbackIsDecided(inp, ist, used, own);
    if Out.Offers(inp, used, own, Out.ByAccount(inp, ist)) {
      BestLeads(inp, ist, used, own, Out.ByAccount(inp, ist), m, b);
    } else if Out.Offers(inp, used, own, Out.ByEvidence(inp, ist)) {
      BestLeads(inp, ist, used, own, Out.ByEvidence(inp, ist), m, b);
    } else if Out.Offers(inp, used, own, Out.ByNearness(inp, ist)) {
      BestLeads(inp, ist, used, own, Out.ByNearness(inp, ist), m, b);
    } else {
      assert !(inp.Owns(b) && Out.ByNearness(inp, ist)(b) && Out.Open(inp, used, own, b));
    }
  }

  /** At its turn in the exhaustive phase row `i` keeps bank `b`, which it was linked to: the link was a verified one,
      or it is a petty-cash row, or the bank is its first choice. */
  ghost predicate WithstandsForcing(inp: Input, i: nat, b: nat)
    requires inp.Valid() && i < |inp.rows| && b < |inp.banks|
  {
    var ist := inp.rows[i];
    || Settled(inp, Current(Stage(inp, 1), ist))
    || OfRegister(inp.ev, ist)
    || (ist.amount.Some? && ist.direction.Some?
        && FirstChoice(inp, ist, Out.UsedAtForcing(inp, i), Some(b), inp.banks[b]))
  }

  /** What a row that holds a bank gets at its turn. */
  lemma ForcedOutcome(inp: Input, s: State, ist: Ist)
    requires inp.Valid() && !inp.Preserved(ist)
    requires Current(s, ist).Some? && Current(s, ist).value.status != Unmatched
    ensures Current(Step(inp, Exhaustive, s, ist), ist) ==
      if Settled(inp, Current(s, ist)) || IsPettyCashRow(inp.ev, ist) then Current(s, ist)
      else if ist.amount.None? || ist.direction.None? then Some(NOTHING)
      else Some(ExhaustiveResult(inp, ist, CompatibleCodes(inp, ist), s.used, OwnBank(Current(s, ist))))
  {
  }

  lemma ForcedStep(inp: Input, s: State, ist: Ist, b: Bank)
    requires inp.Valid() && inp.Owns(b) && !inp.Preserved(ist)
    requires Current(s, ist).Some? && Current(s, ist).value.bank == Some(b) && Current(s, ist).value.status != Unmatched
    ensures OwnBank(Current(Step(inp, Exhaustive, s, ist), ist)) == Some(b.index) <==>
      || Settled(inp, Current(s, ist))
      || IsPettyCashRow(inp.ev, ist)
      || (ist.amount.Some? && ist.direction.Some? && FirstChoice(inp, ist, s.used, Some(b.index), b))
  {
    ForcedOutcome(inp, s, ist);
    ChosenIndex(inp, ist, s.used, Some(b.index), b);
  }

  lemma ChosenIndex(inp: Input, ist: Ist, used: set<nat>, own: Option<nat>, b: Bank)
    requires inp.Valid() && inp.Owns(b) && Free(inp, used, own, b)
    ensures OwnBank(Some(ExhaustiveResult(inp, ist, CompatibleCodes(inp, ist), used, own))) == Some(b.index)
      <==> FirstChoice(inp, ist, used, own, b)
  {
    ChosenIsFirst(inp, ist, used, own, b);
    ExhaustiveIsTierOptimal(inp, ist, CompatibleCodes(inp, ist), used, own);
  }

  lemma ForcedSweep(inp: Input, s: State, i: nat, b: Bank)
    requires inp.Valid() && i < |inp.rows| && inp.Owns(b) && HasBank(inp, s, i, b.index)
    requires Current(s, inp.rows[i]).value.bank == Some(b) && Current(s, inp.rows[i]).value.status != Unmatched
    ensures var ist := inp.rows[i];
      HasBank(inp, Sweep(inp, Exhaustive, s), i, b.index) <==>
        || Settled(inp, Current(s, ist))
        || IsPettyCashRow(inp.ev, ist)
        || (ist.amount.Some? && ist.direction.Some?
            && FirstChoice(inp, ist, Fold(inp.rows, Stepper(inp, Exhaustive), s, i).used, Some(b.index), b))
  {
    AfterItsTurn(inp, Exhaustive, s, i);
    BeforeItsTurn(inp, Exhaustive, s, i);
    ForcedStep(inp, Fold(inp.rows, Stepper(inp, Exhaustive), s, i), inp.rows[i], b);
  }

  lemma ForcedStage(inp: Input)
    requires inp.Valid() && inp.opts.forceAll
    ensures Stage(inp, 4) == Sweep(inp, Exhaustive, Stage(inp, 3))
  {
  }

  lemma HeldBank(inp: Input, i: nat, b: nat)
    requires inp.Valid() && HasBank(inp, Stage(inp, 3), i, b)
    ensures b < |inp.banks| && Current(Stage(inp, 3), inp.rows[i]).value.bank == Some(inp.banks[b])
    ensures Current(Stage(inp, 3), inp.rows[i]).value.status != Unmatched
  {
    Cov.NamedIsOwned(inp, 3, i, b);
  }

  lemma ForcedTurn(inp: Input, i: nat, b: nat)
    requires inp.Valid() && inp.opts.forceAll && HasBank(inp, Stage(inp, 3), i, b)
    requires Current(Stage(inp, 3), inp.rows[i]) == Current(Stage(inp, 1), inp.rows[i])
    ensures b < |inp.banks|
    ensures HasBank(inp, Stage(inp, 4), i, b) <==> WithstandsForcing(inp, i, b)
  {
    HeldBank(inp, i, b);
    ForcedStage(inp);
    ForcedSweep(inp, Stage(inp, 3), i, inp.banks[b]);
  }

  /** The row keeps its first link to bank `b`: its group takes no other bank, and if every row is forced, it
      withstands. */
  ghost predicate KeepsLink(inp: Input, i: nat, b: nat)
    requires inp.Valid() && i < |inp.rows| && b < |inp.banks|
  {
    !Regrouped(inp, i) && (inp.opts.forceAll ==> WithstandsForcing(inp, i, b))
  }

  lemma LinkUntilRebuild(inp: Input, i: nat, b: nat)
    requires inp.Valid() && HasBank(inp, Stage(inp, 1), i, b) && !Regrouped(inp, i)
    ensures b < |inp.banks|
    ensures HasBank(inp, Stage(inp, 4), i, b) <==> (inp.opts.forceAll ==> WithstandsForcing(inp, i, b))
  {
    Cov.NamedIsOwned(inp, 1, i, b);
    FirstResultLasts(inp, i);
    if inp.opts.forceAll {
      ForcedTurn(inp, i, b);
    }
  }

  lemma LinkToTheEnd(inp: Input, i: nat, b: nat)
    requires inp.Valid() && HasBank(inp, Stage(inp, 4), i, b)
    ensures EndsWith(inp, i, b)
  {
    RebuiltMatches(inp);
    HeldHasReference(inp, 5, i, b);
    Cov.CashLetsNothingGo(inp, i, b);
    assert !Cov.LetsGo(inp, 6, i, b);
  }

  /** An open row and a preserved one end with the same bank exactly if the open one was linked to it first and keeps
      its link. */
  lemma MixedRowsShare(inp: Input, i: nat, j: nat, b: nat)
    requires inp.Valid() && !inp.opts.allowManyToOne && i < |inp.rows| && j < |inp.rows|
    requires !inp.Preserved(inp.rows[i]) && inp.Preserved(inp.rows[j])
    ensures EndsWith(inp, i, b) && EndsWith(inp, j, b) <==> Overtaken(inp, i, j, b) && KeepsLink(inp, i, b)
  {
    PreservedIsFixed(inp, j, 6);
    if EndsWith(inp, i, b) && EndsWith(inp, j, b) {
      MixedShareIsOvertaken(inp, i, j, b);
      StageInv(inp, 1);
      if n: nat :| TakesFor(inp, i, n) {
        RegroupedLosesLink(inp, i, n, b);
      }
      AfterRebuild(inp, i, j, b);
      LinkUntilRebuild(inp, i, b);
    }
    if Overtaken(inp, i, j, b) && KeepsLink(inp, i, b) {
      LinkUntilRebuild(inp, i, b);
      LinkToTheEnd(inp, i, b);
    }
  }

  lemma VerifiedIsKept(inp: Input, i: nat, b: nat)
    requires inp.Valid() && HasBank(inp, Stage(inp, 1), i, b)
    requires Current(Stage(inp, 1), inp.rows[i]).value.status == Matched
    ensures b < |inp.banks| && KeepsLink(inp, i, b)
  {
    HeldHasReference(inp, 1, i, b);
    Cov.NamedIsOwned(inp, 1, i, b);
    if n: nat :| TakesFor(inp, i, n) {
      Cert.GroupTurn(inp, Stage(inp, 1), n, inp.rows[i]);
    }
  }

  /** In particular they share if that first link was a verified one. */
  lemma VerifiedOvertakenShare(inp: Input, i: nat, j: nat, b: nat)
    requires inp.Valid() && !inp.opts.allowManyToOne && i < |inp.rows| && j < |inp.rows|
    requires !inp.Preserved(inp.rows[i]) && inp.Preserved(inp.rows[j])
    requires var m := Current(Stage(inp, 1), inp.rows[i]); m.Some? && m.value.status == Matched
    ensures EndsWith(inp, i, b) && EndsWith(inp, j, b) <==> Overtaken(inp, i, j, b)
  {
    MixedRowsShare(inp, i, j, b);
    if Overtaken(inp, i, j, b) {
      VerifiedIsKept(inp, i, b);
    }
  }

  // ---------------------------------------------------------------- all pairs

  /** Group `n` has both rows and takes bank `b` at its turn. */
  ghost predicate Together(inp: Input, i: nat, j: nat, b: nat, n: nat)
    requires inp.Valid() && i < |inp.rows| && j < |inp.rows|
  {
    && TakesFor(inp, i, n) && TakesFor(inp, j, n)
    && Cov.Takes(inp, Stage(inp, 1), n, b)
  }

  lemma UnrivalledIsTaken(inp: Input, n: nat, b: Bank)
    requires inp.Valid() && Cert.Unrivalled(inp, n, b) && RightSize(Cert.GroupAt(inp, Stage(inp, 1), n))
    ensures Cert.GroupTakes(inp, Stage(inp, 1), n).Some?
  {
    var s := Stage(inp, 1);
    GroupChoiceMeaning(inp, Cert.GroupAt(inp, s, n), GroupSweep(inp, s, n).used);
  }

  /** A settlement at the end has its group, which took a bank. */
  lemma GroupedIsRegrouped(inp: Input, s: State, i: nat, m: MatchResult)
    requires inp.Valid() && i < |inp.rows| && Cert.GroupCertificate(inp, s, inp.rows[i], m)
    ensures Regrouped(inp, i)
  {
    var open := Stage(inp, 1);
    var n: nat :| Cert.Unrivalled(inp, n, m.bank.value)
      && Cert.GroupAt(inp, open, n) == GroupOf(inp, open, KeyOf(inp.ev, inp.rows[i]));
    UnrivalledIsTaken(inp, n, m.bank.value);
    assert TakesFor(inp, i, n);
  }

  lemma GroupedWasTaken(inp: Input, i: nat, b: nat) returns (n: nat)
    requires inp.Valid() && i < |inp.rows| && EndsWith(inp, i, b)
    requires Current(Final(inp), inp.rows[i]).value.matchCase == GroupedSettlementMatch
    ensures TakesFor(inp, i, n) && Cov.Takes(inp, Stage(inp, 1), n, b)
  {
    Cert.EveryResultIsCertified(inp, i);
    GroupedIsRegrouped(inp, Final(inp), i, Current(Final(inp), inp.rows[i]).value);
    n :| TakesFor(inp, i, n);
    GroupedEndsWith(inp, i, n);
  }

  /** No two groups take the same bank. */
  lemma TakenOnceByGroups(inp: Input, s: State, n: nat, m: nat, b: nat)
    requires inp.Valid() && !inp.opts.allowManyToOne && n < m < |GroupKeys(inp, s, |inp.rows|)|
    requires Cov.Takes(inp, s, n, b)
    ensures !Cov.Takes(inp, s, m, b)
  {
    Cov.GroupSweepUses(inp, s, m, b);
    if Cov.Takes(inp, s, m, b) {
      GroupChoiceOk(inp, Cert.GroupAt(inp, s, m), GroupSweep(inp, s, m).used, Cert.GroupTakes(inp, s, m).value);
    }
  }

  /** Two rows that end settled with the same bank were in the group that took it. */
  lemma SettledTogether(inp: Input, i: nat, j: nat, b: nat) returns (n: nat)
    requires inp.Valid() && !inp.opts.allowManyToOne && i < |inp.rows| && j < |inp.rows|
    requires EndsWith(inp, i, b) && EndsWith(inp, j, b)
    requires Current(Final(inp), inp.rows[i]).value.matchCase == GroupedSettlementMatch
    requires Current(Final(inp), inp.rows[j]).value.matchCase == GroupedSettlementMatch
    ensures Together(inp, i, j, b, n)
  {
    n := GroupedWasTaken(inp, i, b);
    var m := GroupedWasTaken(inp, j, b);
    if n < m {
      TakenOnceByGroups(inp, Stage(inp, 1), n, m, b);
    } else if m < n {
      TakenOnceByGroups(inp, Stage(inp, 1), m, n, b);
    }
  }

  lemma TogetherShare(inp: Input, i: nat, j: nat, b: nat, n: nat)
    requires inp.Valid() && i < |inp.rows| && j < |inp.rows| && Together(inp, i, j, b, n)
    ensures EndsWith(inp, i, b) && EndsWith(inp, j, b)
  {
    GroupedEndsWith(inp, i, n);
    GroupedEndsWith(inp, j, n);
  }

  /** Two open rows end with the same bank exactly if one group has them both and takes it. */
  lemma OpenRowsShare(inp: Input, i: nat, j: nat, b: nat)
    requires inp.Valid() && !inp.opts.allowManyToOne && i < |inp.rows| && j < |inp.rows| && i != j
    requires !inp.Preserved(inp.rows[i]) && !inp.Preserved(inp.rows[j])
    ensures EndsWith(inp, i, b) && EndsWith(inp, j, b) <==> exists n: nat :: Together(inp, i, j, b, n)
  {
    if EndsWith(inp, i, b) && EndsWith(inp, j, b) {
      OneToOne(inp, i, j, b);
      var n := SettledTogether(inp, i, j, b);
    }
    if n: nat :| Together(inp, i, j, b, n) {
      TogetherShare(inp, i, j, b, n);
    }
  }

  /** The three ways to share a bank. */
  ghost predicate MayShare(inp: Input, i: nat, j: nat, b: nat)
    requires inp.Valid() && i < |inp.rows| && j < |inp.rows|
  {
    || (exists n: nat :: Together(inp, i, j, b, n))
    || (inp.Preserved(inp.rows[i]) && inp.Preserved(inp.rows[j]) && FixedBank(inp, i) == FixedBank(inp, j) == Some(b))
    || (Overtaken(inp, i, j, b) && KeepsLink(inp, i, b))
    || (Overtaken(inp, j, i, b) && KeepsLink(inp, j, b))
  }

  lemma TogetherIsOpen(inp: Input, i: nat, j: nat, b: nat, n: nat)
    requires inp.Valid() && i < |inp.rows| && j < |inp.rows| && Together(inp, i, j, b, n)
    ensures !inp.Preserved(inp.rows[i]) && !inp.Preserved(inp.rows[j])
  {
    Cert.GroupTurn(inp, Stage(inp, 1), n, inp.rows[i]);
    Cert.GroupTurn(inp, Stage(inp, 1), n, inp.rows[j]);
  }

  /** All pairs of rows: without many-to-one, two rows end with the same bank exactly if one settlement group has them
      both and takes it, or both are preserved with it, or one was linked to it ahead of a preserved one that takes it
      regardless, and keeps the link. */
  lemma SharedBank(inp: Input, i: nat, j: nat, b: nat)
    requires inp.Valid() && !inp.opts.allowManyToOne && i < |inp.rows| && j < |inp.rows| && i != j
    ensures EndsWith(inp, i, b) && EndsWith(inp, j, b) <==> MayShare(inp, i, j, b)
  {
    if n: nat :| Together(inp, i, j, b, n) {
      TogetherIsOpen(inp, i, j, b, n);
    }
    var p, q := inp.Preserved(inp.rows[i]), inp.Preserved(inp.rows[j]);
    if p && q {
      PreservedRowsShare(inp, i, j, b);
    } else if q {
      MixedRowsShare(inp, i, j, b);
    } else if p {
      MixedRowsShare(inp, j, i, b);
    } else {
      OpenRowsShare(inp, i, j, b);
    }
  }
}
