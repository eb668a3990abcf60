/** What holds over a whole run of the six phases. */
module Guarantees {
  import opened Basics
  import opened Ledger
  import opened Scoring
  import opened Window
  import opened Phases
  import opened Invariants
  import RM = ReferenceMatching

  // ---------------------------------------------------------------- how results may change

  /** Results never disappear, and preserved rows and settled rows keep theirs. */
  ghost predicate Evolves(inp: Input, s: State, t: State) {
    forall i | 0 <= i < |inp.rows| && Current(s, inp.rows[i]).Some? :: EvolvesAt(inp, s, t, inp.rows[i])
  }

  ghost predicate EvolvesAt(inp: Input, s: State, t: State, ist: Ist) {
    && Current(t, ist).Some?
    && (inp.Preserved(ist) || HoldsVerified(inp, s, ist) ==> Current(t, ist) == Current(s, ist))
  }

  /** The row is matched, not merely under review, and its bank has a reference. */
  predicate HoldsVerified(inp: Input, s: State, ist: Ist) {
    && ist.row in s.matches && s.matches[ist.row].status == Matched
    && s.matches[ist.row].bank.Some? && inp.Ref(s.matches[ist.row].bank.value) != ""
  }

  lemma EvolvesTransitive(inp: Input, s: State, t: State, u: State)
    requires Evolves(inp, s, t) && Evolves(inp, t, u)
    ensures Evolves(inp, s, u)
  {
    forall i | 0 <= i < |inp.rows| && Current(s, inp.rows[i]).Some?
      ensures EvolvesAt(inp, s, u, inp.rows[i])
    {
      assert EvolvesAt(inp, s, t, inp.rows[i]) && EvolvesAt(inp, t, u, inp.rows[i]);
    }
  }

  /** `t` differs from `s` in the results of the first `k` rows only, has taken no bank away, and evolves. */
  ghost predicate Reaches(inp: Input, s: State, k: nat, t: State) {
    && (forall i | k <= i < |inp.rows| :: Current(t, inp.rows[i]) == Current(s, inp.rows[i]))
    && s.used <= t.used
    && Evolves(inp, s, t)
  }

  /** A step touches its own row only, takes no bank away, and respects preserved and settled rows. */
  lemma StepIsLocal(inp: Input, phase: Phase, s: State, k: nat)
    requires inp.Valid() && k < |inp.rows|
    ensures var t := Step(inp, phase, s, inp.rows[k]);
      && (forall i | 0 <= i < |inp.rows| && i != k :: Current(t, inp.rows[i]) == Current(s, inp.rows[i]))
      && s.used <= t.used
      && (phase != ByReference || Current(s, inp.rows[k]).None? ==> Evolves(inp, s, t))
  {
    forall i | 0 <= i < |inp.rows| && i != k
      ensures inp.rows[i].row != inp.rows[k].row
    {
      assert i < k || k < i;
    }
    var t := Step(inp, phase, s, inp.rows[k]);
    forall i | 0 <= i < |inp.rows|
      ensures i != k ==> Current(t, inp.rows[i]) == Current(s, inp.rows[i])
      ensures phase != ByReference && Current(s, inp.rows[i]).Some? ==> EvolvesAt(inp, s, t, inp.rows[i])
    {
    }
  }

  /** What a step of row `k` may do; it evolves the results in the first phase provided the row had none. */
  ghost predicate Touches(inp: Input, first: bool, k: nat, s: State, t: State)
    requires k < |inp.rows|
  {
    && (forall i | 0 <= i < |inp.rows| && i != k :: Current(t, inp.rows[i]) == Current(s, inp.rows[i]))
    && s.used <= t.used
    && (!first || Current(s, inp.rows[k]).None? ==> Evolves(inp, s, t))
  }

  lemma {:induction false} PassIsLocal(
    inp: Input, first: bool, step: (State, Ist) -> State, s: State, j: nat, k: nat)
    requires j <= k <= |inp.rows|
    requires first ==> forall i | 0 <= i < |inp.rows| :: Current(s, inp.rows[i]).None?
    requires forall n: nat, t: State | n < |inp.rows| :: Touches(inp, first, n, t, step(t, inp.rows[n]))
    ensures Reaches(inp, s, k, Fold(inp.rows, step, s, k))
    ensures forall i | 0 <= i < j ::
      Current(Fold(inp.rows, step, s, k), inp.rows[i]) == Current(Fold(inp.rows, step, s, j), inp.rows[i])
    ensures Fold(inp.rows, step, s, j).used <= Fold(inp.rows, step, s, k).used
  {
    if k > 0 {
      PassIsLocal(inp, first, step, s, if j < k then j else k - 1, k - 1);
      var t := Fold(inp.rows, step, s, k - 1);
      var u := step(t, inp.rows[k - 1]);
      assert Touches(inp, first, k - 1, t, u);
      EvolvesTransitive(inp, s, t, u);
    }
  }

  lemma FoldIsLocal(inp: Input, phase: Phase, s: State, j: nat, k: nat)
    requires inp.Valid() && j <= k <= |inp.rows|
    requires phase == ByReference ==> forall i | 0 <= i < |inp.rows| :: Current(s, inp.rows[i]).None?
    ensures Reaches(inp, s, k, Fold(inp.rows, Stepper(inp, phase), s, k))
    ensures forall i | 0 <= i < j ::
      Current(Fold(inp.rows, Stepper(inp, phase), s, k), inp.rows[i])
      == Current(Fold(inp.rows, Stepper(inp, phase), s, j), inp.rows[i])
    ensures Fold(inp.rows, Stepper(inp, phase), s, j).used <= Fold(inp.rows, Stepper(inp, phase), s, k).used
  {
    forall n: nat, t: State | n < |inp.rows|
      ensures Touches(inp, phase == ByReference, n, t, Stepper(inp, phase)(t, inp.rows[n]))
    {
      StepIsLocal(inp, phase, t, n);
    }
    PassIsLocal(inp, phase == ByReference, Stepper(inp, phase), s, j, k);
  }

  // ---------------------------------------------------------------- the groups

  lemma {:induction false} KeysDiffer(inp: Input, s: State, n: nat)
    requires n <= |inp.rows|
    ensures Distinct(GroupKeys(inp, s, n))
  {
    if n > 0 {
      KeysDiffer(inp, s, n - 1);
    }
  }

  /** Recording a group changes the group's rows only. */
  lemma GroupStepIsLocal(inp: Input, s: State, group: seq<Ist>, ist: Ist)
    requires inp.Valid() && MayGroup(inp, group) && group[0].epochDay.Some? && ist in inp.rows
    ensures ist !in group ==> Current(GroupStep(inp, s, group), ist) == Current(s, ist)
    ensures Current(s, ist).Some? ==> Current(GroupStep(inp, s, group), ist).Some?
    ensures s.used <= GroupStep(inp, s, group).used
  {
    var choice := GroupChoice(inp, group, GroupSearch(inp, group, s.used));
    if RightSize(group) && choice.Some? {
      GroupRecorded(inp, s, group, GroupedResult(choice.value), ist);
    }
  }

  lemma InGroupOf(inp: Input, s: State, key: GroupKey, ist: Ist)
    requires ist in inp.rows
    ensures ist in GroupOf(inp, s, key) <==> InGroup(inp, s, key, ist)
  {
    InFilter(inp.rows, HasKey(inp, s, key));
  }

  /** Between the groups numbered `j` and `k`, a row outside all of them keeps its result. */
  lemma {:induction false} GroupSweepIsLocal(inp: Input, s: State, j: nat, k: nat, ist: Ist)
    requires inp.Valid() && j <= k <= |GroupKeys(inp, s, |inp.rows|)| && ist in inp.rows
    requires forall i | j <= i < k :: !InGroup(inp, s, GroupKeys(inp, s, |inp.rows|)[i], ist)
    ensures Current(GroupSweep(inp, s, k), ist) == Current(GroupSweep(inp, s, j), ist)
  {
    if j < k {
      GroupSweepIsLocal(inp, s, j, k - 1, ist);
      var key := GroupKeys(inp, s, |inp.rows|)[k - 1];
      GroupMembers(inp, s, key);
      InGroupOf(inp, s, key, ist);
      GroupStepIsLocal(inp, GroupSweep(inp, s, k - 1), GroupOf(inp, s, key), ist);
    }
  }

  lemma {:induction false} GroupSweepGrows(inp: Input, s: State, k: nat, ist: Ist)
    requires inp.Valid() && k <= |GroupKeys(inp, s, |inp.rows|)| && ist in inp.rows
    ensures s.used <= GroupSweep(inp, s, k).used
    ensures Current(s, ist).Some? ==> Current(GroupSweep(inp, s, k), ist).Some?
  {
    if k > 0 {
      GroupSweepGrows(inp, s, k - 1, ist);
      var key := GroupKeys(inp, s, |inp.rows|)[k - 1];
      GroupMembers(inp, s, key);
      GroupStepIsLocal(inp, GroupSweep(inp, s, k - 1), GroupOf(inp, s, key), ist);
    }
  }

  lemma GroupSweepEvolves(inp: Input, s: State, k: nat)
    requires inp.Valid() && k <= |GroupKeys(inp, s, |inp.rows|)|
    ensures Evolves(inp, s, GroupSweep(inp, s, k))
  {
    forall i | 0 <= i < |inp.rows| && Current(s, inp.rows[i]).Some?
      ensures EvolvesAt(inp, s, GroupSweep(inp, s, k), inp.rows[i])
    {
      var ist := inp.rows[i];
      assert ist in inp.rows;
      GroupSweepGrows(inp, s, k, ist);
      if inp.Preserved(ist) || Settled(inp, Current(s, ist)) {
        assert !Groupable(inp, s, ist);
        GroupSweepIsLocal(inp, s, 0, k, ist);
      }
    }
  }

  lemma GroupNumber(inp: Input, s: State, ist: Ist) returns (j: nat)
    requires ist in inp.rows && Groupable(inp, s, ist)
    ensures var keys := GroupKeys(inp, s, |inp.rows|);
      && j < |keys| && keys[j] == KeyOf(inp.ev, ist)
      && forall x | 0 <= x < |keys| && x != j :: !InGroup(inp, s, keys[x], ist)
  {
    var keys := GroupKeys(inp, s, |inp.rows|);
    var key := KeyOf(inp.ev, ist);
    var i :| 0 <= i < |inp.rows| && inp.rows[i] == ist;
    assert InGroup(inp, s, key, inp.rows[i]);
    KeyHasGroup(inp, s, |inp.rows|, key);
    j :| 0 <= j < |keys| && keys[j] == key;
    KeysDiffer(inp, s, |inp.rows|);
    forall x | 0 <= x < |keys| && x != j
      ensures !InGroup(inp, s, keys[x], ist)
    {
      assert x < j || j < x;
      assert keys[x] != keys[j];
    }
  }

  /** What a groupable row ends the phase with: its own group's outcome, decided at the group's turn. */
  lemma GroupOutcome(inp: Input, s: State, ist: Ist) returns (j: nat)
    requires inp.Valid() && ist in inp.rows && Groupable(inp, s, ist)
    ensures j < |GroupKeys(inp, s, |inp.rows|)|
    ensures GroupKeys(inp, s, |inp.rows|)[j] == KeyOf(inp.ev, ist)
    ensures var n := |GroupKeys(inp, s, |inp.rows|)|;
      && Current(GroupSweep(inp, s, j), ist) == Current(s, ist)
      && Current(GroupSweep(inp, s, n), ist) == Current(GroupSweep(inp, s, j + 1), ist)
  {
    var keys := GroupKeys(inp, s, |inp.rows|);
    j := GroupNumber(inp, s, ist);
    GroupSweepIsLocal(inp, s, 0, j, ist);
    GroupSweepIsLocal(inp, s, j + 1, |keys|, ist);
  }

  // ---------------------------------------------------------------- invariants over the run

  lemma EmptyIsSound(inp: Input)
    requires inp.Valid()
    ensures Inv(inp, Stage(inp, 0))
    ensures forall i | 0 <= i < |inp.rows| :: Current(Stage(inp, 0), inp.rows[i]).None?
  {
    forall i | 0 <= i < |inp.rows|
      ensures SoundAt(inp, Stage(inp, 0), i)
    {
    }
  }

  /** What a row-by-row phase needs of the state it starts from. */
  ghost predicate ReadyFor(inp: Input, phase: Phase, s: State)
    requires inp.Valid()
  {
    && Inv(inp, s)
    && forall i | 0 <= i < |inp.rows| :: ReadyAt(inp, phase, s, inp.rows[i])
  }

  ghost predicate ReadyAt(inp: Input, phase: Phase, s: State, ist: Ist) {
    && (phase == ByReference ==> Current(s, ist).None?)
    && (phase == BestScored && inp.Preserved(ist) ==> Current(s, ist).Some?)
  }

  lemma StepKeepsInv(inp: Input, phase: Phase, s: State, k: nat)
    requires inp.Valid() && Inv(inp, s) && k < |inp.rows|
    requires ReadyAt(inp, phase, s, inp.rows[k])
    ensures Inv(inp, Step(inp, phase, s, inp.rows[k]))
  {
    match phase
    case ByReference => ReferenceStepKeepsInv(inp, s, k);
    case BestScored => ScoredStepKeepsInv(inp, s, k);
    case Exhaustive => ExhaustiveStepKeepsInv(inp, s, k);
    case Cash => CashStepKeepsInv(inp, s, k);
  }

  lemma BeforeItsTurn(inp: Input, phase: Phase, s: State, k: nat)
    requires inp.Valid() && k < |inp.rows|
    requires phase == ByReference ==> forall i | 0 <= i < |inp.rows| :: Current(s, inp.rows[i]).None?
    ensures Current(Fold(inp.rows, Stepper(inp, phase), s, k), inp.rows[k]) == Current(s, inp.rows[k])
  {
    FoldIsLocal(inp, phase, s, 0, k);
  }

  lemma AfterTurn(inp: Input, first: bool, step: (State, Ist) -> State, s: State, k: nat)
    requires k < |inp.rows|
    requires first ==> forall i | 0 <= i < |inp.rows| :: Current(s, inp.rows[i]).None?
    requires forall n: nat, t: State | n < |inp.rows| :: Touches(inp, first, n, t, step(t, inp.rows[n]))
    ensures Current(Fold(inp.rows, step, s, |inp.rows|), inp.rows[k])
         == Current(step(Fold(inp.rows, step, s, k), inp.rows[k]), inp.rows[k])
  {
    PassIsLocal(inp, first, step, s, k + 1, |inp.rows|);
  }

  /** What a row ends a row-by-row phase with is what its own step gave it. */
  lemma AfterItsTurn(inp: Input, phase: Phase, s: State, k: nat)
    requires inp.Valid() && k < |inp.rows|
    requires phase == ByReference ==> forall i | 0 <= i < |inp.rows| :: Current(s, inp.rows[i]).None?
    ensures Current(Sweep(inp, phase, s), inp.rows[k])
         == Current(Step(inp, phase, Fold(inp.rows, Stepper(inp, phase), s, k), inp.rows[k]), inp.rows[k])
  {
    forall n: nat, t: State | n < |inp.rows|
      ensures Touches(inp, phase == ByReference, n, t, Stepper(inp, phase)(t, inp.rows[n]))
    {
      StepIsLocal(inp, phase, t, n);
    }
    AfterTurn(inp, phase == ByReference, Stepper(inp, phase), s, k);
  }

  /** What is handed from step to step: the invariant, and rows from `j` on as the phase found them. */
  ghost function Handed(inp: Input, s: State): (nat, State) -> bool
    requires inp.Valid()
  {
    (j: nat, t: State) =>
      Inv(inp, t) && forall i | j <= i < |inp.rows| :: Current(t, inp.rows[i]) == Current(s, inp.rows[i])
  }

  lemma StepHandsOn(inp: Input, phase: Phase, s: State, j: nat, t: State)
    requires inp.Valid() && j < |inp.rows| && ReadyFor(inp, phase, s) && Handed(inp, s)(j, t)
    ensures Handed(inp, s)(j + 1, Stepper(inp, phase)(t, inp.rows[j]))
  {
    assert ReadyAt(inp, phase, s, inp.rows[j]);
    StepKeepsInv(inp, phase, t, j);
    StepIsLocal(inp, phase, t, j);
  }

  lemma SweepKeepsInv(inp: Input, phase: Phase, s: State)
    requires inp.Valid() && ReadyFor(inp, phase, s)
    ensures Inv(inp, Sweep(inp, phase, s))
  {
    forall j: nat, t: State | j < |inp.rows| && Handed(inp, s)(j, t)
      ensures Handed(inp, s)(j + 1, Stepper(inp, phase)(t, inp.rows[j]))
    {
      StepHandsOn(inp, phase, s, j, t);
    }
    FoldInvariant(inp.rows, Stepper(inp, phase), Handed(inp, s), s, |inp.rows|);
  }

  /** One phase further, results only evolve. */
  lemma NextEvolves(inp: Input, n: nat, s: State)
    requires inp.Valid()
    requires n == 1 ==> forall i | 0 <= i < |inp.rows| :: Current(s, inp.rows[i]).None?
    ensures Evolves(inp, s, Next(inp, n, s))
  {
    if n == 1 {
      FoldIsLocal(inp, ByReference, s, 0, |inp.rows|);
    } else if n == 2 {
      GroupSweepEvolves(inp, s, |GroupKeys(inp, s, |inp.rows|)|);
    } else if n == 3 {
      FoldIsLocal(inp, BestScored, s, 0, |inp.rows|);
    } else if n == 4 {
      FoldIsLocal(inp, Exhaustive, s, 0, |inp.rows|);
    } else if n == 6 {
      FoldIsLocal(inp, Cash, s, 0, |inp.rows|);
    }
  }

  lemma StageEvolves(inp: Input, n: nat)
    requires inp.Valid() && n > 0
    ensures Evolves(inp, Stage(inp, n - 1), Stage(inp, n))
  {
    EmptyIsSound(inp);
    NextEvolves(inp, n, Stage(inp, n - 1));
  }

  lemma {:induction false} EvolvesAlong(inp: Input, stages: nat -> State, n: nat, m: nat)
    requires n <= m
    requires forall k: nat | n < k <= m :: Evolves(inp, stages(k - 1), stages(k))
    ensures Evolves(inp, stages(n), stages(m))
  {
    if n < m {
      EvolvesAlong(inp, stages, n, m - 1);
      EvolvesTransitive(inp, stages(n), stages(m - 1), stages(m));
    }
  }

  /** Across any stretch of phases, preserved rows and rows matched to a bank with a reference keep their
      result; only results under review or unmatched are ever replaced. */
  lemma ResultsEvolve(inp: Input, n: nat, m: nat)
    requires inp.Valid() && n <= m
    ensures Evolves(inp, Stage(inp, n), Stage(inp, m))
  {
    var stages := (k: nat) => Stage(inp, k);
    forall k: nat | n < k <= m
      ensures Evolves(inp, stages(k - 1), stages(k))
    {
      StageEvolves(inp, k);
    }
    EvolvesAlong(inp, stages, n, m);
  }

  lemma NextKeepsInv(inp: Input, n: nat, s: State)
    requires inp.Valid() && Inv(inp, s)
    requires n == 1 ==> forall i | 0 <= i < |inp.rows| :: Current(s, inp.rows[i]).None?
    requires n == 3 ==>
      forall i | 0 <= i < |inp.rows| && inp.Preserved(inp.rows[i]) :: Current(s, inp.rows[i]).Some?
    ensures Inv(inp, Next(inp, n, s))
  {
    if n == 1 {
      SweepKeepsInv(inp, ByReference, s);
    } else if n == 2 {
      GroupSweepKeepsInv(inp, s, |GroupKeys(inp, s, |inp.rows|)|);
    } else if n == 3 {
      SweepKeepsInv(inp, BestScored, s);
    } else if n == 4 {
      SweepKeepsInv(inp, Exhaustive, s);
    } else if n == 5 {
      RebuildKeepsInv(inp, s);
    } else if n == 6 {
      SweepKeepsInv(inp, Cash, s);
    }
  }

  /** The invariant holds between all phases. */
  lemma {:induction false} StageInv(inp: Input, n: nat)
    requires inp.Valid()
    ensures Inv(inp, Stage(inp, n))
  {
    EmptyIsSound(inp);
    if n > 0 {
      StageInv(inp, n - 1);
      if n == 3 {
        PreservedHaveResults(inp, 2);
      }
      NextKeepsInv(inp, n, Stage(inp, n - 1));
    }
  }

  lemma ReferenceStepPreserves(inp: Input, s: State, ist: Ist)
    requires inp.Valid() && inp.Preserved(ist)
    ensures Current(Step(inp, ByReference, s, ist), ist) == Some(PreservedMatch(inp, ist))
  {
  }

  /** After its turn in the first phase a preserved row has its fixed result. */
  lemma PreservedAreMatchedFirst(inp: Input, s: State, i: nat)
    requires inp.Valid() && i < |inp.rows| && inp.Preserved(inp.rows[i])
    requires forall i | 0 <= i < |inp.rows| :: Current(s, inp.rows[i]).None?
    ensures Current(Next(inp, 1, s), inp.rows[i]) == Some(PreservedMatch(inp, inp.rows[i]))
  {
    AfterItsTurn(inp, ByReference, s, i);
    ReferenceStepPreserves(inp, Fold(inp.rows, Stepper(inp, ByReference), s, i), inp.rows[i]);
  }

  /** A preserved row carries its fixed result from the first phase to the last. */
  lemma PreservedIsFixed(inp: Input, i: nat, n: nat)
    requires inp.Valid() && i < |inp.rows| && inp.Preserved(inp.rows[i]) && 1 <= n
    ensures Current(Stage(inp, n), inp.rows[i]) == Some(PreservedMatch(inp, inp.rows[i]))
  {
    EmptyIsSound(inp);
    PreservedAreMatchedFirst(inp, Stage(inp, 0), i);
    ResultsEvolve(inp, 1, n);
    assert Current(Stage(inp, 1), inp.rows[i]) == Some(PreservedMatch(inp, inp.rows[i]));
    assert EvolvesAt(inp, Stage(inp, 1), Stage(inp, n), inp.rows[i]);
  }

  lemma PreservedHaveResults(inp: Input, n: nat)
    requires inp.Valid() && 1 <= n
    ensures forall i | 0 <= i < |inp.rows| && inp.Preserved(inp.rows[i]) :: Current(Stage(inp, n), inp.rows[i]).Some?
  {
    forall i | 0 <= i < |inp.rows| && inp.Preserved(inp.rows[i])
      ensures Current(Stage(inp, n), inp.rows[i]).Some?
    {
      PreservedIsFixed(inp, i, n);
    }
  }

  lemma ScoredStepDecides(inp: Input, s: State, ist: Ist)
    requires inp.Valid()
    ensures Current(Step(inp, BestScored, s, ist), ist).Some?
  {
  }

  lemma ScoredSweepDecides(inp: Input, s: State, i: nat)
    requires inp.Valid() && i < |inp.rows|
    ensures Current(Next(inp, 3, s), inp.rows[i]).Some?
  {
    AfterItsTurn(inp, BestScored, s, i);
    ScoredStepDecides(inp, Fold(inp.rows, Stepper(inp, BestScored), s, i), inp.rows[i]);
  }

  /** From the scored phase on every row has a result, so the write-back finds one for each. */
  lemma EveryRowHasResult(inp: Input, i: nat, n: nat)
    requires inp.Valid() && i < |inp.rows| && 3 <= n
    ensures Current(Stage(inp, n), inp.rows[i]).Some?
  {
    ScoredSweepDecides(inp, Stage(inp, 2), i);
    ResultsEvolve(inp, 3, n);
    assert Current(Stage(inp, 3), inp.rows[i]).Some?;
    assert EvolvesAt(inp, Stage(inp, 3), Stage(inp, n), inp.rows[i]);
  }

  lemma WithoutForcing(inp: Input)
    requires inp.Valid() && !inp.opts.forceAll
    ensures Stage(inp, 5).matches == Stage(inp, 3).matches
  {
    assert Stage(inp, 4) == Stage(inp, 3);
  }

  // ---------------------------------------------------------------- one bank, one row

  /** Unless one bank may serve many rows, two rows that are not preserved end with the same bank only as
      members of one settlement, with one and the same result. */
  lemma OneToOne(inp: Input, i: nat, j: nat, b: nat)
    requires inp.Valid() && !inp.opts.allowManyToOne && i != j
    requires HasBank(inp, Final(inp), i, b) && HasBank(inp, Final(inp), j, b)
    ensures SameGroup(inp, Final(inp), i, j)
  {
    StageInv(inp, 6);
  }
}
