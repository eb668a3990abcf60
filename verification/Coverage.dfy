/** What the set of used banks means, during the run and at its end. */
module Coverage {
  import opened Basics
  import opened Ledger
  import opened Scoring
  import opened Phases
  import opened Criteria
  import opened Invariants
  import opened Guarantees
  import Cert = Certificates
  import RM = ReferenceMatching

  /** Some row, preserved or not, ends with bank `x`, and the bank carries a reference. */
  ghost predicate HeldAtEnd(inp: Input, s: State, x: nat) {
    exists i | 0 <= i < |inp.rows| :: RowHolds(inp, s, inp.rows[i], x)
  }

  predicate RowHolds(inp: Input, s: State, ist: Ist, x: nat) {
    var m := Current(s, ist);
    m.Some? && Holds(inp, m.value) && m.value.bank.value.index == x
  }

  lemma HeldBanksMeaning(inp: Input, s: State, x: nat)
    requires inp.Valid() && Sound(inp, s)
    ensures x in HeldBanks(inp, s.matches) <==> HeldAtEnd(inp, s, x)
  {
    if x in HeldBanks(inp, s.matches) {
      var r :| r in s.matches && Holds(inp, s.matches[r]) && s.matches[r].bank.value.index == x;
      assert IsRow(inp, r);
      var i :| 0 <= i < |inp.rows| && inp.rows[i].row == r;
      assert RowHolds(inp, s, inp.rows[i], x);
    }
  }

  // ---------------------------------------------------------------- after the rebuild

  ghost function ExactSoFar(inp: Input, s: State): (nat, State) -> bool
    requires inp.Valid()
  {
    (j: nat, t: State) => Handed(inp, s)(j, t) && t.used == HeldBanks(inp, t.matches)
  }

  /** A cash match replaces at most a result without a bank, or one with the same bank. */
  lemma CashStepKeepsExact(inp: Input, s: State, k: nat)
    requires inp.Valid() && Inv(inp, s) && !inp.opts.allowManyToOne && k < |inp.rows|
    requires s.used == HeldBanks(inp, s.matches)
    ensures var t := CashStep(inp, s, inp.rows[k]); t.used == HeldBanks(inp, t.matches)
  {
    var ist := inp.rows[k];
    var current := Current(s, ist);
    var t := CashStep(inp, s, ist);
    if CashRow(inp, ist, current) {
      var found := CashSearch(inp, ist, s.used, OwnBank(current));
      if |found| == 1 && !Keeps(inp, current, found[0]) {
        var b := found[0];
        assert b in found;
        CashSearchMeaning(inp, ist, s.used, OwnBank(current), b);
        RecordHeld(inp, s, ist, CashResult(inp, ist, b));
      }
    }
  }

  lemma RecordHeld(inp: Input, s: State, ist: Ist, m: MatchResult)
    requires Holds(inp, m)
    requires Current(s, ist).Some? && Holds(inp, Current(s, ist).value) ==>
      Current(s, ist).value.bank.value.index == m.bank.value.index
    ensures HeldBanks(inp, Record(s, ist, m, true).matches) == HeldBanks(inp, s.matches) + {m.bank.value.index}
  {
    var t := Record(s, ist, m, true);
    assert ist.row in t.matches && Holds(inp, t.matches[ist.row]);
    forall x
      ensures x in HeldBanks(inp, t.matches) <==> x in HeldBanks(inp, s.matches) || x == m.bank.value.index
    {
      if x in HeldBanks(inp, s.matches) {
        var r :| r in s.matches && Holds(inp, s.matches[r]) && s.matches[r].bank.value.index == x;
        assert r in t.matches && Holds(inp, t.matches[r]);
      }
      if x in HeldBanks(inp, t.matches) {
        var r :| r in t.matches && Holds(inp, t.matches[r]) && t.matches[r].bank.value.index == x;
        assert r == ist.row || (r in s.matches && s.matches[r] == t.matches[r]);
      }
    }
  }

  lemma CashSweepIsExact(inp: Input, s: State)
    requires inp.Valid() && !inp.opts.allowManyToOne && ReadyFor(inp, Cash, s)
    requires s.used == HeldBanks(inp, s.matches)
    ensures Sweep(inp, Cash, s).used == HeldBanks(inp, Sweep(inp, Cash, s).matches)
  {
    forall j: nat, t: State | j < |inp.rows| && ExactSoFar(inp, s)(j, t)
      ensures ExactSoFar(inp, s)(j + 1, Stepper(inp, Cash)(t, inp.rows[j]))
    {
      StepHandsOn(inp, Cash, s, j, t);
      CashStepKeepsExact(inp, t, j);
    }
    assert Handed(inp, s)(0, s);
    FoldInvariant(inp.rows, Stepper(inp, Cash), ExactSoFar(inp, s), s, |inp.rows|);
  }

  /** At the end the used banks are exactly the banks with a reference that some row holds. */
  lemma UsedIsExact(inp: Input, x: nat)
    requires inp.Valid() && !inp.opts.allowManyToOne
    ensures x in Final(inp).used <==> HeldAtEnd(inp, Final(inp), x)
  {
    StageInv(inp, 4);
    StageInv(inp, 5);
    StageInv(inp, 6);
    var s := Stage(inp, 5);
    assert s.used == HeldBanks(inp, s.matches);
    CashSweepIsExact(inp, s);
    HeldBanksMeaning(inp, Final(inp), x);
  }

  /** The "Unmatched Bank Transactions" list. */
  function UnmatchedBanks(inp: Input, used: set<nat>): seq<Bank> {
    Filter(inp.banks, Unlisted(used))
  }

  function Unlisted(used: set<nat>): Bank -> bool {
    (b: Bank) => b.index !in used
  }

  lemma PreservedBankIsOwned(inp: Input, ist: Ist)
    requires inp.Valid() && PreservedMatch(inp, ist).bank.Some?
    ensures inp.Owns(PreservedMatch(inp, ist).bank.value)
  {
    var found := RM.Find(inp, [ist.paymentReference], ist.row);
    BestDirectIsCandidate(inp, ist, found);
    RM.FindMeaning(inp, [ist.paymentReference], ist.row, PreservedMatch(inp, ist).bank.value);
  }

  lemma HolderOwns(inp: Input, s: State, i: nat, x: nat)
    requires inp.Valid() && Sound(inp, s) && i < |inp.rows| && RowHolds(inp, s, inp.rows[i], x)
    ensures x < |inp.banks| && inp.Ref(inp.banks[x]) != ""
  {
    assert SoundAt(inp, s, i);
    if inp.Preserved(inp.rows[i]) {
      PreservedBankIsOwned(inp, inp.rows[i]);
    }
  }

  /** The list of unmatched banks is the exact complement of what the rows hold; banks without a reference are
      always on it. */
  lemma UnmatchedListIsComplement(inp: Input, b: Bank)
    requires inp.Valid() && !inp.opts.allowManyToOne && inp.Owns(b)
    ensures b in UnmatchedBanks(inp, Final(inp).used) <==> !HeldAtEnd(inp, Final(inp), b.index)
    ensures inp.Ref(b) == "" ==> b in UnmatchedBanks(inp, Final(inp).used)
  {
    InFilter(inp.banks, Unlisted(Final(inp).used));
    UsedIsExact(inp, b.index);
    StageInv(inp, 6);
    if i :| 0 <= i < |inp.rows| && RowHolds(inp, Final(inp), inp.rows[i], b.index) {
      HolderOwns(inp, Final(inp), i, b.index);
    }
  }

  // ---------------------------------------------------------------- before the rebuild

  predicate Names(s: State, ist: Ist, x: nat) {
    OwnBank(Current(s, ist)) == Some(x)
  }

  ghost predicate Named(inp: Input, s: State, x: nat) {
    exists i | 0 <= i < |inp.rows| :: Names(s, inp.rows[i], x)
  }

  /** Everything named is used, and everything used since `s` is named. */
  ghost predicate TracksFrom(inp: Input, s: State, t: State) {
    && s.used <= t.used
    && (forall x | Named(inp, t, x) :: x in t.used)
    && (forall x | x in t.used :: x in s.used || Named(inp, t, x))
  }

  /** The same part way through a pass: the first `j` rows have had their turn. */
  ghost predicate TracksUpTo(inp: Input, s: State, j: nat, t: State) {
    && (forall i | j <= i < |inp.rows| :: Current(t, inp.rows[i]) == Current(s, inp.rows[i]))
    && s.used <= t.used
    && (forall x | Named(inp, t, x) :: x in t.used)
    && (forall x | x in t.used :: x in s.used || NamedBefore(inp, t, j, x))
  }

  ghost predicate NamedBefore(inp: Input, t: State, j: nat, x: nat) {
    exists i | 0 <= i < j && i < |inp.rows| :: Names(t, inp.rows[i], x)
  }

  ghost function TracksSoFar(inp: Input, s: State): (nat, State) -> bool {
    (j: nat, t: State) => TracksUpTo(inp, s, j, t)
  }

  /** `u` is `t` with a new result for row `j`, whose bank, if any, is now used. */
  ghost predicate OneMore(inp: Input, t: State, j: nat, u: State)
    requires j < |inp.rows|
  {
    && (forall i | 0 <= i < |inp.rows| && i != j :: Current(u, inp.rows[i]) == Current(t, inp.rows[i]))
    && (u == t || u.used == t.used + (match OwnBank(Current(u, inp.rows[j])) case Some(x) => {x} case None => {}))
  }

  /** A step uses exactly the bank it gives its row, if it changes anything. */
  lemma StepUses(inp: Input, phase: Phase, s: State, j: nat)
    requires inp.Valid() && !inp.opts.allowManyToOne && j < |inp.rows|
    ensures OneMore(inp, s, j, Step(inp, phase, s, inp.rows[j]))
  {
    StepIsLocal(inp, phase, s, j);
  }

  lemma OneMoreTracks(inp: Input, s: State, j: nat, t: State, u: State)
    requires j < |inp.rows| && TracksUpTo(inp, s, j, t) && OneMore(inp, t, j, u)
    ensures TracksUpTo(inp, s, j + 1, u)
  {
    forall x | Named(inp, u, x)
      ensures x in u.used
    {
      var i :| 0 <= i < |inp.rows| && Names(u, inp.rows[i], x);
      if i != j || u == t {
        assert Names(t, inp.rows[i], x);
        assert Named(inp, t, x);
      }
    }
    forall x | x in u.used && x !in s.used
      ensures NamedBefore(inp, u, j + 1, x)
    {
      if x in t.used {
        var i :| 0 <= i < j && i < |inp.rows| && Names(t, inp.rows[i], x);
        assert Names(u, inp.rows[i], x);
      } else {
        assert Names(u, inp.rows[j], x);
      }
    }
  }

  lemma StepTracks(inp: Input, phase: Phase, s: State, j: nat, t: State)
    requires inp.Valid() && !inp.opts.allowManyToOne && j < |inp.rows| && TracksSoFar(inp, s)(j, t)
    ensures TracksSoFar(inp, s)(j + 1, Stepper(inp, phase)(t, inp.rows[j]))
  {
    StepUses(inp, phase, t, j);
    OneMoreTracks(inp, s, j, t, Step(inp, phase, t, inp.rows[j]));
  }

  lemma TracksAtEnd(inp: Input, s: State, t: State)
    requires TracksSoFar(inp, s)(|inp.rows|, t)
    ensures TracksFrom(inp, s, t)
  {
    forall x | x in t.used && x !in s.used
      ensures Named(inp, t, x)
    {
      assert NamedBefore(inp, t, |inp.rows|, x);
    }
  }

  lemma SweepTracks(inp: Input, phase: Phase, s: State)
    requires inp.Valid() && !inp.opts.allowManyToOne
    requires forall x | Named(inp, s, x) :: x in s.used
    ensures TracksFrom(inp, s, Sweep(inp, phase, s))
  {
    forall j: nat, t: State | j < |inp.rows| && TracksSoFar(inp, s)(j, t)
      ensures TracksSoFar(inp, s)(j + 1, Stepper(inp, phase)(t, inp.rows[j]))
    {
      StepTracks(inp, phase, s, j, t);
    }
    FoldInvariant(inp.rows, Stepper(inp, phase), TracksSoFar(inp, s), s, |inp.rows|);
    TracksAtEnd(inp, s, Sweep(inp, phase, s));
  }

  lemma GroupStepTracks(inp: Input, s: State, group: seq<Ist>)
    requires inp.Valid() && MayGroup(inp, group) && group[0].epochDay.Some?
    requires forall x | Named(inp, s, x) :: x in s.used
    ensures TracksFrom(inp, s, GroupStep(inp, s, group))
  {
    var t := GroupStep(inp, s, group);
    var choice := GroupChoice(inp, group, GroupSearch(inp, group, s.used));
    if RightSize(group) && choice.Some? {
      var m := GroupedResult(choice.value);
      forall i | 0 <= i < |inp.rows|
        ensures Current(t, inp.rows[i]) == if inp.rows[i] in group then Some(m) else Current(s, inp.rows[i])
        ensures t.used == s.used + {choice.value.index}
      {
        GroupRecorded(inp, s, group, m, inp.rows[i]);
      }
      assert group[0] in group && group[0] in inp.rows;
      var a :| 0 <= a < |inp.rows| && inp.rows[a] == group[0];
      assert Names(t, inp.rows[a], choice.value.index);
      forall x | Named(inp, t, x)
        ensures x in t.used
      {
        var i :| 0 <= i < |inp.rows| && Names(t, inp.rows[i], x);
        assert inp.rows[i] in group || Names(s, inp.rows[i], x);
      }
    }
  }

  /** Named by a row of one of the first `k` groups. */
  ghost predicate NamedInGroups(inp: Input, s: State, k: nat, t: State, x: nat)
    requires k <= |GroupKeys(inp, s, |inp.rows|)|
  {
    exists i, j | 0 <= i < |inp.rows| && 0 <= j < k :: NamedInGroup(inp, s, t, x, i, j)
  }

  ghost predicate NamedInGroup(inp: Input, s: State, t: State, x: nat, i: nat, j: nat)
    requires i < |inp.rows| && j < |GroupKeys(inp, s, |inp.rows|)|
  {
    Names(t, inp.rows[i], x) && InGroup(inp, s, GroupKeys(inp, s, |inp.rows|)[j], inp.rows[i])
  }

  /** A bank that group `k` takes is named by that group's rows. */
  lemma NewlyUsed(inp: Input, s: State, k: nat, t: State, x: nat)
    requires inp.Valid() && k < |GroupKeys(inp, s, |inp.rows|)|
    requires var group := GroupOf(inp, s, GroupKeys(inp, s, |inp.rows|)[k]);
      MayGroup(inp, group) && group[0].epochDay.Some? && x in GroupStep(inp, t, group).used && x !in t.used
    ensures NamedInGroups(inp, s, k + 1, GroupStep(inp, t, GroupOf(inp, s, GroupKeys(inp, s, |inp.rows|)[k])), x)
  {
    var key := GroupKeys(inp, s, |inp.rows|)[k];
    var group := GroupOf(inp, s, key);
    var u := GroupStep(inp, t, group);
    var choice := GroupChoice(inp, group, GroupSearch(inp, group, t.used));
    assert RightSize(group) && choice.Some?;
    GroupIsInhabited(inp, s, key);
    assert group[0] in group;
    GroupRecorded(inp, t, group, GroupedResult(choice.value), group[0]);
    var i :| 0 <= i < |inp.rows| && inp.rows[i] == group[0];
    assert NamedInGroup(inp, s, u, x, i, k);
  }

  /** A bank named by an earlier group stays named: recorded groups are not touched again. */
  lemma StillNamed(inp: Input, s: State, k: nat, t: State, x: nat)
    requires inp.Valid() && k < |GroupKeys(inp, s, |inp.rows|)| && NamedInGroups(inp, s, k, t, x)
    requires var group := GroupOf(inp, s, GroupKeys(inp, s, |inp.rows|)[k]);
      MayGroup(inp, group) && group[0].epochDay.Some?
    ensures NamedInGroups(inp, s, k + 1, GroupStep(inp, t, GroupOf(inp, s, GroupKeys(inp, s, |inp.rows|)[k])), x)
  {
    var keys := GroupKeys(inp, s, |inp.rows|);
    var group := GroupOf(inp, s, keys[k]);
    var i, j :| 0 <= i < |inp.rows| && 0 <= j < k && NamedInGroup(inp, s, t, x, i, j);
    KeysDiffer(inp, s, |inp.rows|);
    assert keys[j] != keys[k];
    InGroupOf(inp, s, keys[k], inp.rows[i]);
    GroupStepIsLocal(inp, t, group, inp.rows[i]);
    assert NamedInGroup(inp, s, GroupStep(inp, t, group), x, i, j);
  }

  ghost predicate GroupsTrack(inp: Input, s: State, k: nat, t: State)
    requires k <= |GroupKeys(inp, s, |inp.rows|)|
  {
    && s.used <= t.used
    && (forall x | Named(inp, t, x) :: x in t.used)
    && (forall x | x in t.used :: x in s.used || NamedInGroups(inp, s, k, t, x))
  }

  lemma GroupTracksOn(inp: Input, s: State, k: nat, t: State)
    requires inp.Valid() && k < |GroupKeys(inp, s, |inp.rows|)| && GroupsTrack(inp, s, k, t)
    requires var group := GroupOf(inp, s, GroupKeys(inp, s, |inp.rows|)[k]);
      MayGroup(inp, group) && group[0].epochDay.Some?
    ensures GroupsTrack(inp, s, k + 1, GroupStep(inp, t, GroupOf(inp, s, GroupKeys(inp, s, |inp.rows|)[k])))
  {
    var u := GroupStep(inp, t, GroupOf(inp, s, GroupKeys(inp, s, |inp.rows|)[k]));
    GroupStepTracks(inp, t, GroupOf(inp, s, GroupKeys(inp, s, |inp.rows|)[k]));
    forall x | x in u.used && x !in s.used
      ensures NamedInGroups(inp, s, k + 1, u, x)
    {
      if x in t.used {
        StillNamed(inp, s, k, t, x);
      } else {
        NewlyUsed(inp, s, k, t, x);
      }
    }
  }

  lemma {:induction false} GroupSweepTracks(inp: Input, s: State, k: nat)
    requires inp.Valid() && k <= |GroupKeys(inp, s, |inp.rows|)|
    requires forall x | Named(inp, s, x) :: x in s.used
    ensures GroupsTrack(inp, s, k, GroupSweep(inp, s, k))
  {
    if k > 0 {
      GroupSweepTracks(inp, s, k - 1);
      GroupMembers(inp, s, GroupKeys(inp, s, |inp.rows|)[k - 1]);
      GroupTracksOn(inp, s, k - 1, GroupSweep(inp, s, k - 1));
    }
  }

  lemma GroupPhaseTracks(inp: Input, s: State)
    requires inp.Valid()
    requires forall x | Named(inp, s, x) :: x in s.used
    ensures TracksFrom(inp, s, GroupSweep(inp, s, |GroupKeys(inp, s, |inp.rows|)|))
  {
    var n := |GroupKeys(inp, s, |inp.rows|)|;
    var t := GroupSweep(inp, s, n);
    GroupSweepTracks(inp, s, n);
    forall x | x in t.used && x !in s.used
      ensures Named(inp, t, x)
    {
      assert NamedInGroups(inp, s, n, t, x);
      var i, j :| 0 <= i < |inp.rows| && 0 <= j < n && NamedInGroup(inp, s, t, x, i, j);
      assert Names(t, inp.rows[i], x);
    }
  }

  /** Some row named bank `x` at the end of one of the first `n` phases. */
  ghost predicate EverNamed(inp: Input, n: nat, x: nat)
    requires inp.Valid()
  {
    exists m: nat | m <= n :: Named(inp, Stage(inp, m), x)
  }

  lemma NextTracks(inp: Input, n: nat, s: State)
    requires inp.Valid() && !inp.opts.allowManyToOne && 1 <= n <= 4
    requires forall x | Named(inp, s, x) :: x in s.used
    ensures TracksFrom(inp, s, Next(inp, n, s))
  {
    if n == 1 {
      SweepTracks(inp, ByReference, s);
    } else if n == 2 {
      GroupPhaseTracks(inp, s);
    } else if n == 3 {
      SweepTracks(inp, BestScored, s);
    } else if inp.opts.forceAll {
      SweepTracks(inp, Exhaustive, s);
    }
  }

  lemma EverNamedOnce(inp: Input, n: nat, x: nat)
    requires inp.Valid() && n > 0
    ensures EverNamed(inp, n, x) <==> EverNamed(inp, n - 1, x) || Named(inp, Stage(inp, n), x)
  {
    if EverNamed(inp, n, x) {
      var m: nat :| m <= n && Named(inp, Stage(inp, m), x);
      assert m == n || EverNamed(inp, n - 1, x);
    }
    if EverNamed(inp, n - 1, x) {
      var m: nat :| m <= n - 1 && Named(inp, Stage(inp, m), x);
      assert m <= n;
    }
  }

  lemma NothingNamedAtFirst(inp: Input, x: nat)
    requires inp.Valid()
    ensures !EverNamed(inp, 0, x) && x !in Stage(inp, 0).used
  {
    assert !Named(inp, Stage(inp, 0), x);
  }

  /** The banks used in `s` are those ever named up to phase `n`. */
  ghost predicate UsedIsNamed(inp: Input, n: nat, s: State)
    requires inp.Valid()
  {
    && (forall x | x in s.used :: EverNamed(inp, n, x))
    && (forall x | EverNamed(inp, n, x) :: x in s.used)
  }

  lemma OnePhaseFurther(inp: Input, n: nat, s: State, t: State)
    requires inp.Valid() && !inp.opts.allowManyToOne && 1 <= n <= 4
    requires s == Stage(inp, n - 1) && t == Stage(inp, n) && t == Next(inp, n, s)
    requires UsedIsNamed(inp, n - 1, s)
    ensures UsedIsNamed(inp, n, t)
  {
    forall x | Named(inp, s, x)
      ensures x in s.used
    {
      assert EverNamed(inp, n - 1, x);
    }
    assert TracksFrom(inp, s, t) by {
      NextTracks(inp, n, s);
    }
    forall x
      ensures EverNamed(inp, n, x) <==> EverNamed(inp, n - 1, x) || Named(inp, t, x)
    {
      EverNamedOnce(inp, n, x);
    }
  }

  lemma {:induction false} UsedIsNamedAt(inp: Input, n: nat)
    requires inp.Valid() && !inp.opts.allowManyToOne && n <= 4
    ensures UsedIsNamed(inp, n, Stage(inp, n))
  {
    if n == 0 {
      forall x
        ensures !EverNamed(inp, 0, x) && x !in Stage(inp, 0).used
      {
        NothingNamedAtFirst(inp, x);
      }
    } else {
      UsedIsNamedAt(inp, n - 1);
      OnePhaseFurther(inp, n, Stage(inp, n - 1), Stage(inp, n));
    }
  }

  /** Until the rebuild a bank counts as used exactly when some row has named it at the end of a phase, even
      if that row has let go of it since. */
  lemma UsedMeansEverNamed(inp: Input, n: nat, x: nat)
    requires inp.Valid() && !inp.opts.allowManyToOne && n <= 4
    ensures x in Stage(inp, n).used <==> EverNamed(inp, n, x)
  {
    UsedIsNamedAt(inp, n);
  }

  // ---------------------------------------------------------------- the exhaustive phase in the run

  /** The row is decided by the exhaustive phase. */
  ghost predicate Decided(inp: Input, s: State, ist: Ist) {
    && !inp.Preserved(ist) && !Settled(inp, Current(s, ist)) && !OfRegister(inp.ev, ist)
    && ist.amount.Some? && ist.direction.Some?
  }

  /** In the run, a decided row leaves the exhaustive phase with the decision taken at its turn. */
  lemma ExhaustiveTurn(inp: Input, k: nat)
    requires inp.Valid() && inp.opts.forceAll && k < |inp.rows| && Decided(inp, Stage(inp, 3), inp.rows[k])
    ensures var ist := inp.rows[k];
      var used := Fold(inp.rows, Stepper(inp, Exhaustive), Stage(inp, 3), k).used;
      && used <= Stage(inp, 4).used
      && Current(Stage(inp, 4), ist) == Some(
           ExhaustiveResult(inp, ist, CompatibleCodes(inp, ist), used, OwnBank(Current(Stage(inp, 3), ist))))
  {
    var s, ist := Stage(inp, 3), inp.rows[k];
    var t := Fold(inp.rows, Stepper(inp, Exhaustive), s, k);
    AfterItsTurn(inp, Exhaustive, s, k);
    BeforeItsTurn(inp, Exhaustive, s, k);
    FoldIsLocal(inp, Exhaustive, s, k, |inp.rows|);
    assert Current(t, ist) == Current(s, ist);
  }

  /** A decided row is passed to a lower tier, or left without a bank, only past banks that are not available
      to it: at its turn, every bank of a higher tier is used and is not the row's own. */
  lemma HigherTiersAreTaken(inp: Input, k: nat, b: Bank)
    requires inp.Valid() && inp.opts.forceAll && k < |inp.rows| && Decided(inp, Stage(inp, 3), inp.rows[k])
    requires inp.Owns(b)
    ensures var ist := inp.rows[k];
      var used := Fold(inp.rows, Stepper(inp, Exhaustive), Stage(inp, 3), k).used;
      var m := Current(Stage(inp, 4), ist);
      var free := Free(inp, used, OwnBank(Current(Stage(inp, 3), ist)), b);
      && used <= Stage(inp, 4).used
      && m.Some?
      && m.value.matchCase in {ForcedBestBankMatch, AmountDescriptionFallback, NearAmountClientMatch, NoCandidate}
      && (AccountTier(inp, ist, b) && m.value.matchCase != ForcedBestBankMatch ==> !free)
      && (EvidenceTier(inp, ist, b) && m.value.matchCase in {NearAmountClientMatch, NoCandidate} ==> !free)
      && (NearbyTier(inp, ist, b) && m.value.matchCase == NoCandidate ==> !free)
  {
    var ist := inp.rows[k];
    var used := Fold(inp.rows, Stepper(inp, Exhaustive), Stage(inp, 3), k).used;
    var own := OwnBank(Current(Stage(inp, 3), ist));
    var codes := CompatibleCodes(inp, ist);
    ExhaustiveTurn(inp, k);
    ExhaustiveIsTierOptimal(inp, ist, codes, used, own);
    AccountTierMeaning(inp, ist, b);
    EvidenceTierMeaning(inp, ist, b);
    NearbyTierMeaning(inp, ist, b);
    if Free(inp, used, own, b) {
      assert Forced(inp, ist, codes)(b) ==> TierOpen(inp, used, own, Forced(inp, ist, codes));
      assert ByDescription(inp, ist)(b) ==> TierOpen(inp, used, own, ByDescription(inp, ist));
      assert Near(inp, ist, codes)(b) ==> TierOpen(inp, used, own, Near(inp, ist, codes));
    }
  }

  // ---------------------------------------------------------------- letting go of a bank

  /** Phase `n` takes bank `x` from row `r`. */
  ghost predicate LetsGo(inp: Input, n: nat, r: nat, x: nat)
    requires inp.Valid() && n > 0
  {
    r < |inp.rows| && Names(Stage(inp, n - 1), inp.rows[r], x) && !Names(Stage(inp, n), inp.rows[r], x)
  }

  lemma {:induction false} LetGoOnce(inp: Input, r: nat, x: nat, m: nat, n: nat) returns (k: nat)
    requires inp.Valid() && r < |inp.rows| && m <= n
    requires Names(Stage(inp, m), inp.rows[r], x) && !Names(Stage(inp, n), inp.rows[r], x)
    ensures m < k <= n && LetsGo(inp, k, r, x)
  {
    if Names(Stage(inp, n - 1), inp.rows[r], x) {
      k := n;
    } else {
      k := LetGoOnce(inp, r, x, m, n - 1);
    }
  }

  lemma CashStepKeepsNames(inp: Input, s: State, ist: Ist, x: nat)
    requires inp.Valid() && Names(s, ist, x) && inp.Ref(Current(s, ist).value.bank.value) != ""
    ensures Names(Step(inp, Cash, s, ist), ist, x)
  {
  }

  lemma CashKeepsNames(inp: Input, s: State, r: nat, x: nat)
    requires inp.Valid() && r < |inp.rows| && Names(s, inp.rows[r], x)
    requires inp.Ref(Current(s, inp.rows[r]).value.bank.value) != ""
    ensures Names(Sweep(inp, Cash, s), inp.rows[r], x)
  {
    AfterItsTurn(inp, Cash, s, r);
    BeforeItsTurn(inp, Cash, s, r);
    CashStepKeepsNames(inp, Fold(inp.rows, Stepper(inp, Cash), s, r), inp.rows[r], x);
  }

  /** A bank that a row names is one of the sheet's. */
  lemma NamedIsOwned(inp: Input, n: nat, r: nat, x: nat)
    requires inp.Valid() && r < |inp.rows| && Names(Stage(inp, n), inp.rows[r], x)
    ensures x < |inp.banks| && Current(Stage(inp, n), inp.rows[r]).value.bank == Some(inp.banks[x])
    ensures Current(Stage(inp, n), inp.rows[r]).value.status != Unmatched
  {
    StageInv(inp, n);
    assert SoundAt(inp, Stage(inp, n), r);
    if inp.Preserved(inp.rows[r]) {
      PreservedBankIsOwned(inp, inp.rows[r]);
    }
  }

  lemma FirstLetsNothingGo(inp: Input, r: nat, x: nat)
    requires inp.Valid()
    ensures !LetsGo(inp, 1, r, x)
  {
  }

  lemma ScoringLetsNothingGo(inp: Input, r: nat, x: nat)
    requires inp.Valid()
    ensures !LetsGo(inp, 3, r, x)
  {
    if r < |inp.rows| {
      Cert.ScoredTurn(inp, r);
    }
  }

  lemma RebuildLetsNothingGo(inp: Input, r: nat, x: nat)
    requires inp.Valid()
    ensures !LetsGo(inp, 5, r, x)
  {
  }

  lemma CashLetsNothingGo(inp: Input, r: nat, x: nat)
    requires inp.Valid() && x < |inp.banks| && inp.Ref(inp.banks[x]) != ""
    ensures !LetsGo(inp, 6, r, x)
  {
    if r < |inp.rows| && Names(Stage(inp, 5), inp.rows[r], x) {
      NamedIsOwned(inp, 5, r, x);
      CashKeepsNames(inp, Stage(inp, 5), r, x);
    }
  }

  /** Only the group phase and the exhaustive phase take a bank with a reference from a row. */
  lemma OnlyTwoPhasesLetGo(inp: Input, n: nat, r: nat, x: nat)
    requires inp.Valid() && 1 <= n <= 6 && LetsGo(inp, n, r, x)
    requires x < |inp.banks| && inp.Ref(inp.banks[x]) != ""
    ensures n in {2, 4}
  {
    FirstLetsNothingGo(inp, r, x);
    ScoringLetsNothingGo(inp, r, x);
    RebuildLetsNothingGo(inp, r, x);
    CashLetsNothingGo(inp, r, x);
  }

  lemma NamedIsHeld(inp: Input, r: nat, x: nat)
    requires inp.Valid() && r < |inp.rows| && Names(Final(inp), inp.rows[r], x)
    requires x < |inp.banks| && inp.Ref(inp.banks[x]) != ""
    ensures HeldAtEnd(inp, Final(inp), x)
  {
    NamedIsOwned(inp, 6, r, x);
    assert RowHolds(inp, Final(inp), inp.rows[r], x);
  }

  /** A decided row can be left without a bank while a bank that fits it ends on the unmatched list, but only
      if some row named that bank before the group or the exhaustive phase and lost it there. */
  lemma PassedOverBankWasNamed(inp: Input, k: nat, b: Bank) returns (n: nat, r: nat)
    requires inp.Valid() && inp.opts.forceAll && !inp.opts.allowManyToOne && k < |inp.rows|
    requires Decided(inp, Stage(inp, 3), inp.rows[k]) && Current(Stage(inp, 4), inp.rows[k]) == Some(NOTHING)
    requires inp.Owns(b) && b in UnmatchedBanks(inp, Final(inp).used)
    requires var ist := inp.rows[k]; AccountTier(inp, ist, b) || EvidenceTier(inp, ist, b) || NearbyTier(inp, ist, b)
    ensures !HeldAtEnd(inp, Final(inp), b.index)
    ensures n in {2, 4} && LetsGo(inp, n, r, b.index)
  {
    HigherTiersAreTaken(inp, k, b);
    UsedMeansEverNamed(inp, 4, b.index);
    UnmatchedListIsComplement(inp, b);
    var m: nat :| m <= 4 && Named(inp, Stage(inp, m), b.index);
    r :| 0 <= r < |inp.rows| && Names(Stage(inp, m), inp.rows[r], b.index);
    if Names(Final(inp), inp.rows[r], b.index) {
      NamedIsHeld(inp, r, b.index);
    }
    n := LetGoOnce(inp, r, b.index, m, 6);
    OnlyTwoPhasesLetGo(inp, n, r, b.index);
  }

  // ---------------------------------------------------------------- many rows to one bank

  lemma SharedStepUse(inp: Input, phase: Phase, s: State, ist: Ist)
    requires inp.Valid() && inp.opts.allowManyToOne && phase != BestScored
    ensures Step(inp, phase, s, ist).used == s.used
  {
  }

  lemma SharedSweepUse(inp: Input, phase: Phase, s: State)
    requires inp.Valid() && inp.opts.allowManyToOne && phase != BestScored
    ensures Sweep(inp, phase, s).used == s.used
  {
    var same := (j: nat, t: State) => t.used == s.used;
    forall j: nat, t: State | j < |inp.rows| && same(j, t)
      ensures same(j + 1, Stepper(inp, phase)(t, inp.rows[j]))
    {
      SharedStepUse(inp, phase, t, inp.rows[j]);
    }
    FoldInvariant(inp.rows, Stepper(inp, phase), same, s, |inp.rows|);
  }

  lemma SharedUseOfFirst(inp: Input)
    requires inp.Valid() && inp.opts.allowManyToOne
    ensures Stage(inp, 1).used == {}
  {
    SharedSweepUse(inp, ByReference, Stage(inp, 0));
  }

  lemma SharedUseOfLast(inp: Input)
    requires inp.Valid() && inp.opts.allowManyToOne
    ensures Final(inp).used == Stage(inp, 3).used
  {
    if inp.opts.forceAll {
      SharedSweepUse(inp, Exhaustive, Stage(inp, 3));
    }
    assert Stage(inp, 4).used == Stage(inp, 3).used;
    assert Stage(inp, 5) == Stage(inp, 4);
    SharedSweepUse(inp, Cash, Stage(inp, 5));
  }

  /** Some group took bank `x`. */
  ghost predicate TakenByGroup(inp: Input, s: State, k: nat, x: nat)
    requires k <= |GroupKeys(inp, s, |inp.rows|)|
  {
    exists j: nat :: j < k && Takes(inp, s, j, x)
  }

  ghost predicate Takes(inp: Input, s: State, j: nat, x: nat)
    requires j < |GroupKeys(inp, s, |inp.rows|)|
  {
    Cert.GroupTakes(inp, s, j).Some? && Cert.GroupTakes(inp, s, j).value.index == x
  }

  lemma GroupStepUses(inp: Input, s: State, j: nat, x: nat)
    requires j < |GroupKeys(inp, s, |inp.rows|)|
    ensures x in GroupSweep(inp, s, j + 1).used <==> x in GroupSweep(inp, s, j).used || Takes(inp, s, j, x)
  {
    var group := Cert.GroupAt(inp, s, j);
    if Cert.GroupTakes(inp, s, j).Some? {
      RecordAllCurrent(inp, GroupSweep(inp, s, j), group, GroupedResult(Cert.GroupTakes(inp, s, j).value), |group|, group[0]);
    }
  }

  ghost function UsedAfter(inp: Input, s: State, x: nat): nat -> bool {
    (j: nat) => j <= |GroupKeys(inp, s, |inp.rows|)| && x in GroupSweep(inp, s, j).used
  }

  ghost function TakenAt(inp: Input, s: State, x: nat): nat -> bool {
    (j: nat) => j < |GroupKeys(inp, s, |inp.rows|)| && Takes(inp, s, j, x)
  }

  lemma GroupTurnUse(inp: Input, s: State, j: nat, x: nat)
    requires j < |GroupKeys(inp, s, |inp.rows|)|
    ensures Turn(UsedAfter(inp, s, x), TakenAt(inp, s, x), j)
  {
    GroupStepUses(inp, s, j, x);
  }

  lemma GroupSweepAdds(inp: Input, s: State, k: nat, x: nat)
    requires k <= |GroupKeys(inp, s, |inp.rows|)|
    ensures UsedAfter(inp, s, x)(k) <==>
      UsedAfter(inp, s, x)(0) || exists j: nat :: j < k && TakenAt(inp, s, x)(j)
  {
    forall j: nat | j < k
      ensures Turn(UsedAfter(inp, s, x), TakenAt(inp, s, x), j)
    {
      GroupTurnUse(inp, s, j, x);
    }
    AddsUp(UsedAfter(inp, s, x), TakenAt(inp, s, x), k);
  }

  lemma GroupSweepUses(inp: Input, s: State, k: nat, x: nat)
    requires k <= |GroupKeys(inp, s, |inp.rows|)|
    ensures x in GroupSweep(inp, s, k).used <==> x in s.used || TakenByGroup(inp, s, k, x)
  {
    GroupSweepAdds(inp, s, k, x);
    TakesAre(inp, s, k, x, TakenAt(inp, s, x));
  }

  lemma TakesAre(inp: Input, s: State, k: nat, x: nat, takes: nat -> bool)
    requires k <= |GroupKeys(inp, s, |inp.rows|)|
    requires forall j: nat {:trigger takes(j)} | j < k :: takes(j) <==> Takes(inp, s, j, x)
    ensures TakenByGroup(inp, s, k, x) <==> exists j: nat :: j < k && takes(j)
  {
    if j: nat :| j < k && Takes(inp, s, j, x) {
      assert takes(j);
    }
  }

  /** After the group phase some row is settled with bank `x` as a member of its group. */
  ghost predicate MarkedByGroup(inp: Input, x: nat)
    requires inp.Valid()
  {
    exists i :: 0 <= i < |inp.rows| && GroupedWith(inp, Stage(inp, 2), i, x)
  }

  predicate GroupedWith(inp: Input, s: State, i: nat, x: nat)
    requires i < |inp.rows|
  {
    Names(s, inp.rows[i], x) && Current(s, inp.rows[i]).value.matchCase == GroupedSettlementMatch
  }

  lemma TakenIsNamed(inp: Input, s: State, j: nat, x: nat) returns (i: nat)
    requires inp.Valid() && j < |GroupKeys(inp, s, |inp.rows|)| && Takes(inp, s, j, x)
    ensures i < |inp.rows| && GroupedWith(inp, GroupSweep(inp, s, |GroupKeys(inp, s, |inp.rows|)|), i, x)
  {
    var group := Cert.GroupAt(inp, s, j);
    assert group[0] in group;
    Cert.GroupTurn(inp, s, j, group[0]);
    Cert.GroupMatesAgree(inp, s, j, group[0]);
    i :| 0 <= i < |inp.rows| && inp.rows[i] == group[0];
  }

  lemma TakenIsMarked(inp: Input, j: nat, x: nat)
    requires inp.Valid() && j < |GroupKeys(inp, Stage(inp, 1), |inp.rows|)| && Takes(inp, Stage(inp, 1), j, x)
    ensures MarkedByGroup(inp, x)
  {
    var i := TakenIsNamed(inp, Stage(inp, 1), j, x);
    assert GroupedWith(inp, Stage(inp, 2), i, x);
  }

  lemma MarkedIsTaken(inp: Input, i: nat, x: nat)
    requires inp.Valid() && i < |inp.rows| && GroupedWith(inp, Stage(inp, 2), i, x)
    ensures TakenByGroup(inp, Stage(inp, 1), |GroupKeys(inp, Stage(inp, 1), |inp.rows|)|, x)
  {
    var s, ist := Stage(inp, 1), inp.rows[i];
    var keys := GroupKeys(inp, s, |inp.rows|);
    Cert.FirstCases(inp, i);
    if Groupable(inp, s, ist) {
      var j := GroupOutcome(inp, s, ist);
      InGroupOf(inp, s, keys[j], ist);
      Cert.GroupTurn(inp, s, j, ist);
      assert Takes(inp, s, j, x);
    } else {
      GroupSweepIsLocal(inp, s, 0, |keys|, ist);
    }
  }

  /** A row without a result after the group phase was scored with bank `x`. */
  ghost predicate MarkedByScore(inp: Input, x: nat)
    requires inp.Valid()
  {
    ScoredSoFar(inp, |inp.rows|, x)
  }

  ghost predicate ScoredWith(inp: Input, i: nat, x: nat)
    requires inp.Valid() && i < |inp.rows|
  {
    Current(Stage(inp, 2), inp.rows[i]).None? && Names(Stage(inp, 3), inp.rows[i], x)
  }

  lemma ScoredStepUse(inp: Input, s: State, ist: Ist, x: nat)
    requires inp.Valid()
    ensures x in Step(inp, BestScored, s, ist).used <==>
      x in s.used || (Current(s, ist).None? && OwnBank(Some(ScoredResult(inp, ist, s.used))) == Some(x))
  {
  }

  lemma ScoredTurnUse(inp: Input, k: nat, x: nat)
    requires inp.Valid() && k < |inp.rows|
    ensures var step := Stepper(inp, BestScored);
      var t := Fold(inp.rows, step, Stage(inp, 2), k);
      x in step(t, inp.rows[k]).used <==> x in t.used || ScoredWith(inp, k, x)
  {
    ScoredStepUse(inp, Fold(inp.rows, Stepper(inp, BestScored), Stage(inp, 2), k), inp.rows[k], x);
    BeforeItsTurn(inp, BestScored, Stage(inp, 2), k);
    Cert.ScoredTurn(inp, k);
  }

  /** What one turn of a pass adds to the used banks. */
  ghost predicate TurnAdds(
    rows: seq<Ist>, step: (State, Ist) -> State, s: State, adds: nat -> bool, j: nat, x: nat)
    requires j < |rows|
  {
    var t := Fold(rows, step, s, j);
    x in step(t, rows[j]).used <==> x in t.used || adds(j)
  }

  lemma {:induction false} PassAdds(
    rows: seq<Ist>, step: (State, Ist) -> State, s: State, adds: nat -> bool, k: nat, x: nat)
    requires k <= |rows| && forall j | 0 <= j < k :: TurnAdds(rows, step, s, adds, j, x)
    ensures x in Fold(rows, step, s, k).used <==> x in s.used || exists j: nat :: j < k && adds(j)
  {
    if k > 0 {
      PassAdds(rows, step, s, adds, k - 1, x);
      assert TurnAdds(rows, step, s, adds, k - 1, x);
      if j: nat :| j < k && adds(j) {
        assert j == k - 1 || exists i: nat :: i < k - 1 && adds(i);
      }
    }
  }

  /** One of the first `k` rows was scored with bank `x`. */
  ghost predicate ScoredSoFar(inp: Input, k: nat, x: nat)
    requires inp.Valid() && k <= |inp.rows|
  {
    exists i :: 0 <= i < k && ScoredWith(inp, i, x)
  }

  ghost function ScoredAt(inp: Input, x: nat): nat -> bool
    requires inp.Valid()
  {
    (j: nat) => j < |inp.rows| && ScoredWith(inp, j, x)
  }

  lemma ScoredTurnAdds(inp: Input, j: nat, x: nat)
    requires inp.Valid() && j < |inp.rows|
    ensures TurnAdds(inp.rows, Stepper(inp, BestScored), Stage(inp, 2), ScoredAt(inp, x), j, x)
  {
    ScoredTurnUse(inp, j, x);
  }

  lemma ScoredSweepUses(inp: Input, k: nat, x: nat)
    requires inp.Valid() && k <= |inp.rows|
    ensures x in Fold(inp.rows, Stepper(inp, BestScored), Stage(inp, 2), k).used <==>
      x in Stage(inp, 2).used || ScoredSoFar(inp, k, x)
  {
    forall j | 0 <= j < k
      ensures TurnAdds(inp.rows, Stepper(inp, BestScored), Stage(inp, 2), ScoredAt(inp, x), j, x)
    {
      ScoredTurnAdds(inp, j, x);
    }
    PassAdds(inp.rows, Stepper(inp, BestScored), Stage(inp, 2), ScoredAt(inp, x), k, x);
    ScoresAre(inp, k, x, ScoredAt(inp, x));
  }

  lemma ScoresAre(inp: Input, k: nat, x: nat, scores: nat -> bool)
    requires inp.Valid() && k <= |inp.rows|
    requires forall j: nat {:trigger scores(j)} | j < k :: scores(j) <==> ScoredWith(inp, j, x)
    ensures ScoredSoFar(inp, k, x) <==> exists j: nat :: j < k && scores(j)
  {
    if j :| 0 <= j < k && ScoredWith(inp, j, x) {
      assert scores(j);
    }
  }

  ghost predicate Marked(inp: Input, x: nat)
    requires inp.Valid()
  {
    MarkedByGroup(inp, x) || MarkedByScore(inp, x)
  }

  /** When one bank may serve many rows, a bank counts as used at the end exactly when a group took it or a row
      was scored with it; references, the exhaustive fallback and cash journals do not count. */
  lemma SharedUse(inp: Input, x: nat)
    requires inp.Valid() && inp.opts.allowManyToOne
    ensures x in Final(inp).used <==> Marked(inp, x)
  {
    var n := |GroupKeys(inp, Stage(inp, 1), |inp.rows|)|;
    SharedUseOfFirst(inp);
    SharedUseOfLast(inp);
    ScoredSweepUses(inp, |inp.rows|, x);
    GroupSweepUses(inp, Stage(inp, 1), n, x);
    if TakenByGroup(inp, Stage(inp, 1), n, x) {
      var j: nat :| j < n && Takes(inp, Stage(inp, 1), j, x);
      TakenIsMarked(inp, j, x);
    }
    if i :| 0 <= i < |inp.rows| && GroupedWith(inp, Stage(inp, 2), i, x) {
      MarkedIsTaken(inp, i, x);
    }
  }

  lemma GroupedIsHeld(inp: Input, i: nat, x: nat)
    requires inp.Valid() && i < |inp.rows| && GroupedWith(inp, Stage(inp, 2), i, x)
    ensures HeldAtEnd(inp, Final(inp), x)
  {
    GroupedIsSettled(inp, i, x);
    NamedIsOwned(inp, 6, i, x);
    NamedIsHeld(inp, i, x);
  }

  lemma ScoredIsHeld(inp: Input, i: nat, x: nat)
    requires inp.Valid() && !inp.opts.forceAll && i < |inp.rows| && ScoredWith(inp, i, x)
    ensures HeldAtEnd(inp, Final(inp), x)
  {
    ScoredHasReference(inp, i, x);
    WithoutForcing(inp);
    CashKeepsNames(inp, Stage(inp, 5), i, x);
    NamedIsOwned(inp, 6, i, x);
    NamedIsOwned(inp, 3, i, x);
    NamedIsHeld(inp, i, x);
  }

  /** Without the exhaustive phase a marked bank is still held at the end. */
  lemma MarkedIsHeld(inp: Input, x: nat)
    requires inp.Valid() && !inp.opts.forceAll && Marked(inp, x)
    ensures HeldAtEnd(inp, Final(inp), x)
  {
    if i :| 0 <= i < |inp.rows| && GroupedWith(inp, Stage(inp, 2), i, x) {
      GroupedIsHeld(inp, i, x);
    } else {
      var i :| 0 <= i < |inp.rows| && ScoredWith(inp, i, x);
      ScoredIsHeld(inp, i, x);
    }
  }

  predicate NamedReference(inp: Input, s: State, i: nat) {
    && i < |inp.rows| && Current(s, inp.rows[i]).Some? && Current(s, inp.rows[i]).value.bank.Some?
    && inp.Ref(Current(s, inp.rows[i]).value.bank.value) != ""
  }

  lemma GroupedIsSettled(inp: Input, i: nat, x: nat)
    requires inp.Valid() && i < |inp.rows| && GroupedWith(inp, Stage(inp, 2), i, x)
    ensures Names(Final(inp), inp.rows[i], x) && NamedReference(inp, Final(inp), i)
  {
    Cert.StageCertified(inp, 2);
    assert Cert.CertifiedAt(inp, Stage(inp, 2), inp.rows[i]);
    ResultsEvolve(inp, 2, 6);
    assert EvolvesAt(inp, Stage(inp, 2), Final(inp), inp.rows[i]);
  }

  lemma ScoredHasReference(inp: Input, i: nat, x: nat)
    requires inp.Valid() && i < |inp.rows| && ScoredWith(inp, i, x)
    ensures NamedReference(inp, Stage(inp, 3), i)
  {
    if inp.Preserved(inp.rows[i]) {
      PreservedIsFixed(inp, i, 2);
    }
    StageInv(inp, 3);
    assert SoundAt(inp, Stage(inp, 3), i);
  }

  /** The list names exactly the banks that no row holds. */
  ghost predicate ListIsComplement(inp: Input)
    requires inp.Valid()
  {
    forall b | inp.Owns(b) :: b in UnmatchedBanks(inp, Final(inp).used) <==> !HeldAtEnd(inp, Final(inp), b.index)
  }

  /** So with many-to-one the list names the unmarked banks. It is the complement of the held ones precisely when
      marked and held banks coincide; without the exhaustive phase, precisely when every held bank is marked. */
  lemma SharedListIsComplement(inp: Input)
    requires inp.Valid() && inp.opts.allowManyToOne
    ensures forall b | inp.Owns(b) :: b in UnmatchedBanks(inp, Final(inp).used) <==> !Marked(inp, b.index)
    ensures ListIsComplement(inp) <==>
      forall b | inp.Owns(b) :: Marked(inp, b.index) <==> HeldAtEnd(inp, Final(inp), b.index)
    ensures !inp.opts.forceAll ==>
      (ListIsComplement(inp) <==>
        forall b | inp.Owns(b) && HeldAtEnd(inp, Final(inp), b.index) :: Marked(inp, b.index))
  {
    forall b | inp.Owns(b)
      ensures b in UnmatchedBanks(inp, Final(inp).used) <==> !Marked(inp, b.index)
      ensures !inp.opts.forceAll && Marked(inp, b.index) ==> HeldAtEnd(inp, Final(inp), b.index)
    {
      InFilter(inp.banks, Unlisted(Final(inp).used));
      SharedUse(inp, b.index);
      if !inp.opts.forceAll && Marked(inp, b.index) {
        MarkedIsHeld(inp, b.index);
      }
    }
  }
}
