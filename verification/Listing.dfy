/** The list of unmatched banks: banks that rows let go, and the list when one bank may serve many rows. */
module Listing {
  import opened Basics
  import opened Ledger
  import opened Scoring
  import opened Phases
  import opened Invariants
  import opened Guarantees
  import opened Coverage
  import Cert = Certificates
  import Sharing
  import Out = Outcomes
  import RM = ReferenceMatching

  // ---------------------------------------------------------------- banks let go

  /** No row that is not preserved names the bank. */
  ghost predicate Unheld(inp: Input, s: State, x: nat) {
    forall i: nat :: !HasBank(inp, s, i, x)
  }

  /** No open row but `r` holds the bank. */
  ghost predicate HeldBy(inp: Input, s: State, r: nat, x: nat) {
    forall i: nat | HasBank(inp, s, i, x) :: i == r
  }

  /** The row that held the bank alone lost it, and nobody has taken it since. */
  lemma StaysUnheld(inp: Input, s: State, t: State, r: nat, x: nat)
    requires Sharing.Inherits(inp, s, t) && x in s.used && HeldBy(inp, s, r, x) && !HasBank(inp, t, r, x)
    ensures Unheld(inp, t, x)
  {
    forall i: nat
      ensures !HasBank(inp, t, i, x)
    {
      assert HasBank(inp, t, i, x) ==> HasBank(inp, s, i, x);
    }
  }

  lemma StillUnheld(inp: Input, s: State, t: State, x: nat)
    requires Sharing.Inherits(inp, s, t) && x in s.used && Unheld(inp, s, x)
    ensures Unheld(inp, t, x)
  {
    forall i: nat
      ensures !HasBank(inp, t, i, x)
    {
      assert HasBank(inp, t, i, x) ==> HasBank(inp, s, i, x);
    }
  }

  /** An open row that loses the bank held it alone. */
  lemma LoserHeldAlone(inp: Input, s: State, t: State, r: nat, x: nat)
    requires inp.Valid() && !inp.opts.allowManyToOne && Inv(inp, s) && Evolves(inp, s, t)
    requires HasBank(inp, s, r, x) && !HasBank(inp, t, r, x)
    ensures x in s.used && HeldBy(inp, s, r, x)
  {
    assert EvolvesAt(inp, s, t, inp.rows[r]);
    forall i: nat | HasBank(inp, s, i, x)
      ensures i == r
    {
      if i != r {
        NoOtherHolder(inp, s, r, i, x);
      }
    }
  }

  /** Before a phase that takes a bank from a row, no other open row holds it. */
  lemma SoleHolder(inp: Input, n: nat, r: nat, x: nat)
    requires inp.Valid() && !inp.opts.allowManyToOne && n in {2, 4} && LetsGo(inp, n, r, x)
    ensures x in Stage(inp, n - 1).used && HeldBy(inp, Stage(inp, n - 1), r, x)
    ensures !HasBank(inp, Stage(inp, n), r, x)
  {
    var s, t := Stage(inp, n - 1), Stage(inp, n);
    if inp.Preserved(inp.rows[r]) {
      PreservedIsFixed(inp, r, n - 1);
      PreservedIsFixed(inp, r, n);
    }
    StageInv(inp, n - 1);
    ResultsEvolve(inp, n - 1, n);
    LoserHeldAlone(inp, s, t, r, x);
  }

  lemma GroupsInherit(inp: Input)
    requires inp.Valid() && !inp.opts.allowManyToOne
    ensures Sharing.Inherits(inp, Stage(inp, 1), Stage(inp, 2)) && Stage(inp, 1).used <= Stage(inp, 2).used
  {
    var s := Stage(inp, 1);
    Sharing.GroupSweepInherits(inp, s, |GroupKeys(inp, s, |inp.rows|)|);
  }

  lemma ScoringInherits(inp: Input)
    requires inp.Valid() && !inp.opts.allowManyToOne
    ensures Sharing.Inherits(inp, Stage(inp, 2), Stage(inp, 3)) && Stage(inp, 2).used <= Stage(inp, 3).used
  {
    Sharing.SweepInherits(inp, BestScored, Stage(inp, 2));
  }

  lemma ForcingInherits(inp: Input)
    requires inp.Valid() && !inp.opts.allowManyToOne
    ensures Sharing.Inherits(inp, Stage(inp, 3), Stage(inp, 4)) && Stage(inp, 3).used <= Stage(inp, 4).used
  {
    Sharing.SweepInherits(inp, Exhaustive, Stage(inp, 3));
  }

  /** From the phase that let it go to the rebuild, the bank is used and no open row holds it. */
  lemma UnheldUntilRebuild(inp: Input, n: nat, r: nat, x: nat)
    requires inp.Valid() && !inp.opts.allowManyToOne && n in {2, 4} && LetsGo(inp, n, r, x)
    ensures Unheld(inp, Stage(inp, 4), x)
  {
    SoleHolder(inp, n, r, x);
    if n == 2 {
      var s, t := Stage(inp, 1), Stage(inp, 2);
      GroupsInherit(inp);
      StaysUnheld(inp, s, t, r, x);
      ScoringInherits(inp);
      StillUnheld(inp, t, Stage(inp, 3), x);
      ForcingInherits(inp);
      StillUnheld(inp, Stage(inp, 3), Stage(inp, 4), x);
    } else {
      ForcingInherits(inp);
      StaysUnheld(inp, Stage(inp, 3), Stage(inp, 4), r, x);
    }
  }

  /** No preserved row takes the bank. */
  ghost predicate NotFixed(inp: Input, x: nat)
    requires inp.Valid()
  {
    forall j | 0 <= j < |inp.rows| && inp.Preserved(inp.rows[j]) :: Sharing.FixedBank(inp, j) != Some(x)
  }

  /** At its turn cash row `k` finds the bank, and no other. */
  ghost predicate TakenForCash(inp: Input, k: nat, x: nat)
    requires inp.Valid() && k < |inp.rows| && x < |inp.banks|
  {
    && Current(Stage(inp, 5), inp.rows[k]).Some?
    && Out.Cashes(inp, inp.rows[k], Out.AtCash(inp, k).used, Current(Stage(inp, 5), inp.rows[k]).value, inp.banks[x])
  }

  lemma CashTurn(inp: Input, k: nat, x: nat)
    requires inp.Valid() && k < |inp.rows| && x < |inp.banks| && !Names(Stage(inp, 5), inp.rows[k], x)
    ensures Names(Final(inp), inp.rows[k], x) <==> TakenForCash(inp, k, x)
  {
    Out.CashTurn(inp, k);
  }

  lemma NobodyNames(inp: Input, k: nat, x: nat)
    requires inp.Valid() && k < |inp.rows| && Unheld(inp, Stage(inp, 4), x) && NotFixed(inp, x)
    ensures !Names(Stage(inp, 5), inp.rows[k], x)
  {
    Sharing.RebuiltMatches(inp);
    if inp.Preserved(inp.rows[k]) {
      PreservedIsFixed(inp, k, 5);
    } else {
      assert !HasBank(inp, Stage(inp, 4), k, x);
    }
  }

  /** A bank that no open row holds at the rebuild is on the list at the end exactly if no preserved row takes it and no
      cash row finds it alone at its turn. */
  lemma UnheldIsListed(inp: Input, x: nat)
    requires inp.Valid() && !inp.opts.allowManyToOne && x < |inp.banks| && inp.Ref(inp.banks[x]) != ""
    requires Unheld(inp, Stage(inp, 4), x)
    ensures inp.banks[x] in UnmatchedBanks(inp, Final(inp).used) <==>
      NotFixed(inp, x) && forall k | 0 <= k < |inp.rows| :: !TakenForCash(inp, k, x)
  {
    UnmatchedListIsComplement(inp, inp.banks[x]);
    forall j | 0 <= j < |inp.rows| && inp.Preserved(inp.rows[j]) && Sharing.FixedBank(inp, j) == Some(x)
      ensures HeldAtEnd(inp, Final(inp), x)
    {
      PreservedIsFixed(inp, j, 6);
      NamedIsHeld(inp, j, x);
    }
    if NotFixed(inp, x) {
      forall k | 0 <= k < |inp.rows|
        ensures RowHolds(inp, Final(inp), inp.rows[k], x) ==> TakenForCash(inp, k, x)
        ensures TakenForCash(inp, k, x) ==> HeldAtEnd(inp, Final(inp), x)
      {
        NobodyNames(inp, k, x);
        CashTurn(inp, k, x);
        if TakenForCash(inp, k, x) {
          NamedIsHeld(inp, k, x);
        }
      }
    }
  }

  /** So the outcome for a bank with a reference that a row loses, in the group or in the exhaustive phase: it ends on
      the list unless a preserved row takes it or a cash row finds it alone. */
  lemma ReleasedBankIsListed(inp: Input, n: nat, r: nat, x: nat)
    requires inp.Valid() && !inp.opts.allowManyToOne && 1 <= n <= 5 && LetsGo(inp, n, r, x)
    requires x < |inp.banks| && inp.Ref(inp.banks[x]) != ""
    ensures inp.banks[x] in UnmatchedBanks(inp, Final(inp).used) <==>
      NotFixed(inp, x) && forall k | 0 <= k < |inp.rows| :: !TakenForCash(inp, k, x)
  {
    OnlyTwoPhasesLetGo(inp, n, r, x);
    UnheldUntilRebuild(inp, n, r, x);
    UnheldIsListed(inp, x);
  }

  // ---------------------------------------------------------------- many rows to one bank

  /** A reference or a text links the row to the bank. */
  ghost predicate LinkedTo(inp: Input, ist: Ist, b: Bank) {
    || RM.RefOccurs(inp, if inp.Preserved(ist) then [ist.paymentReference] else ist.directSearchTexts, b)
    || RM.RowTextOccurs(inp, ist.row, b)
  }

  /** Neither a reference nor the cash phase can bring the bank to the row. */
  ghost predicate OnlyBySearch(inp: Input, ist: Ist, b: Bank) {
    !LinkedTo(inp, ist, b) && (IsCashJournal(inp.ev, ist) ==> !Cert.InCashWindow(inp, ist, b))
  }

  lemma FixedIsLinked(inp: Input, j: nat, b: Bank)
    requires inp.Valid() && j < |inp.rows| && inp.Preserved(inp.rows[j])
    requires PreservedMatch(inp, inp.rows[j]).bank == Some(b)
    ensures LinkedTo(inp, inp.rows[j], b)
  {
    var ist := inp.rows[j];
    var found := RM.Find(inp, [ist.paymentReference], ist.row);
    BestDirectIsCandidate(inp, ist, found);
    RM.FindMeaning(inp, [ist.paymentReference], ist.row, b);
  }

  /** A row that holds such a bank at the end had it from its group or from its scoring. */
  lemma HolderMarks(inp: Input, i: nat, b: Bank)
    requires inp.Valid() && !inp.opts.forceAll && i < |inp.rows| && inp.Owns(b)
    requires RowHolds(inp, Final(inp), inp.rows[i], b.index) && OnlyBySearch(inp, inp.rows[i], b)
    ensures Marked(inp, b.index)
  {
    var ist := inp.rows[i];
    Cert.EveryResultIsCertified(inp, i);
    NamedIsOwned(inp, 6, i, b.index);
    NotFromCash(inp, i);
    Cert.ScoredTurn(inp, i);
    if Current(Stage(inp, 2), ist).None? {
      assert ScoredWith(inp, i, b.index);
    } else {
      Cert.EarlyCases(inp, i);
      if inp.Preserved(ist) {
        PreservedIsFixed(inp, i, 6);
        FixedIsLinked(inp, i, b);
      }
      assert GroupedWith(inp, Stage(inp, 2), i, b.index);
    }
  }

  lemma NotFromCash(inp: Input, i: nat)
    requires inp.Valid() && !inp.opts.forceAll && i < |inp.rows| && Current(Final(inp), inp.rows[i]).Some?
    requires Current(Final(inp), inp.rows[i]).value.matchCase != CashJournalMatch
    ensures Current(Stage(inp, 3), inp.rows[i]) == Current(Final(inp), inp.rows[i])
  {
    var s := Stage(inp, 5);
    WithoutForcing(inp);
    AfterItsTurn(inp, Cash, s, i);
    BeforeItsTurn(inp, Cash, s, i);
    Cert.CashStepChanges(inp, Fold(inp.rows, Stepper(inp, Cash), s, i), inp.rows[i]);
  }

  /** With many-to-one and without the exhaustive phase the list is right about every bank that no reference and no cash
      journal leads to. */
  lemma SearchedBankIsListed(inp: Input, b: Bank)
    requires inp.Valid() && inp.opts.allowManyToOne && !inp.opts.forceAll && inp.Owns(b)
    requires forall i | 0 <= i < |inp.rows| :: OnlyBySearch(inp, inp.rows[i], b)
    ensures b in UnmatchedBanks(inp, Final(inp).used) <==> !HeldAtEnd(inp, Final(inp), b.index)
  {
    InFilter(inp.banks, Unlisted(Final(inp).used));
    SharedUse(inp, b.index);
    if Marked(inp, b.index) {
      MarkedIsHeld(inp, b.index);
    }
    if i :| 0 <= i < |inp.rows| && RowHolds(inp, Final(inp), inp.rows[i], b.index) {
      HolderMarks(inp, i, b);
    }
  }

  /** So it is the complement of the held banks on every pair of sheets that no reference and no cash journal link. */
  lemma SearchedListIsComplement(inp: Input)
    requires inp.Valid() && inp.opts.allowManyToOne && !inp.opts.forceAll
    requires forall i, b | 0 <= i < |inp.rows| && inp.Owns(b) :: OnlyBySearch(inp, inp.rows[i], b)
    ensures ListIsComplement(inp)
  {
    forall b | inp.Owns(b)
      ensures b in UnmatchedBanks(inp, Final(inp).used) <==> !HeldAtEnd(inp, Final(inp), b.index)
    {
      SearchedBankIsListed(inp, b);
    }
  }
}
