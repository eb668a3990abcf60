/** The engine's criteria told in the cells and figures of the two sheets, apart from the tests the phases run: each
    lemma says that a test of a phase amounts to its criterion. */
module Criteria {
  import opened Basics
  import opened Ledger
  import opened Scoring
  import opened Phases
  import Aliases
  import Automaton

  // ---------------------------------------------------------------- amounts and references

  /** Of two amounts the smaller comes close to the larger itself, or to what a deduction of 1% or 2% leaves of it. */
  predicate CloseAmounts(opts: Options, low: real, high: real) {
    || high - low <= opts.amountTolerance
    || (high - low <= opts.amountToleranceCap && high - low <= high * opts.amountTolerancePercent)
    || (high * 0.99 - opts.amountTolerance <= low <= high * 0.99 + opts.amountTolerance)
    || (high * 0.98 - opts.amountTolerance <= low <= high * 0.98 + opts.amountTolerance)
  }

  /** Six comparisons come to four: deducting from the smaller amount never helps. */
  lemma AmountMatchMeaning(opts: Options, x: real, y: real)
    requires x >= 0.0 && y >= 0.0
    ensures AmountMatched(opts, x, y) <==> CloseAmounts(opts, Min(x, y), Max(x, y))
  {
    AmountMatchIsSymmetric(opts, x, y);
    OrderedAmounts(opts, Min(x, y), Max(x, y));
  }

  lemma OrderedAmounts(opts: Options, x: real, y: real)
    requires 0.0 <= x <= y
    ensures AmountMatched(opts, x, y) <==> CloseAmounts(opts, x, y)
  {
    assert Abs(x * 0.99 - y) == y - x * 0.99 >= y - x;
    assert Abs(x * 0.98 - y) == y - x * 0.98 >= y - x;
  }

  /** A text that counts as a reference: of the five words, four letters suffice to tell the first two. */
  predicate IsReference(c: string) {
    |c| >= 4 && (exists i | 0 <= i < |c| :: c[i] != '0') && c !in {"none", "null", "undefined", "nonref", "noref"}
  }

  lemma ReferenceMeaning(ev: Evidence, text: string)
    ensures NormalizeReference(ev, text) == (if IsReference(ev.compact(text)) then ev.compact(text) else "")
  {
    assert |"na"| == 2;
  }

  lemma PreservedMeaning(inp: Input, ist: Ist)
    ensures inp.Preserved(ist) <==> IsReference(inp.ev.compact(ist.paymentReference))
  {
    ReferenceMeaning(inp.ev, ist.paymentReference);
  }

  /** The code of a cash register or safe: one of nine names, alone or followed by a hyphen. */
  lemma PettyCashMeaning(code: string)
    ensures IsPettyCashAccount(code) <==> exists p ::
      p in ["PSD-", "AIRPORT-", "DMT-", "ALEXSUB-", "ALEXHO-", "MERGHEM-", "POS-", "CCC-", "TR-SKHN-"] && p <= code + "-"
  {
    var names := ["PSD-", "AIRPORT-", "DMT-", "ALEXSUB-", "ALEXHO-", "MERGHEM-", "POS-", "CCC-", "TR-SKHN-"];
    assert |names| == |PETTY_CASH_PREFIXES|;
    forall i | 0 <= i < |names|
      ensures names[i] == PETTY_CASH_PREFIXES[i] + "-"
      ensures names[i] <= code + "-" <==> (code == PETTY_CASH_PREFIXES[i] || PETTY_CASH_PREFIXES[i] + "-" <= code)
    {
      HyphenPrefix(PETTY_CASH_PREFIXES[i], code);
    }
    if IsPettyCashAccount(code) {
      var i :| 0 <= i < |names| && (code == PETTY_CASH_PREFIXES[i] || PETTY_CASH_PREFIXES[i] + "-" <= code);
      assert names[i] in names && names[i] <= code + "-";
    }
    if p :| p in names && p <= code + "-" {
      var i :| 0 <= i < |names| && names[i] == p;
      assert PETTY_CASH_PREFIXES[i] in PETTY_CASH_PREFIXES;
    }
  }

  lemma HyphenPrefix(p: string, code: string)
    ensures p + "-" <= code + "-" <==> code == p || p + "-" <= code
  {
    var q, c := p + "-", code + "-";
    if q <= c {
      if |q| == |c| {
        assert p == q[..|p|] == c[..|p|] == code;
      } else {
        assert q == c[..|q|] == code[..|q|];
      }
    }
  }

  /** Texts are joined with one blank between any two neighbours. */
  lemma {:induction false} JoinAdds(xs: seq<string>, ys: seq<string>)
    requires |xs| > 0 && |ys| > 0
    ensures Join(xs + ys) == Join(xs) + " " + Join(ys)
    ensures |xs| == 1 ==> Join(xs) == xs[0]
  {
    var n := |ys| - 1;
    assert (xs + ys)[..|xs| + n] == xs + ys[..n];
    if n > 0 {
      JoinAdds(xs, ys[..n]);
      assert Join(xs + ys) == (Join(xs) + " " + Join(ys[..n])) + " " + ys[n];
    } else {
      assert ys == [ys[0]] && xs + ys[..n] == xs;
    }
  }

  /** Journal name and description are read as one text, and so are cash flow and description of a bank row. */
  lemma CashTextMeaning(ev: Evidence, ist: Ist, b: Bank, d: Direction)
    ensures IsCashJournal(ev, ist) <==> ev.cashJournal(ev.normalizeText(Join([ist.journalName, ist.description])))
    ensures IsCashLikeBank(ev, b, d) <==> ev.cashLike(ev.normalizeText(Join([b.cashFlow, b.description])), d)
  {
    JoinAdds([ist.journalName], [ist.description]);
    JoinAdds([b.cashFlow], [b.description]);
    assert [ist.journalName] + [ist.description] == [ist.journalName, ist.description];
    assert [b.cashFlow] + [b.description] == [b.cashFlow, b.description];
  }

  // ---------------------------------------------------------------- conditions on a row and a bank

  /** The bank has a reference, and the two agree in amount and direction. */
  predicate MoneyFits(inp: Input, ist: Ist, b: Bank) {
    && inp.Ref(b) != ""
    && ist.amount.Some? && b.amount.Some? && AmountMatched(inp.opts, ist.amount.value, b.amount.value)
    && ist.direction.Some? && b.direction.Some? && ist.direction.value == b.direction.value
  }

  /** The currencies do not contradict each other. */
  predicate CurrencyFits(ist: Ist, b: Bank) {
    ist.currency != "" && b.currency != "" ==> ist.currency == b.currency
  }

  /** The row's client resembles the bank row's client or its description by at least `x`. */
  predicate ClientFits(ev: Evidence, ist: Ist, b: Bank, x: real) {
    ev.similarity(ist.partyText, b.partyText) >= x || ev.similarity(ist.partyText, b.description) >= x
  }

  lemma ClientMeaning(ev: Evidence, ist: Ist, b: Bank, x: real)
    ensures PartyScore(ev, ist, b) >= x <==> ClientFits(ev, ist, b, x)
  {
  }

  /** One of the bank's two dates lies within `n` days of the row's; without a date on either side the gap counts as
      ten years. */
  predicate TimeFits(ist: Ist, b: Bank, n: nat) {
    if ist.epochDay.Some? && (b.epochDay.Some? || b.valueEpochDay.Some?) then WithinDays(b, ist.epochDay.value, n)
    else n >= 3650
  }

  lemma TimeMeaning(ist: Ist, b: Bank, n: nat)
    ensures DateDifference(ist, b) <= n <==> TimeFits(ist, b, n)
  {
  }

  /** A cash journal on the account of a cash register or safe. */
  predicate OfRegister(ev: Evidence, ist: Ist) {
    IsPettyCashAccount(ist.accountCode) && IsCashJournal(ev, ist)
  }

  /** The test of the narrow search, apart from the days. */
  predicate NarrowFits(inp: Input, ist: Ist, b: Bank) {
    var account := inp.ev.accountScore(ist.accountCode, b.accountCode);
    && MoneyFits(inp, ist, b) && CurrencyFits(ist, b)
    && (|| account >= 0.75
        || (account >= 0.3 && !OfRegister(inp.ev, ist))
        || ClientFits(inp.ev, ist, b, 0.3)
        || inp.ev.referenceScore(ist, b) >= 0.75)
  }

  lemma NarrowMeaning(inp: Input, ist: Ist, b: Bank)
    ensures ScoredAccepts(inp, ist, b) <==> NarrowFits(inp, ist, b)
  {
    ClientMeaning(inp.ev, ist, b, 0.3);
  }

  /** Client or reference speak for the bank in the 30-day search. */
  predicate Evident(inp: Input, ist: Ist, b: Bank) {
    || inp.ev.referenceScore(ist, b) >= 0.75
    || (ist.partyText != "" && b.partyText != "" && ClientFits(inp.ev, ist, b, 0.2))
  }

  lemma EvidentMeaning(inp: Input, ist: Ist, b: Bank)
    ensures FallbackEvidence(inp, ist, b) <==> Evident(inp, ist, b)
    ensures SameMoney(inp, ist, b) <==> MoneyFits(inp, ist, b)
  {
    ClientMeaning(inp.ev, ist, b, 0.2);
  }

  /** The test of the cash search, apart from the days. */
  predicate CashFits(inp: Input, ist: Ist, b: Bank) {
    && MoneyFits(inp, ist, b) && CurrencyFits(ist, b)
    && inp.ev.cashLike(inp.ev.normalizeText(b.cashFlow + " " + b.description), ist.direction.value)
    && (!IsPettyCashAccount(ist.accountCode) || b.accountCode == ""
        || inp.ev.accountScore(ist.accountCode, b.accountCode) >= 0.75)
  }

  lemma CashMeaning(inp: Input, ist: Ist, b: Bank)
    ensures CashAccepts(inp, ist, b) <==> CashFits(inp, ist, b)
  {
  }

  // ---------------------------------------------------------------- groups

  /** The sum of the rows' amounts, a missing one counting nothing. */
  function Sum(rows: seq<Ist>): real {
    if |rows| == 0 then 0.0 else (if rows[0].amount.Some? then rows[0].amount.value else 0.0) + Sum(rows[1..])
  }

  lemma {:induction false} TotalAdds(rows: seq<Ist>, more: seq<Ist>)
    ensures Total(rows + more) == Total(rows) + Total(more)
    ensures |rows| == 1 && rows[0].amount.Some? ==> Total(rows) == rows[0].amount.value
  {
    if |more| == 0 {
      assert rows + more == rows;
    } else {
      var n := |more| - 1;
      assert (rows + more)[..|rows| + n] == rows + more[..n];
      TotalAdds(rows, more[..n]);
    }
    if |rows| == 1 {
      assert rows[..0] == [];
    }
  }

  lemma {:induction false} TotalIsSum(rows: seq<Ist>)
    ensures Total(rows) == Sum(rows)
  {
    if |rows| > 0 {
      var first := rows[..1];
      assert rows == first + rows[1..];
      TotalAdds(first, rows[1..]);
      TotalIsSum(rows[1..]);
      assert first[..0] == [];
    }
  }

  lemma {:induction false} BestReferenceMeaning(ev: Evidence, group: seq<Ist>, b: Bank, x: real)
    requires |group| > 0
    ensures BestReference(ev, group, b) >= x <==> exists r | r in group :: ev.referenceScore(r, b) >= x
  {
    var n := |group| - 1;
    assert group[n] in group;
    if n > 0 {
      BestReferenceMeaning(ev, group[..n], b, x);
      assert group == group[..n] + [group[n]];
    } else {
      assert group == [group[0]];
    }
  }

  /** The test of the group search, apart from the days: the first row stands for the group in all but the amount, the
      text and the references. */
  ghost predicate GroupFits(inp: Input, group: seq<Ist>, b: Bank)
    requires |group| > 0
  {
    var first := group[0];
    && inp.Ref(b) != ""
    && b.amount.Some? && AmountMatched(inp.opts, Sum(group), b.amount.value)
    && b.direction == first.direction && CurrencyFits(first, b)
    && (|| inp.ev.accountScore(first.accountCode, b.accountCode) >= 0.3
        || ClientFits(inp.ev, first, b, 0.2)
        || inp.ev.similarity(Join(seq(|group|, i requires 0 <= i < |group| => group[i].searchText)), b.searchText) >= 0.18
        || exists r | r in group :: inp.ev.referenceScore(r, b) >= 0.75)
  }

  lemma GroupMeaning(inp: Input, group: seq<Ist>, b: Bank)
    requires |group| > 0
    ensures GroupAccepts(inp, group, b) <==> GroupFits(inp, group, b)
  {
    TotalIsSum(group);
    ClientMeaning(inp.ev, group[0], b, 0.2);
    BestReferenceMeaning(inp.ev, group, b, 0.75);
    assert Map(group, (r: Ist) => r.searchText) == seq(|group|, i requires 0 <= i < |group| => group[i].searchText);
  }

  // ---------------------------------------------------------------- the three tiers

  /** Row `i` has a reference and code `a`, and bank `j` carries that reference under code `c`. */
  predicate Paired(inp: Input, a: string, c: string, i: nat, j: nat) {
    && i < |inp.rows| && j < |inp.banks|
    && inp.Preserved(inp.rows[i]) && inp.rows[i].accountCode == a != ""
    && inp.Ref(inp.banks[j]) == NormalizeReference(inp.ev, inp.rows[i].paymentReference)
    && inp.banks[j].accountCode == c != ""
  }

  /** The bank's code is the row's own, or one that goes with it in two pairs of a row and a bank. */
  ghost predicate CodeFits(inp: Input, ist: Ist, b: Bank) {
    || ist.accountCode == b.accountCode != ""
    || exists i: nat, j: nat, k: nat, l: nat ::
         && Paired(inp, ist.accountCode, b.accountCode, i, j) && Paired(inp, ist.accountCode, b.accountCode, k, l)
         && (i != k || j != l)
  }

  lemma PairsMeaning(inp: Input, a: string, c: string, i: nat, j: nat)
    ensures (i, j) in Aliases.Pairs(inp, a, c, |inp.rows|) <==> Paired(inp, a, c, i, j)
  {
  }

  lemma TwoPairs(pairs: set<(nat, nat)>)
    ensures |pairs| >= 2 <==> exists p, q :: p in pairs && q in pairs && p != q
  {
    if p, q :| p in pairs && q in pairs && p != q {
      assert {p, q} <= pairs && |{p, q}| == 2;
      SubsetSize({p, q}, pairs);
    }
    if |pairs| >= 2 {
      var p :| p in pairs;
      assert |pairs - {p}| >= 1;
      var q :| q in pairs - {p};
      assert p in pairs && q in pairs && p != q;
    }
  }

  lemma {:induction false} SubsetSize(small: set<(nat, nat)>, big: set<(nat, nat)>)
    requires small <= big
    ensures |small| <= |big|
  {
    assert big == small + (big - small);
  }

  /** The codes that the exhaustive phase accepts for a row. */
  lemma CodesMeaning(inp: Input, ist: Ist, b: Bank)
    requires b in inp.banks
    ensures b.accountCode in CompatibleCodes(inp, ist) <==> CodeFits(inp, ist, b)
  {
    var a, c := ist.accountCode, b.accountCode;
    var pairs := Aliases.Pairs(inp, a, c, |inp.rows|);
    forall i: nat, j: nat
      ensures (i, j) in pairs <==> Paired(inp, a, c, i, j)
    {
      PairsMeaning(inp, a, c, i, j);
    }
    TwoPairs(pairs);
    if |pairs| >= 2 {
      var p, q :| p in pairs && q in pairs && p != q;
      assert Paired(inp, a, c, p.0, p.1) && Paired(inp, a, c, q.0, q.1);
    }
    if i: nat, j: nat, k: nat, l: nat :| Paired(inp, a, c, i, j) && Paired(inp, a, c, k, l) && (i != k || j != l) {
      assert (i, j) in pairs && (k, l) in pairs && (i, j) != (k, l);
    }
    if |pairs| >= 1 {
      var p :| p in pairs;
      assert Paired(inp, a, c, p.0, p.1);
    }
  }

  /** First tier: money, currency and account. */
  ghost predicate AccountTier(inp: Input, ist: Ist, b: Bank) {
    MoneyFits(inp, ist, b) && CurrencyFits(ist, b) && CodeFits(inp, ist, b)
  }

  /** Second tier: money, currency, and a date, reference, client, text or account that speaks for the bank. */
  predicate EvidenceTier(inp: Input, ist: Ist, b: Bank) {
    && MoneyFits(inp, ist, b) && CurrencyFits(ist, b)
    && (|| TimeFits(ist, b, 7) || TimeFits(ist, b, inp.opts.toleranceDays)
        || inp.ev.referenceScore(ist, b) >= 0.75
        || ClientFits(inp.ev, ist, b, 0.2)
        || inp.ev.similarity(ist.searchText, b.searchText) >= 0.18
        || inp.ev.accountScore(ist.accountCode, b.accountCode) >= 0.25)
  }

  /** A word of the client's name that tells it from others. */
  function Distinctive(): string -> bool {
    (t: string) => t !in ["egypt", "misr", "company", "co", "sae", "s.a.e"]
  }

  /** At least half of the client's distinctive words occur among the words of the bank's client and description. */
  predicate HalfNamed(ev: Evidence, ist: Ist, b: Bank) {
    var words := Filter(ev.terms(ist.partyText), Distinctive());
    var heard := ev.terms(b.partyText + " " + b.description);
    0 < |words| <= 2 * |Filter(words, t => t in heard)|
  }

  predicate MissesBy(amount: real, other: real) {
    var miss := Abs(amount - other);
    miss <= 500.0 && (miss <= 10.0 || miss <= amount * 0.005)
  }

  /** Third tier: an amount that misses by at most 10, or by half a percent but no more than 500, within 14 days, with
      account and name or reference behind it. */
  ghost predicate NearbyTier(inp: Input, ist: Ist, b: Bank) {
    var account := inp.ev.accountScore(ist.accountCode, b.accountCode);
    var reference := inp.ev.referenceScore(ist, b);
    && inp.Ref(b) != "" && ist.amount.Some? && b.amount.Some? && ist.direction.Some? && b.direction == ist.direction
    && CurrencyFits(ist, b)
    && !AmountMatched(inp.opts, ist.amount.value, b.amount.value)
    && MissesBy(ist.amount.value, b.amount.value)
    && (TimeFits(ist, b, 14) || TimeFits(ist, b, inp.opts.toleranceDays))
    && (account >= 0.75 || CodeFits(inp, ist, b) || (account >= 0.25 && reference >= 0.75))
    && (reference >= 0.75 || HalfNamed(inp.ev, ist, b) || ClientFits(inp.ev, ist, b, 0.45))
  }

  lemma TellingMeaning(ev: Evidence, text: string)
    ensures Telling(ev, text) == Filter(ev.terms(text), Distinctive())
  {
    forall t | t in ev.terms(text)
      ensures t !in IGNORED_TERMS <==> Distinctive()(t)
    {
    }
    FilterCongruent(ev.terms(text), t => t !in IGNORED_TERMS, Distinctive());
  }

  lemma CoverageMeaning(ev: Evidence, ist: Ist, b: Bank)
    ensures ClientCoverage(ev, ist.partyText, b.partyText + " " + b.description) >= 0.5 <==> HalfNamed(ev, ist, b)
  {
    TellingMeaning(ev, ist.partyText);
    var words := Telling(ev, ist.partyText);
    var heard := ev.terms(b.partyText + " " + b.description);
    if |words| > 0 {
      HalfMeaning(|Filter(words, t => t in heard)|, |words|);
    }
  }

  lemma HalfMeaning(part: nat, whole: nat)
    requires whole > 0
    ensures part as real / whole as real >= 0.5 <==> whole <= 2 * part
  {
    var q := part as real / whole as real;
    assert q * whole as real == part as real;
    if q >= 0.5 {
      assert q * whole as real >= 0.5 * whole as real;
    } else {
      assert q * whole as real < 0.5 * whole as real;
    }
  }

  lemma AccountTierMeaning(inp: Input, ist: Ist, b: Bank)
    requires b in inp.banks
    ensures ForcedTier(inp, ist, CompatibleCodes(inp, ist), b) <==> AccountTier(inp, ist, b)
  {
    CodesMeaning(inp, ist, b);
  }

  lemma EvidenceTierMeaning(inp: Input, ist: Ist, b: Bank)
    ensures DescriptionTier(inp, ist, b) <==> EvidenceTier(inp, ist, b)
  {
    ClientMeaning(inp.ev, ist, b, 0.2);
    TimeMeaning(ist, b, MaxNat(inp.opts.toleranceDays, 7));
  }

  lemma NearbyTierMeaning(inp: Input, ist: Ist, b: Bank)
    requires b in inp.banks
    ensures NearTier(inp, ist, CompatibleCodes(inp, ist), b) <==> NearbyTier(inp, ist, b)
  {
    CodesMeaning(inp, ist, b);
    ClientMeaning(inp.ev, ist, b, 0.45);
    CoverageMeaning(inp.ev, ist, b);
    TimeMeaning(ist, b, MaxNat(inp.opts.toleranceDays, 14));
  }

  // ---------------------------------------------------------------- rankings

  /** What direct links and groups compare first: a point each for amount and direction, the account and the date. */
  function FourScores(inp: Input, ist: Ist, b: Bank): real {
    (if ist.amount.Some? && b.amount.Some? && AmountMatched(inp.opts, ist.amount.value, b.amount.value) then 1.0 else 0.0)
    + (if ist.direction.Some? && b.direction == ist.direction then 1.0 else 0.0)
    + inp.ev.accountScore(ist.accountCode, b.accountCode)
    + DateScore(inp.opts, ist, b)
  }

  /** Position `i` of the list has the highest of the four scores together; among those the highest candidate score;
      among those the first place. */
  ghost predicate BestPlaced(inp: Input, ist: Ist, candidates: seq<Bank>, i: nat)
    requires i < |candidates|
  {
    forall j | 0 <= j < |candidates| && j != i :: Outplaces(inp, ist, candidates, i, j)
  }

  predicate Outplaces(inp: Input, ist: Ist, candidates: seq<Bank>, i: nat, j: nat)
    requires i < |candidates| && j < |candidates|
  {
    var b, c := candidates[i], candidates[j];
    var x, y := ScoreCandidate(inp, ist, b).score, ScoreCandidate(inp, ist, c).score;
    || FourScores(inp, ist, b) > FourScores(inp, ist, c)
    || (FourScores(inp, ist, b) == FourScores(inp, ist, c) && (x > y || (x == y && i < j)))
  }

  /** Some place in the list is the best one and has bank `b`. */
  ghost predicate IsBestPlaced(inp: Input, ist: Ist, candidates: seq<Bank>, b: Bank) {
    exists i: nat | i < |candidates| :: candidates[i] == b && BestPlaced(inp, ist, candidates, i)
  }

  lemma DirectChoiceMeaning(inp: Input, ist: Ist, candidates: seq<Bank>)
    ensures BestDirect(inp, ist, candidates).None? <==> |candidates| == 0
    ensures |candidates| > 0 ==> IsBestPlaced(inp, ist, candidates, BestDirect(inp, ist, candidates).value)
  {
    if |candidates| > 0 {
      var key := ByDirectRank(inp, ist);
      var i := Foremost(candidates, key);
      ForemostIsBest(candidates, key);
      forall j | 0 <= j < |candidates| && j != i
        ensures Outplaces(inp, ist, candidates, i, j)
      {
        assert !Below(key(candidates[i]), key(candidates[j]));
        assert j < i ==> Below(key(candidates[j]), key(candidates[i]));
      }
      assert BestPlaced(inp, ist, candidates, i);
    }
  }

  /** The fallback tiers rank by score, then by the smaller difference in amount, then by the fewer days, and last by the
      place in the sheet. */
  predicate RanksBefore(ev: Evidence, ist: Ist, b: Bank, c: Bank) {
    var x, y := ForcedScore(ev, ist, b), ForcedScore(ev, ist, c);
    var p, q := AmountDifference(ist, b), AmountDifference(ist, c);
    var d, e := DateDifference(ist, b), DateDifference(ist, c);
    x > y || (x == y && (p < q || (p == q && (d < e || (d == e && b.index <= c.index)))))
  }

  /** The substring test of the direct rules is the one the matcher decides. */
  lemma ContainsMeaning(text: string, part: string)
    ensures Contains(text, part) <==> Automaton.OccursIn(part, text)
  {
    if Contains(text, part) {
      var i :| 0 <= i <= |text| && OccursAt(text, part, i);
      assert text[..i + |part|][i..] == text[i..][..|part|] == part;
      assert Automaton.Suffix(part, text[..i + |part|]);
    }
    if Automaton.OccursIn(part, text) {
      var n :| 0 <= n <= |text| && Automaton.Suffix(part, text[..n]);
      var i := n - |part|;
      assert text[i..][..|part|] == text[..n][i..] == part;
      assert OccursAt(text, part, i);
    }
  }

  // ---------------------------------------------------------------- scores

  /** Every text measure lies between 0 and 1, as a share does. */
  ghost predicate Shares(ev: Evidence) {
    && (forall t: string, u: string :: 0.0 <= ev.similarity(t, u) <= 1.0)
    && (forall t: string, u: string :: 0.0 <= ev.accountScore(t, u) <= 1.0)
    && (forall ist: Ist, b: Bank :: 0.0 <= ev.referenceScore(ist, b) <= 1.0)
  }

  /** The date score steps down with the days: the same day, two days, the tolerance. */
  lemma DateScoreSteps(opts: Options, ist: Ist, b: Bank)
    ensures DateScore(opts, ist, b) ==
      if ist.epochDay.None? || !WithinDays(b, ist.epochDay.value, opts.toleranceDays) then 0.0
      else if WithinDays(b, ist.epochDay.value, 0) then 1.0
      else if WithinDays(b, ist.epochDay.value, 2) then 0.85
      else 0.75
  {
  }

  /** A candidate's score falls short of 1 by what its measures lack, each by its weight; the weights add up to 1. A
      reference of the bank among the row's tokens makes up for 0.05 of it. */
  lemma ScoreShortfall(inp: Input, ist: Ist, b: Bank)
    requires Shares(inp.ev)
    ensures var c := ScoreCandidate(inp, ist, b);
      var short := 0.30 * (1.0 - c.amountScore) + 0.18 * (1.0 - c.dateScore) + 0.13 * (1.0 - c.accountScore)
        + 0.10 * (1.0 - c.directionScore) + 0.12 * (1.0 - c.referenceScore) + 0.09 * (1.0 - c.descriptionScore)
        + 0.08 * (1.0 - c.partyScore);
      var hinted := inp.Ref(b) != "" && Contains(inp.ev.normalizeText(ist.hintText), inp.Ref(b));
      && 0.0 <= short <= 1.0
      && c.score == 1.0 - (if !hinted then short else if short < 0.05 then 0.0 else short - 0.05)
  {
    var c := ScoreCandidate(inp, ist, b);
    DateScoreSteps(inp.opts, ist, b);
    BlankHasNothing(inp.Ref(b));
    assert 0.0 <= c.partyScore <= 1.0 && 0.0 <= c.descriptionScore <= 1.0;
  }

  lemma BlankHasNothing(ref: string)
    ensures ref != "" ==> !Contains("", ref)
  {
  }

  /** The seven measures of a candidate are what they are called. */
  lemma MeasuresMeaning(inp: Input, ist: Ist, b: Bank)
    ensures var c := ScoreCandidate(inp, ist, b);
      && c.bank == b
      && c.amountScore + c.directionScore + c.accountScore + c.dateScore == FourScores(inp, ist, b)
      && c.amountScore in {0.0, 1.0} && c.directionScore in {0.0, 1.0}
      && (c.amountScore == 1.0 && c.directionScore == 1.0 && inp.Ref(b) != "" <==> MoneyFits(inp, ist, b))
      && c.accountScore == inp.ev.accountScore(ist.accountCode, b.accountCode)
      && c.referenceScore == inp.ev.referenceScore(ist, b)
      && c.descriptionScore == inp.ev.similarity(ist.searchText, b.searchText)
      && forall x: real :: c.partyScore >= x <==> ClientFits(inp.ev, ist, b, x)
  {
    forall x: real
      ensures PartyScore(inp.ev, ist, b) >= x <==> ClientFits(inp.ev, ist, b, x)
    {
      ClientMeaning(inp.ev, ist, b, x);
    }
  }

  /** One kind of evidence is enough for a match: an account, a reference, a description or a client. The source's first
      test of the evidence, which counts the exact day too, never decides. */
  lemma EvidenceMeaning(opts: Options, c: Scored)
    ensures Convinces(opts, c) <==>
      && c.score >= opts.confidenceThreshold && c.amountScore == 1.0 && c.directionScore == 1.0
      && (c.accountScore >= 0.8 || c.referenceScore >= 0.75 || c.descriptionScore >= 0.3 || c.partyScore >= 0.3)
  {
  }

  /** The forced score before it is cut off falls short of 1.10: by 0.45 for the amount, halved at a twelfth of the
      larger amount, by 0.25 for the date, halved after a week, and by the weights of what else is lacking. */
  lemma ForcedShortfall(ev: Evidence, ist: Ist, b: Bank)
    ensures var r, d := RelativeDifference(ist, b), DateDifference(ist, b) as real;
      && 1.0 + 12.0 * r > 0.0
      && 1.10 - ForcedSum(ev, ist, b) ==
        0.45 * (12.0 * r / (1.0 + 12.0 * r)) + 0.25 * (d / (7.0 + d))
        + 0.12 * (1.0 - ev.referenceScore(ist, b)) + 0.12 * (1.0 - PartyScore(ev, ist, b))
        + 0.06 * (1.0 - ev.similarity(ist.searchText, b.searchText))
        + (if ist.direction == b.direction then 0.0 else 0.10)
  {
    var r, d := RelativeDifference(ist, b), DateDifference(ist, b) as real;
    Complement(1.0, 12.0 * r);
    Complement(7.0, d);
    assert 1.0 / (1.0 + d / 7.0) == 7.0 / (7.0 + d);
  }

  lemma Complement(whole: real, part: real)
    requires whole > 0.0 && part >= 0.0
    ensures whole / (whole + part) == 1.0 - part / (whole + part)
  {
    var sum := whole + part;
    assert sum / sum == 1.0 && sum / sum == whole / sum + part / sum;
  }

  /** The differences in money: relative to the larger amount, but at least to 1; a missing amount is as far off as a
      number can be. */
  lemma DifferenceMeaning(ist: Ist, b: Bank)
    ensures ist.amount.Some? && b.amount.Some? && ist.amount.value >= 1.0 && b.amount.value >= 1.0 ==>
      RelativeDifference(ist, b) == 1.0 - Min(ist.amount.value, b.amount.value) / Max(ist.amount.value, b.amount.value)
    ensures ist.amount.Some? && b.amount.Some? && 0.0 <= ist.amount.value <= 1.0 && 0.0 <= b.amount.value <= 1.0 ==>
      RelativeDifference(ist, b) == Max(ist.amount.value, b.amount.value) - Min(ist.amount.value, b.amount.value)
    ensures ist.amount.None? || b.amount.None? ==> AmountDifference(ist, b) == 9007199254740991.0
  {
    if ist.amount.Some? && b.amount.Some? && ist.amount.value >= 1.0 && b.amount.value >= 1.0 {
      var low, high := Min(ist.amount.value, b.amount.value), Max(ist.amount.value, b.amount.value);
      assert high / high == 1.0;
      assert RelativeDifference(ist, b) == (high - low) / high;
      assert (high - low) / high == high / high - low / high;
    }
  }
}
