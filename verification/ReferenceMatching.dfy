/** Which bank transactions refer to an IST row by reference: the bank reference occurs in one of the row's
    texts, or one of the row's texts occurs in the bank row. */
module ReferenceMatching {
  import opened Basics
  import opened Ledger
  import opened Automaton

  // ---------------------------------------------------------------- patterns and texts

  predicate AllDigits(text: string) {
    forall i | 0 <= i < |text| :: '0' <= text[i] <= '9'
  }

  /** Long enough to be searched for: four characters, five when they are all digits. */
  predicate Searchable(compact: string) {
    |compact| >= 4 && !(AllDigits(compact) && |compact| < 5)
  }

  function BankPatterns(inp: Input, n: nat): seq<Pattern>
    requires n <= |inp.banks|
  {
    if n == 0 then [] else
    var b := inp.banks[n - 1];
    BankPatterns(inp, n - 1) + if |inp.Ref(b)| >= 4 then [Pattern(inp.Ref(b), b.index)] else []
  }

  function RowPatterns(ev: Evidence, ist: Ist, n: nat): seq<Pattern>
    requires n <= |ist.directSearchTexts|
  {
    if n == 0 then [] else
    var compact := ev.compact(ist.directSearchTexts[n - 1]);
    RowPatterns(ev, ist, n - 1) + if Searchable(compact) then [Pattern(compact, ist.row)] else []
  }

  function IstPatterns(inp: Input, n: nat): seq<Pattern>
    requires n <= |inp.rows|
  {
    if n == 0 then [] else
    var ist := inp.rows[n - 1];
    IstPatterns(inp, n - 1) + RowPatterns(inp.ev, ist, |ist.directSearchTexts|)
  }

  function Compacted(ev: Evidence, texts: seq<string>): seq<string> {
    Map(texts, t => ev.compact(t))
  }

  function BankTexts(inp: Input, b: Bank): seq<string> {
    Filter([inp.Ref(b), b.description, b.customerReference, b.dynamicsEntry, b.partyText, b.supplierBeneficiary],
           t => t != "")
  }

  /** One of the row's search texts occurs in the bank row. */
  ghost predicate MentionsRow(inp: Input, row: nat, b: Bank) {
    exists t | t in Compacted(inp.ev, BankTexts(inp, b)) :: MentionedIn(IstPatterns(inp, |inp.rows|), t, row)
  }

  ghost function RowMentioned(inp: Input, row: nat): Bank -> bool {
    b => MentionsRow(inp, row, b)
  }

  ghost function BanksAt(inp: Input, ids: seq<nat>): seq<Bank>
    requires forall i | i in ids :: i < |inp.banks|
  {
    seq(|ids|, k requires 0 <= k < |ids| => assert ids[k] in ids; inp.banks[ids[k]])
  }

  /** Numbers of the banks whose reference occurs in the texts. */
  function RefHits(inp: Input, compacted: seq<string>): seq<nat> {
    Dedupe<nat>(AllHits(BankPatterns(inp, |inp.banks|), compacted, |compacted|))
  }

  /** The banks a row may be linked to directly, in the order the matcher reports them. */
  ghost function Find(inp: Input, texts: seq<string>, row: nat): seq<Bank>
    requires inp.Valid()
  {
    var compacted := Compacted(inp.ev, texts);
    HitsAreBanks(inp, compacted);
    Dedupe(BanksAt(inp, RefHits(inp, compacted)) + Filter(inp.banks, RowMentioned(inp, row)))
  }

  // ---------------------------------------------------------------- meaning

  lemma {:induction false} InBankPatterns(inp: Input, n: nat, p: Pattern)
    requires inp.Valid() && n <= |inp.banks|
    ensures p in BankPatterns(inp, n) <==>
      p.id < n && p.text == inp.Ref(inp.banks[p.id]) && |p.text| >= 4
  {
    if n > 0 {
      InBankPatterns(inp, n - 1, p);
    }
  }

  lemma {:induction false} InRowPatterns(ev: Evidence, ist: Ist, n: nat, p: Pattern)
    requires n <= |ist.directSearchTexts|
    ensures p in RowPatterns(ev, ist, n) <==>
      p.id == ist.row && Searchable(p.text) && exists k | 0 <= k < n :: p.text == ev.compact(ist.directSearchTexts[k])
  {
    if n > 0 {
      InRowPatterns(ev, ist, n - 1, p);
    }
  }

  lemma {:induction false} InIstPatterns(inp: Input, n: nat, p: Pattern)
    requires n <= |inp.rows|
    ensures p in IstPatterns(inp, n) <==> exists i | 0 <= i < n ::
      p in RowPatterns(inp.ev, inp.rows[i], |inp.rows[i].directSearchTexts|)
  {
    if n > 0 {
      InIstPatterns(inp, n - 1, p);
    }
  }

  lemma HitsAreBanks(inp: Input, texts: seq<string>)
    requires inp.Valid()
    ensures forall i | i in RefHits(inp, texts) :: i < |inp.banks|
  {
    var patterns := BankPatterns(inp, |inp.banks|);
    forall i | i in RefHits(inp, texts)
      ensures i < |inp.banks|
    {
      FindsExactlyTheOccurring(patterns, texts, i);
      var p :| p in patterns && p.id == i;
      InBankPatterns(inp, |inp.banks|, p);
    }
  }

  /** The bank's own reference occurs in one of the texts. */
  ghost predicate RefOccurs(inp: Input, texts: seq<string>, b: Bank) {
    inp.Ref(b) != "" && exists t | t in texts :: OccursIn(inp.Ref(b), inp.ev.compact(t))
  }

  /** Five characters, or four that are not all digits. */
  predicate Telltale(compact: string) {
    |compact| >= 5 || (|compact| == 4 && exists i | 0 <= i < 4 :: compact[i] < '0' || compact[i] > '9')
  }

  /** The compacted text occurs in the cell. */
  ghost predicate OccursInCell(ev: Evidence, compact: string, cell: string) {
    cell != "" && OccursIn(compact, ev.compact(cell))
  }

  /** The compacted text occurs in the bank row: its reference, description, customer reference, Dynamics entry, client,
      or supplier. */
  ghost predicate OccursInBank(inp: Input, compact: string, b: Bank) {
    || OccursInCell(inp.ev, compact, inp.Ref(b))
    || OccursInCell(inp.ev, compact, b.description)
    || OccursInCell(inp.ev, compact, b.customerReference)
    || OccursInCell(inp.ev, compact, b.dynamicsEntry)
    || OccursInCell(inp.ev, compact, b.partyText)
    || OccursInCell(inp.ev, compact, b.supplierBeneficiary)
  }

  /** A search text of the row occurs in one of the bank's texts. */
  ghost predicate RowTextOccurs(inp: Input, row: nat, b: Bank) {
    exists ist, t | ist in inp.rows && t in ist.directSearchTexts ::
      ist.row == row && Telltale(inp.ev.compact(t)) && OccursInBank(inp, inp.ev.compact(t), b)
  }

  lemma BankTextMeaning(inp: Input, compact: string, b: Bank)
    ensures Searchable(compact) <==> Telltale(compact)
    ensures (exists u | u in BankTexts(inp, b) :: OccursIn(compact, inp.ev.compact(u))) <==> OccursInBank(inp, compact, b)
  {
    var cells := [inp.Ref(b), b.description, b.customerReference, b.dynamicsEntry, b.partyText, b.supplierBeneficiary];
    InFilter(cells, t => t != "");
    assert forall u :: u in BankTexts(inp, b) <==> u in cells && u != "";
    assert cells[0] in cells && cells[1] in cells && cells[2] in cells && cells[3] in cells && cells[4] in cells
      && cells[5] in cells;
  }

  lemma InCompacted(ev: Evidence, texts: seq<string>, c: string)
    ensures c in Compacted(ev, texts) <==> exists t | t in texts :: ev.compact(t) == c
  {
    if c in Compacted(ev, texts) {
      var k :| 0 <= k < |texts| && Compacted(ev, texts)[k] == c;
      assert texts[k] in texts;
    }
    if exists t | t in texts :: ev.compact(t) == c {
      var t :| t in texts && ev.compact(t) == c;
      var k :| 0 <= k < |texts| && texts[k] == t;
      assert Compacted(ev, texts)[k] == c;
    }
  }

  lemma RefHit(inp: Input, texts: seq<string>, i: nat)
    requires inp.Valid() && i < |inp.banks|
    ensures (exists t | t in Compacted(inp.ev, texts) :: MentionedIn(BankPatterns(inp, |inp.banks|), t, i))
       <==> RefOccurs(inp, texts, inp.banks[i])
  {
    var patterns := BankPatterns(inp, |inp.banks|);
    var b := inp.banks[i];
    if t :| t in Compacted(inp.ev, texts) && MentionedIn(patterns, t, i) {
      var p :| p in patterns && p.id == i && p.text != "" && OccursIn(p.text, t);
      InBankPatterns(inp, |inp.banks|, p);
      InCompacted(inp.ev, texts, t);
    }
    if RefOccurs(inp, texts, b) {
      var t :| t in texts && OccursIn(inp.Ref(b), inp.ev.compact(t));
      InCompacted(inp.ev, texts, inp.ev.compact(t));
      InBankPatterns(inp, |inp.banks|, Pattern(inp.Ref(b), i));
      assert MentionedIn(patterns, inp.ev.compact(t), i);
    }
  }

  lemma RowHitOccurs(inp: Input, row: nat, b: Bank, c: string)
    requires c in Compacted(inp.ev, BankTexts(inp, b)) && MentionedIn(IstPatterns(inp, |inp.rows|), c, row)
    ensures RowTextOccurs(inp, row, b)
  {
    var p :| p in IstPatterns(inp, |inp.rows|) && p.id == row && p.text != "" && OccursIn(p.text, c);
    InCompacted(inp.ev, BankTexts(inp, b), c);
    InIstPatterns(inp, |inp.rows|, p);
    var i :| 0 <= i < |inp.rows| && p in RowPatterns(inp.ev, inp.rows[i], |inp.rows[i].directSearchTexts|);
    var ist := inp.rows[i];
    InRowPatterns(inp.ev, ist, |ist.directSearchTexts|, p);
    var k :| 0 <= k < |ist.directSearchTexts| && p.text == inp.ev.compact(ist.directSearchTexts[k]);
    var u :| u in BankTexts(inp, b) && inp.ev.compact(u) == c;
    BankTextMeaning(inp, p.text, b);
    assert ist in inp.rows && ist.directSearchTexts[k] in ist.directSearchTexts;
  }

  lemma OccursRowHit(inp: Input, row: nat, b: Bank, ist: Ist, t: string, u: string)
    requires ist in inp.rows && t in ist.directSearchTexts && u in BankTexts(inp, b)
    requires ist.row == row && Searchable(inp.ev.compact(t)) && OccursIn(inp.ev.compact(t), inp.ev.compact(u))
    ensures MentionsRow(inp, row, b)
  {
    var p := Pattern(inp.ev.compact(t), row);
    var i :| 0 <= i < |inp.rows| && inp.rows[i] == ist;
    var k :| 0 <= k < |ist.directSearchTexts| && ist.directSearchTexts[k] == t;
    InRowPatterns(inp.ev, ist, |ist.directSearchTexts|, p);
    InIstPatterns(inp, |inp.rows|, p);
    InCompacted(inp.ev, BankTexts(inp, b), inp.ev.compact(u));
    assert MentionedIn(IstPatterns(inp, |inp.rows|), inp.ev.compact(u), row);
  }

  lemma RowHit(inp: Input, row: nat, b: Bank)
    ensures MentionsRow(inp, row, b) <==> RowTextOccurs(inp, row, b)
  {
    if MentionsRow(inp, row, b) {
      var c :| c in Compacted(inp.ev, BankTexts(inp, b)) && MentionedIn(IstPatterns(inp, |inp.rows|), c, row);
      RowHitOccurs(inp, row, b, c);
    }
    if RowTextOccurs(inp, row, b) {
      var ist, t :| ist in inp.rows && t in ist.directSearchTexts && ist.row == row && Telltale(inp.ev.compact(t))
        && OccursInBank(inp, inp.ev.compact(t), b);
      BankTextMeaning(inp, inp.ev.compact(t), b);
      var u :| u in BankTexts(inp, b) && OccursIn(inp.ev.compact(t), inp.ev.compact(u));
      OccursRowHit(inp, row, b, ist, t, u);
    }
  }

  /** The two-way matcher reports a bank exactly when one of the two substring conditions holds, and never
      twice. */
  lemma FindMeaning(inp: Input, texts: seq<string>, row: nat, b: Bank)
    requires inp.Valid()
    ensures b in Find(inp, texts, row) <==> inp.Owns(b) && (RefOccurs(inp, texts, b) || RowTextOccurs(inp, row, b))
    ensures Distinct(Find(inp, texts, row))
  {
    var patterns := BankPatterns(inp, |inp.banks|);
    var compacted := Compacted(inp.ev, texts);
    var ids := RefHits(inp, compacted);
    HitsAreBanks(inp, compacted);
    InFilter(inp.banks, RowMentioned(inp, row));
    InDedupe(BanksAt(inp, ids) + Filter(inp.banks, RowMentioned(inp, row)));
    RowHit(inp, row, b);
    assert inp.Owns(b) <==> b in inp.banks;
    if inp.Owns(b) {
      FindsExactlyTheOccurring(patterns, compacted, b.index);
      RefHit(inp, texts, b.index);
    }
    assert b in BanksAt(inp, ids) <==> inp.Owns(b) && b.index in ids by {
      if b in BanksAt(inp, ids) {
        var k :| 0 <= k < |ids| && BanksAt(inp, ids)[k] == b;
        assert ids[k] in ids;
      }
      if inp.Owns(b) && b.index in ids {
        var k :| 0 <= k < |ids| && ids[k] == b.index;
        assert BanksAt(inp, ids)[k] == b;
      }
    }
  }

  // ---------------------------------------------------------------- the matcher object

  method CollectBankPatterns(inp: Input) returns (patterns: seq<Pattern>)
    ensures patterns == BankPatterns(inp, |inp.banks|)
  {
    patterns := [];
    for k := 0 to |inp.banks|
      invariant patterns == BankPatterns(inp, k)
    {
      var b := inp.banks[k];
      if |inp.Ref(b)| >= 4 {
        patterns := patterns + [Pattern(inp.Ref(b), b.index)];
      }
    }
  }

  method CollectIstPatterns(inp: Input) returns (patterns: seq<Pattern>)
    ensures patterns == IstPatterns(inp, |inp.rows|)
  {
    patterns := [];
    for k := 0 to |inp.rows|
      invariant patterns == IstPatterns(inp, k)
    {
      var ist := inp.rows[k];
      ghost var before := patterns;
      for i := 0 to |ist.directSearchTexts|
        invariant patterns == before + RowPatterns(inp.ev, ist, i)
      {
        var compact := inp.ev.compact(ist.directSearchTexts[i]);
        if Searchable(compact) {
          patterns := patterns + [Pattern(compact, ist.row)];
        }
      }
    }
  }

  function At(byRow: map<nat, seq<Bank>>, row: nat): seq<Bank> {
    if row in byRow then byRow[row] else []
  }

  /** Files one bank under every row whose text it contains. */
  method FileUnderRows(byRow: map<nat, seq<Bank>>, b: Bank, rows: seq<nat>) returns (filed: map<nat, seq<Bank>>)
    requires Distinct(rows)
    ensures forall r :: At(filed, r) == if r in rows then At(byRow, r) + [b] else At(byRow, r)
  {
    filed := byRow;
    for i := 0 to |rows|
      invariant forall r :: At(filed, r) == if r in rows[..i] then At(byRow, r) + [b] else At(byRow, r)
    {
      assert rows[i] !in rows[..i];
      assert rows[..i + 1] == rows[..i] + [rows[i]];
      filed := filed[rows[i] := At(filed, rows[i]) + [b]];
    }
    assert rows[..|rows|] == rows;
  }

  lemma NonemptyPatterns(inp: Input)
    requires inp.Valid()
    ensures forall p | p in BankPatterns(inp, |inp.banks|) :: p.text != ""
    ensures forall p | p in IstPatterns(inp, |inp.rows|) :: p.text != ""
  {
    forall p | p in BankPatterns(inp, |inp.banks|)
      ensures p.text != ""
    {
      InBankPatterns(inp, |inp.banks|, p);
    }
    forall p | p in IstPatterns(inp, |inp.rows|)
      ensures p.text != ""
    {
      InIstPatterns(inp, |inp.rows|, p);
      var i :| 0 <= i < |inp.rows| && p in RowPatterns(inp.ev, inp.rows[i], |inp.rows[i].directSearchTexts|);
      InRowPatterns(inp.ev, inp.rows[i], |inp.rows[i].directSearchTexts|, p);
    }
  }

  lemma NothingMentioned(inp: Input, row: nat)
    requires |IstPatterns(inp, |inp.rows|)| == 0
    ensures Filter(inp.banks, RowMentioned(inp, row)) == []
  {
    FilterNone(inp.banks, RowMentioned(inp, row));
  }

  class TwoWayMatcher {
    const inp: Input
    const bankTrie: Matcher
    var byRow: map<nat, seq<Bank>>

    ghost predicate Valid()
      reads this, bankTrie
    {
      && inp.Valid()
      && bankTrie.Ready()
      && bankTrie.patterns == BankPatterns(inp, |inp.banks|)
      && forall r :: At(byRow, r) == Filter(inp.banks, RowMentioned(inp, r))
    }

    constructor (inp: Input)
      requires inp.Valid()
      ensures Valid() && this.inp == inp && fresh(bankTrie)
    {
      NonemptyPatterns(inp);
      var bankPatterns := CollectBankPatterns(inp);
      this.inp := inp;
      this.bankTrie := new Matcher(bankPatterns);
      byRow := map[];
      new;
      var istPatterns := CollectIstPatterns(inp);
      if |istPatterns| > 0 {
        FileBanks(istPatterns);
      } else {
        forall r
          ensures Filter(inp.banks, RowMentioned(inp, r)) == []
        {
          NothingMentioned(inp, r);
        }
      }
    }

    method FileBanks(istPatterns: seq<Pattern>)
      requires inp.Valid() && istPatterns == IstPatterns(inp, |inp.rows|) && byRow == map[]
      modifies this`byRow
      ensures forall r :: At(byRow, r) == Filter(inp.banks, RowMentioned(inp, r))
    {
      NonemptyPatterns(inp);
      var istTrie := new Matcher(istPatterns);
      for k := 0 to |inp.banks|
        invariant istTrie.Ready() && istTrie.patterns == istPatterns
        invariant forall r :: At(byRow, r) == Filter(inp.banks[..k], RowMentioned(inp, r))
      {
        var b := inp.banks[k];
        var texts := Compacted(inp.ev, BankTexts(inp, b));
        var rows := istTrie.Find(texts);
        InDedupe<nat>(AllHits(istPatterns, texts, |texts|));
        forall r
          ensures r in rows <==> MentionsRow(inp, r, b)
          ensures Filter(inp.banks[..k + 1], RowMentioned(inp, r))
               == Filter(inp.banks[..k], RowMentioned(inp, r)) + if MentionsRow(inp, r, b) then [b] else []
        {
          FindsExactlyTheOccurring(istPatterns, texts, r);
          FilterSnoc(inp.banks, k, RowMentioned(inp, r));
        }
        byRow := FileUnderRows(byRow, b, rows);
      }
      assert inp.banks[..|inp.banks|] == inp.banks;
    }

    method FindBanks(texts: seq<string>, row: nat) returns (found: seq<Bank>)
      requires Valid()
      ensures found == Find(inp, texts, row)
    {
      var compacted := Compacted(inp.ev, texts);
      HitsAreBanks(inp, compacted);
      var ids := bankTrie.Find(compacted);
      assert ids == RefHits(inp, compacted);
      var direct := [];
      for k := 0 to |ids|
        invariant direct == BanksAt(inp, ids)[..k]
      {
        assert ids[k] in ids;
        direct := direct + [inp.banks[ids[k]]];
      }
      found := AddAll([], direct, []);
      found := AddAll(found, At(byRow, row), [] + direct);
      assert [] + direct == BanksAt(inp, ids);
    }
  }
}
