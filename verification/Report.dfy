/** Writing references back to the sheet, the summary counts, and runs repeated on the written sheet. */
module Report {
  import opened Basics
  import opened Ledger
  import opened Phases
  import opened Invariants
  import opened Guarantees
  import Cov = Coverage
  import Cert = Certificates
  import RM = ReferenceMatching
  import Automaton

  const REVIEW_LIMIT := 2000

  datatype Summary = Summary(
    totalRows: nat,
    matched: nat,
    preserved: nat,
    needsReview: nat,
    unmatched: nat,
    filled: nat,
    forced: nat,
    remainingBlank: nat,
    reviewReturned: nat,
    reviewTruncated: bool)

  // ---------------------------------------------------------------- one row

  function FinalReference(inp: Input, ist: Ist, m: MatchResult): string {
    var fromBank := if m.bank.Some? && inp.Ref(m.bank.value) != "" then m.bank.value.bankRef else "";
    if fromBank != "" then fromBank else if inp.Preserved(ist) then ist.paymentReference else ""
  }

  predicate Referenced(inp: Input, ist: Ist, m: MatchResult) {
    m.status != Unmatched && FinalReference(inp, ist, m) != ""
  }

  predicate Fills(inp: Input, ist: Ist, m: MatchResult) {
    Referenced(inp, ist, m) && !inp.Preserved(ist)
  }

  /** The PAYMENTREFERENCE cell after the write-back. */
  function Cell(inp: Input, ist: Ist, m: MatchResult): string {
    if Fills(inp, ist, m) then FinalReference(inp, ist, m) else ist.paymentReference
  }

  /** A row's entry in the list of cases for review. */
  datatype ReviewRecord = ReviewRecord(
    row: nat,
    status: Status,
    matchCase: MatchCase,
    confidence: real,
    description: string,
    amount: Option<real>,
    direction: Option<Direction>,
    accountCode: string,
    clientName: string,
    operationNo: string,
    document: string,
    existingReference: string,
    suggestedReference: string,
    suggestedBank: Option<nat>,
    finalReference: string)

  function RecordOf(inp: Input, ist: Ist, m: MatchResult): ReviewRecord {
    var suggested := if m.bank.Some? then m.bank.value.bankRef else "";
    ReviewRecord(ist.row, m.status, m.matchCase, m.confidence, ist.description, ist.amount, ist.direction,
                 ist.accountCode, ist.clientName, ist.operationNo, ist.document, ist.paymentReference, suggested,
                 OwnBank(Some(m)),
                 if m.bank.Some? then suggested else if inp.Preserved(ist) then ist.paymentReference else "")
  }

  // ---------------------------------------------------------------- counting rows

  /** The result the write-back reads for a row. */
  function Result(s: State, ist: Ist): MatchResult {
    if ist.row in s.matches then s.matches[ist.row] else NOTHING
  }

  function IsPreserved(inp: Input): Ist -> bool {
    ist => inp.Preserved(ist)
  }

  function IsFilled(inp: Input, s: State): Ist -> bool {
    ist => Fills(inp, ist, Result(s, ist))
  }

  function IsMatched(inp: Input, s: State): Ist -> bool {
    ist => Fills(inp, ist, Result(s, ist)) && Result(s, ist).status == Matched
  }

  function IsForced(inp: Input, s: State): Ist -> bool {
    ist => Fills(inp, ist, Result(s, ist)) && Result(s, ist).matchCase == ForcedBestBankMatch
  }

  function IsReview(inp: Input, s: State): Ist -> bool {
    ist =>
      var m := Result(s, ist);
      m.status == NeedsReview && !(Referenced(inp, ist, m) && inp.Preserved(ist))
  }

  function IsUnmatched(inp: Input, s: State): Ist -> bool {
    ist => !Referenced(inp, ist, Result(s, ist)) && Result(s, ist).status != NeedsReview
  }

  function IsBlank(inp: Input, s: State): Ist -> bool {
    ist => !inp.Preserved(ist) && NormalizeReference(inp.ev, Cell(inp, ist, Result(s, ist))) == ""
  }

  function NeedsRecord(s: State): Ist -> bool {
    ist => Result(s, ist).status != Matched
  }

  function Count(rows: seq<Ist>, p: Ist -> bool): nat {
    |Filter(rows, p)|
  }

  function Tally(inp: Input, s: State, n: nat): Summary
    requires n <= |inp.rows|
  {
    var rows := inp.rows[..n];
    var review, unmatched := Count(rows, IsReview(inp, s)), Count(rows, IsUnmatched(inp, s));
    var records := Count(rows, NeedsRecord(s));
    var returned := if records < REVIEW_LIMIT then records else REVIEW_LIMIT;
    Summary(n, Count(rows, IsMatched(inp, s)), Count(rows, IsPreserved(inp)), review, unmatched,
            Count(rows, IsFilled(inp, s)), Count(rows, IsForced(inp, s)), Count(rows, IsBlank(inp, s)),
            returned, review + unmatched > returned)
  }

  lemma CountSnoc(rows: seq<Ist>, n: nat, p: Ist -> bool)
    requires n < |rows|
    ensures Count(rows[..n + 1], p) == Count(rows[..n], p) + if p(rows[n]) then 1 else 0
  {
    FilterSnoc(rows, n, p);
  }

  function One(p: bool): nat {
    if p then 1 else 0
  }

  /** The counters after one more row. */
  function Counted(inp: Input, t: Summary, ist: Ist, m: MatchResult): Summary {
    var fills := Fills(inp, ist, m);
    var review := t.needsReview + One(m.status == NeedsReview && !(Referenced(inp, ist, m) && inp.Preserved(ist)));
    var unmatched := t.unmatched + One(!Referenced(inp, ist, m) && m.status != NeedsReview);
    var returned := t.reviewReturned + One(m.status != Matched && t.reviewReturned < REVIEW_LIMIT);
    Summary(t.totalRows + 1, t.matched + One(fills && m.status == Matched), t.preserved + One(inp.Preserved(ist)),
            review, unmatched, t.filled + One(fills), t.forced + One(fills && m.matchCase == ForcedBestBankMatch),
            t.remainingBlank + One(!inp.Preserved(ist) && NormalizeReference(inp.ev, Cell(inp, ist, m)) == ""),
            returned, review + unmatched > returned)
  }

  lemma TallySnoc(inp: Input, s: State, n: nat)
    requires n < |inp.rows|
    ensures Tally(inp, s, n + 1) == Counted(inp, Tally(inp, s, n), inp.rows[n], Result(s, inp.rows[n]))
  {
    CountSnoc(inp.rows, n, IsMatched(inp, s));
    CountSnoc(inp.rows, n, IsPreserved(inp));
    CountSnoc(inp.rows, n, IsReview(inp, s));
    CountSnoc(inp.rows, n, IsUnmatched(inp, s));
    CountSnoc(inp.rows, n, IsFilled(inp, s));
    CountSnoc(inp.rows, n, IsForced(inp, s));
    CountSnoc(inp.rows, n, IsBlank(inp, s));
    CountSnoc(inp.rows, n, NeedsRecord(s));
  }

  /** One turn of the report loop, branch by branch. */
  method WriteRow(inp: Input, ist: Ist, m: MatchResult, t: Summary) returns (cell: string, u: Summary)
    ensures cell == Cell(inp, ist, m)
    ensures u == Counted(inp, t, ist, m)
  {
    cell := ist.paymentReference;
    var preserved, filled, forced, matched := t.preserved, t.filled, t.forced, t.matched;
    var needsReview, unmatched, remainingBlank, returned :=
      t.needsReview, t.unmatched, t.remainingBlank, t.reviewReturned;
    if inp.Preserved(ist) {
      preserved := preserved + 1;
    }
    var finalReference := FinalReference(inp, ist, m);
    if (m.status == Matched || m.status == NeedsReview) && finalReference != "" {
      if !inp.Preserved(ist) {
        cell := finalReference;
        filled := filled + 1;
        if m.matchCase == ForcedBestBankMatch {
          forced := forced + 1;
        }
        if m.status == Matched {
          matched := matched + 1;
        } else {
          needsReview := needsReview + 1;
        }
      }
    } else if m.status == NeedsReview {
      needsReview := needsReview + 1;
    } else {
      unmatched := unmatched + 1;
    }
    if !inp.Preserved(ist) && NormalizeReference(inp.ev, cell) == "" {
      remainingBlank := remainingBlank + 1;
    }
    if m.status != Matched && returned < REVIEW_LIMIT {
      returned := returned + 1;
    }
    u := Summary(t.totalRows + 1, matched, preserved, needsReview, unmatched, filled, forced, remainingBlank,
                 returned, needsReview + unmatched > returned);
  }

  /** The entries for the first `n` rows, up to the limit. */
  function Records(inp: Input, s: State, n: nat): seq<ReviewRecord>
    requires n <= |inp.rows|
  {
    var rows := Filter(inp.rows[..n], NeedsRecord(s));
    Map(if |rows| <= REVIEW_LIMIT then rows else rows[..REVIEW_LIMIT], ist => RecordOf(inp, ist, Result(s, ist)))
  }

  lemma RecordsSnoc(inp: Input, s: State, n: nat)
    requires n < |inp.rows|
    ensures var records := Records(inp, s, n);
      Records(inp, s, n + 1) ==
        if NeedsRecord(s)(inp.rows[n]) && |records| < REVIEW_LIMIT
        then records + [RecordOf(inp, inp.rows[n], Result(s, inp.rows[n]))] else records
  {
    FilterSnoc(inp.rows, n, NeedsRecord(s));
    var rows := Filter(inp.rows[..n], NeedsRecord(s));
    if NeedsRecord(s)(inp.rows[n]) && |rows| >= REVIEW_LIMIT {
      assert (rows + [inp.rows[n]])[..REVIEW_LIMIT] == rows[..REVIEW_LIMIT];
      assert |rows| == REVIEW_LIMIT ==> rows[..REVIEW_LIMIT] == rows;
    }
  }

  lemma TallyCountsRecords(inp: Input, s: State, n: nat)
    requires n <= |inp.rows|
    ensures Tally(inp, s, n).reviewReturned == |Records(inp, s, n)|
  {
  }

  /** The end of a turn of the report loop: one more entry, unless the list is full. */
  method AddRecord(inp: Input, ghost s: State, n: nat, m: MatchResult, records: seq<ReviewRecord>)
    returns (grown: seq<ReviewRecord>)
    requires n < |inp.rows| && m == Result(s, inp.rows[n]) && records == Records(inp, s, n)
    ensures grown == Records(inp, s, n + 1)
  {
    RecordsSnoc(inp, s, n);
    grown := records;
    if m.status != Matched && |records| < REVIEW_LIMIT {
      grown := records + [RecordOf(inp, inp.rows[n], m)];
    }
  }

  /** The cells of the first `n` rows. */
  function Cells(inp: Input, s: State, n: nat): (cells: seq<string>)
    requires n <= |inp.rows|
    ensures |cells| == n
    ensures forall i | 0 <= i < n :: cells[i] == Cell(inp, inp.rows[i], Result(s, inp.rows[i]))
  {
    seq(n, i requires 0 <= i < n => Cell(inp, inp.rows[i], Result(s, inp.rows[i])))
  }

  lemma CellsSnoc(inp: Input, s: State, n: nat)
    requires n < |inp.rows|
    ensures Cells(inp, s, n + 1) == Cells(inp, s, n) + [Cell(inp, inp.rows[n], Result(s, inp.rows[n]))]
  {
  }

  /** The report loop: every cell as the row's result demands, the counts of the whole sheet, and the entries
      for review. */
  method WriteBack(inp: Input, matches: map<nat, MatchResult>, ghost used: set<nat>)
    returns (cells: seq<string>, summary: Summary, records: seq<ReviewRecord>)
    requires forall i | 0 <= i < |inp.rows| :: inp.rows[i].row in matches
    ensures cells == Cells(inp, State(matches, used), |inp.rows|)
    ensures summary == Tally(inp, State(matches, used), |inp.rows|)
    ensures records == Records(inp, State(matches, used), |inp.rows|) && summary.reviewReturned == |records|
  {
    ghost var s := State(matches, used);
    cells, summary, records := [], Summary(0, 0, 0, 0, 0, 0, 0, 0, 0, false), [];
    for n := 0 to |inp.rows|
      invariant cells == Cells(inp, s, n) && summary == Tally(inp, s, n) && records == Records(inp, s, n)
    {
      TallySnoc(inp, s, n);
      CellsSnoc(inp, s, n);
      var m := matches[inp.rows[n].row];
      var cell;
      cell, summary := WriteRow(inp, inp.rows[n], m, summary);
      cells := cells + [cell];
      records := AddRecord(inp, s, n, m, records);
    }
    TallyCountsRecords(inp, s, |inp.rows|);
  }

  // ---------------------------------------------------------------- conservation

  /** An empty cell has no text. */
  predicate BlankIsBlank(ev: Evidence) {
    ev.compact("") == ""
  }

  /** What the final result of a row looks like to the write-back. */
  lemma FinalRow(inp: Input, i: nat)
    requires inp.Valid() && BlankIsBlank(inp.ev) && i < |inp.rows|
    ensures var ist := inp.rows[i];
      var m := Result(Final(inp), ist);
      && Current(Final(inp), ist) == Some(m)
      && RowSound(inp, ist, m)
      && (inp.Preserved(ist) ==> Referenced(inp, ist, m) && m.status != Unmatched)
      && (!inp.Preserved(ist) ==> (Fills(inp, ist, m) <==> m.bank.Some?))
      && (Fills(inp, ist, m) ==> inp.Ref(m.bank.value) != "" && FinalReference(inp, ist, m) == m.bank.value.bankRef)
  {
    var ist := inp.rows[i];
    EveryRowHasResult(inp, i, 6);
    StageInv(inp, 6);
    assert SoundAt(inp, Final(inp), i);
    var m := Result(Final(inp), ist);
    if m.bank.Some? && inp.Ref(m.bank.value) != "" {
      assert m.bank.value.bankRef != "";
    }
    if inp.Preserved(ist) {
      assert ist.paymentReference != "";
    }
  }

  lemma {:induction false} CountSum(rows: seq<Ist>, whole: Ist -> bool, p: Ist -> bool, q: Ist -> bool)
    requires forall r | r in rows :: whole(r) == (p(r) || q(r)) && !(p(r) && q(r))
    ensures Count(rows, whole) == Count(rows, p) + Count(rows, q)
  {
    if |rows| > 0 {
      CountSum(rows[..|rows| - 1], whole, p, q);
    }
  }

  lemma {:induction false} CountAll(rows: seq<Ist>, p: Ist -> bool)
    requires forall r | r in rows :: p(r)
    ensures Count(rows, p) == |rows|
  {
    if |rows| > 0 {
      CountAll(rows[..|rows| - 1], p);
    }
  }

  lemma {:induction false} CountLess(rows: seq<Ist>, p: Ist -> bool, q: Ist -> bool)
    requires forall r | r in rows && p(r) :: q(r)
    ensures Count(rows, p) <= Count(rows, q)
  {
    if |rows| > 0 {
      CountLess(rows[..|rows| - 1], p, q);
    }
  }

  function Either(p: Ist -> bool, q: Ist -> bool): Ist -> bool {
    ist => p(ist) || q(ist)
  }

  lemma FinalRows(inp: Input)
    requires inp.Valid() && BlankIsBlank(inp.ev)
    ensures var s := Final(inp);
      forall r | r in inp.rows ::
        && (inp.Preserved(r) ==> !IsFilled(inp, s)(r) && !IsReview(inp, s)(r) && !IsUnmatched(inp, s)(r))
        && (!inp.Preserved(r) ==> IsMatched(inp, s)(r) || IsReview(inp, s)(r) || IsUnmatched(inp, s)(r))
        && !(IsMatched(inp, s)(r) && IsReview(inp, s)(r)) && !(IsMatched(inp, s)(r) && IsUnmatched(inp, s)(r))
        && !(IsReview(inp, s)(r) && IsUnmatched(inp, s)(r))
        && (IsBlank(inp, s)(r) <==> !inp.Preserved(r) && !IsFilled(inp, s)(r))
        && (IsForced(inp, s)(r) ==> IsFilled(inp, s)(r))
  {
    forall r | r in inp.rows
      ensures var s := Final(inp);
        && (inp.Preserved(r) ==> !IsFilled(inp, s)(r) && !IsReview(inp, s)(r) && !IsUnmatched(inp, s)(r))
        && (!inp.Preserved(r) ==> IsMatched(inp, s)(r) || IsReview(inp, s)(r) || IsUnmatched(inp, s)(r))
        && !(IsMatched(inp, s)(r) && IsReview(inp, s)(r)) && !(IsMatched(inp, s)(r) && IsUnmatched(inp, s)(r))
        && !(IsReview(inp, s)(r) && IsUnmatched(inp, s)(r))
        && (IsBlank(inp, s)(r) <==> !inp.Preserved(r) && !IsFilled(inp, s)(r))
        && (IsForced(inp, s)(r) ==> IsFilled(inp, s)(r))
    {
      var i :| 0 <= i < |inp.rows| && inp.rows[i] == r;
      FinalRow(inp, i);
    }
  }

  /** Every row is counted once among the four outcomes, and once among preserved, filled and still blank;
      and no forced match is counted that did not fill a cell. */
  lemma ReportConserves(inp: Input)
    requires inp.Valid() && BlankIsBlank(inp.ev)
    ensures var r := Tally(inp, Final(inp), |inp.rows|);
      && r.matched + r.preserved + r.needsReview + r.unmatched == r.totalRows
      && r.preserved + r.filled + r.remainingBlank == r.totalRows
      && r.matched <= r.filled && r.forced <= r.filled
  {
    var s := Final(inp);
    var rows := inp.rows;
    assert rows[..|rows|] == rows;
    FinalRows(inp);
    var p, m, v, u := IsPreserved(inp), IsMatched(inp, s), IsReview(inp, s), IsUnmatched(inp, s);
    CountSum(rows, Either(v, u), v, u);
    CountSum(rows, Either(m, Either(v, u)), m, Either(v, u));
    CountSum(rows, Either(p, Either(m, Either(v, u))), p, Either(m, Either(v, u)));
    CountAll(rows, Either(p, Either(m, Either(v, u))));
    var f, b := IsFilled(inp, s), IsBlank(inp, s);
    CountSum(rows, Either(f, b), f, b);
    CountSum(rows, Either(p, Either(f, b)), p, Either(f, b));
    CountAll(rows, Either(p, Either(f, b)));
    CountLess(rows, IsForced(inp, s), f);
    CountLess(rows, m, f);
  }

  /** An entry for review tells the reference that the write-back leaves in the row's cell; for a row that was not
      filled and had no reference it tells none. */
  lemma RecordAgreesWithCell(inp: Input, i: nat)
    requires inp.Valid() && BlankIsBlank(inp.ev) && i < |inp.rows|
    requires NeedsRecord(Final(inp))(inp.rows[i])
    ensures var ist, m := inp.rows[i], Result(Final(inp), inp.rows[i]);
      RecordOf(inp, ist, m).finalReference ==
        if inp.Preserved(ist) || Fills(inp, ist, m) then Cell(inp, ist, m) else ""
  {
    FinalRow(inp, i);
    var ist := inp.rows[i];
    if inp.Preserved(ist) {
      BestDirectIsCandidate(inp, ist, RM.Find(inp, [ist.paymentReference], ist.row));
    }
  }

  /** The cell of a row that came without a reference takes over its bank's as the bank sheet writes it; every other
      cell stays as it was. */
  lemma CellMeaning(inp: Input, i: nat)
    requires inp.Valid() && BlankIsBlank(inp.ev) && i < |inp.rows|
    ensures var ist, m := inp.rows[i], Current(Final(inp), inp.rows[i]);
      m.Some? && Cell(inp, ist, Result(Final(inp), ist)) ==
        if !inp.Preserved(ist) && m.value.bank.Some? then m.value.bank.value.bankRef else ist.paymentReference
  {
    FinalRow(inp, i);
  }

  /** The entry tells the row's own cells and its final result: the status, case and confidence, the number and the
      reference of the bank, and the reference that the row came with. */
  predicate Tells(r: ReviewRecord, ist: Ist, m: MatchResult) {
    && r.row == ist.row && r.status == m.status && r.matchCase == m.matchCase && r.confidence == m.confidence
    && r.description == ist.description && r.amount == ist.amount && r.direction == ist.direction
    && r.accountCode == ist.accountCode && r.clientName == ist.clientName && r.operationNo == ist.operationNo
    && r.document == ist.document && r.existingReference == ist.paymentReference
    && (m.bank.Some? ==> r.suggestedReference == m.bank.value.bankRef && r.suggestedBank == Some(m.bank.value.index))
    && (m.bank.None? ==> r.suggestedReference == "" && r.suggestedBank == None)
  }

  /** Entry `k` of the list belongs to the row before which exactly `k` others are not matched, and tells it. */
  lemma RecordTellsItsRow(inp: Input, s: State, k: nat) returns (i: nat)
    requires k < |Records(inp, s, |inp.rows|)|
    ensures i < |inp.rows| && NeedsRecord(s)(inp.rows[i]) && Count(inp.rows[..i], NeedsRecord(s)) == k < 2000
    ensures Tells(Records(inp, s, |inp.rows|)[k], inp.rows[i], Result(s, inp.rows[i]))
  {
    assert inp.rows[..|inp.rows|] == inp.rows;
    i := PlaceOf(inp.rows, NeedsRecord(s), k);
  }

  lemma {:induction false} PlaceOf(rows: seq<Ist>, p: Ist -> bool, k: nat) returns (i: nat)
    requires k < Count(rows, p)
    ensures i < |rows| && p(rows[i]) && Count(rows[..i], p) == k && Filter(rows, p)[k] == rows[i]
  {
    var n := |rows| - 1;
    if k < Count(rows[..n], p) {
      i := PlaceOf(rows[..n], p, k);
      assert rows[..n][..i] == rows[..i];
    } else {
      i := n;
    }
  }

  // ---------------------------------------------------------------- what the counts count

  /** Rows that came without a reference and whose final result is of a kind. */
  ghost function OpenWith(inp: Input, kind: MatchResult -> bool): Ist -> bool
    requires inp.Valid()
  {
    ist => !inp.Preserved(ist) && Current(Final(inp), ist).Some? && kind(Current(Final(inp), ist).value)
  }

  /** Rows that end with a case. */
  ghost function EndsIn(inp: Input, matchCase: MatchCase): Ist -> bool
    requires inp.Valid()
  {
    ist => Current(Final(inp), ist).Some? && Current(Final(inp), ist).value.matchCase == matchCase
  }

  function HasStatus(status: Status): MatchResult -> bool {
    (m: MatchResult) => m.status == status
  }

  function NamesBank(named: bool): MatchResult -> bool {
    (m: MatchResult) => m.bank.Some? == named
  }

  lemma CountedRow(inp: Input, i: nat)
    requires inp.Valid() && BlankIsBlank(inp.ev) && i < |inp.rows|
    ensures var s, ist := Final(inp), inp.rows[i];
      && IsMatched(inp, s)(ist) == OpenWith(inp, HasStatus(Matched))(ist)
      && IsReview(inp, s)(ist) == OpenWith(inp, HasStatus(NeedsReview))(ist)
      && IsUnmatched(inp, s)(ist) == OpenWith(inp, HasStatus(Unmatched))(ist)
      && IsFilled(inp, s)(ist) == OpenWith(inp, NamesBank(true))(ist)
      && IsBlank(inp, s)(ist) == OpenWith(inp, NamesBank(false))(ist)
      && IsForced(inp, s)(ist) == EndsIn(inp, ForcedBestBankMatch)(ist)
  {
    FinalRow(inp, i);
    Cert.EveryResultIsCertified(inp, i);
  }

  /** The summary told by the final results: matched, under review and unmatched are the rows that came without a
      reference by their status; filled and blank are those with a bank and those without; forced are the rows that end
      with the forced case, all of which fill their cells. */
  lemma SummaryMeaning(inp: Input)
    requires inp.Valid() && BlankIsBlank(inp.ev)
    ensures var r := Tally(inp, Final(inp), |inp.rows|);
      && r.totalRows == |inp.rows|
      && r.matched == Count(inp.rows, OpenWith(inp, HasStatus(Matched)))
      && r.needsReview == Count(inp.rows, OpenWith(inp, HasStatus(NeedsReview)))
      && r.unmatched == Count(inp.rows, OpenWith(inp, HasStatus(Unmatched)))
      && r.filled == Count(inp.rows, OpenWith(inp, NamesBank(true)))
      && r.remainingBlank == Count(inp.rows, OpenWith(inp, NamesBank(false)))
      && r.forced == Count(inp.rows, EndsIn(inp, ForcedBestBankMatch))
  {
    var s, rows := Final(inp), inp.rows;
    assert rows[..|rows|] == rows;
    forall ist | ist in rows
      ensures IsMatched(inp, s)(ist) == OpenWith(inp, HasStatus(Matched))(ist)
      ensures IsReview(inp, s)(ist) == OpenWith(inp, HasStatus(NeedsReview))(ist)
      ensures IsUnmatched(inp, s)(ist) == OpenWith(inp, HasStatus(Unmatched))(ist)
      ensures IsFilled(inp, s)(ist) == OpenWith(inp, NamesBank(true))(ist)
      ensures IsBlank(inp, s)(ist) == OpenWith(inp, NamesBank(false))(ist)
      ensures IsForced(inp, s)(ist) == EndsIn(inp, ForcedBestBankMatch)(ist)
    {
      var i :| 0 <= i < |rows| && rows[i] == ist;
      CountedRow(inp, i);
    }
    FilterCongruent(rows, IsMatched(inp, s), OpenWith(inp, HasStatus(Matched)));
    FilterCongruent(rows, IsReview(inp, s), OpenWith(inp, HasStatus(NeedsReview)));
    FilterCongruent(rows, IsUnmatched(inp, s), OpenWith(inp, HasStatus(Unmatched)));
    FilterCongruent(rows, IsFilled(inp, s), OpenWith(inp, NamesBank(true)));
    FilterCongruent(rows, IsBlank(inp, s), OpenWith(inp, NamesBank(false)));
    FilterCongruent(rows, IsForced(inp, s), EndsIn(inp, ForcedBestBankMatch));
  }

  // ---------------------------------------------------------------- the truncation flag

  /** Preserved rows whose reference was not found: they are review records but not review counts. */
  function IsLost(inp: Input, s: State): Ist -> bool {
    ist => inp.Preserved(ist) && Result(s, ist).status != Matched
  }

  lemma RecordsAreCounted(inp: Input)
    requires inp.Valid() && BlankIsBlank(inp.ev)
    ensures var s := Final(inp);
      Count(inp.rows, NeedsRecord(s))
      == Count(inp.rows, IsReview(inp, s)) + Count(inp.rows, IsUnmatched(inp, s)) + Count(inp.rows, IsLost(inp, s))
  {
    var s := Final(inp);
    var rows := inp.rows;
    var v, u, l := IsReview(inp, s), IsUnmatched(inp, s), IsLost(inp, s);
    FinalRows(inp);
    forall r | r in rows
      ensures NeedsRecord(s)(r) == Either(l, Either(v, u))(r)
    {
      var i :| 0 <= i < |rows| && rows[i] == r;
      FinalRow(inp, i);
    }
    CountSum(rows, Either(v, u), v, u);
    CountSum(rows, NeedsRecord(s), l, Either(v, u));
  }

  /** A bank that the two-way matcher finds for a preserved row. */
  ghost predicate FoundFor(inp: Input, ist: Ist, b: Bank) {
    inp.Owns(b) && (RM.RefOccurs(inp, [ist.paymentReference], b) || RM.RowTextOccurs(inp, ist.row, b))
  }

  /** A preserved row that no bank of the sheet is found for. */
  ghost function Unlinked(inp: Input): Ist -> bool {
    ist => inp.Preserved(ist) && forall b :: !FoundFor(inp, ist, b)
  }

  lemma PreservedOutcome(inp: Input, ist: Ist)
    requires inp.Valid()
    ensures PreservedMatch(inp, ist).status == Matched <==> exists b :: FoundFor(inp, ist, b)
  {
    var found := RM.Find(inp, [ist.paymentReference], ist.row);
    forall b
      ensures b in found <==> FoundFor(inp, ist, b)
    {
      RM.FindMeaning(inp, [ist.paymentReference], ist.row, b);
    }
    BestDirectIsCandidate(inp, ist, found);
    if |found| > 0 {
      assert found[0] in found;
    }
  }

  /** Lost rows can be told from the two sheets alone. */
  lemma LostIsUnlinked(inp: Input, i: nat)
    requires inp.Valid() && i < |inp.rows|
    ensures IsLost(inp, Final(inp))(inp.rows[i]) <==> Unlinked(inp)(inp.rows[i])
  {
    if inp.Preserved(inp.rows[i]) {
      PreservedIsFixed(inp, i, 6);
      PreservedOutcome(inp, inp.rows[i]);
    }
  }

  lemma LostCount(inp: Input)
    requires inp.Valid()
    ensures Count(inp.rows, IsLost(inp, Final(inp))) == Count(inp.rows, Unlinked(inp))
  {
    forall r | r in inp.rows
      ensures IsLost(inp, Final(inp))(r) == Unlinked(inp)(r)
    {
      var i :| 0 <= i < |inp.rows| && inp.rows[i] == r;
      LostIsUnlinked(inp, i);
    }
    FilterCongruent(inp.rows, IsLost(inp, Final(inp)), Unlinked(inp));
  }

  /** The flag says that entries for review were left out exactly when some were. */
  predicate FlagIsRight(inp: Input, s: State) {
    var r := Tally(inp, s, |inp.rows|);
    r.reviewTruncated == (Count(inp.rows, NeedsRecord(s)) > r.reviewReturned)
  }

  /** The flag is right exactly unless the review and unmatched rows fit into the limit while the unlinked rows,
      which the sheets alone determine, push the entries past it. */
  lemma TruncationFlag(inp: Input)
    requires inp.Valid() && BlankIsBlank(inp.ev)
    ensures var r := Tally(inp, Final(inp), |inp.rows|);
      var counted := r.needsReview + r.unmatched;
      FlagIsRight(inp, Final(inp)) <==> !(counted <= REVIEW_LIMIT < counted + Count(inp.rows, Unlinked(inp)))
  {
    assert inp.rows[..|inp.rows|] == inp.rows;
    RecordsAreCounted(inp);
    LostCount(inp);
  }

  /** In particular it is right on every sheet without an unlinked row, and on every sheet within the limit; and
      it is wrong on every sheet of which more rows than the limit are unlinked and no more than it are not
      preserved. */
  lemma TruncationFlagBySheet(inp: Input)
    requires inp.Valid() && BlankIsBlank(inp.ev)
    ensures Count(inp.rows, Unlinked(inp)) == 0 || |inp.rows| <= REVIEW_LIMIT ==> FlagIsRight(inp, Final(inp))
    ensures Count(inp.rows, Unlinked(inp)) > REVIEW_LIMIT && |inp.rows| - Count(inp.rows, IsPreserved(inp)) <= REVIEW_LIMIT
      ==> !FlagIsRight(inp, Final(inp))
  {
    assert inp.rows[..|inp.rows|] == inp.rows;
    TruncationFlag(inp);
    RecordsAreCounted(inp);
    LostCount(inp);
    ReportConserves(inp);
    FilterShrinks(inp.rows, NeedsRecord(Final(inp)));
  }

  function LostRow(i: nat): Ist {
    Ist(i, "REF1", "", "", "", "", "", "", "", None, None, None, "", "", [], "", "", "", [])
  }

  function StrayBank(): Bank {
    Bank(0, "ZZZZ", "", "", "", "", "", None, None, None, None, "", "", "", "")
  }

  /** A sheet of `n` preserved rows whose reference no bank carries. */
  function LostSheet(n: nat): Input {
    Input(seq(n, i requires i >= 0 => LostRow(i)), [StrayBank()], Options(3, 0.01, 0.05, 100.0, 0.75, false, true),
          PLAIN)
  }

  lemma LostReferences(n: nat)
    ensures var inp := LostSheet(n);
      && inp.Valid() && BlankIsBlank(inp.ev)
      && inp.Ref(StrayBank()) == "ZZZZ"
      && forall i | 0 <= i < n :: inp.rows[i] == LostRow(i) && inp.Preserved(inp.rows[i])
  {
    assert "ZZZZ"[0] == 'Z' && "REF1"[0] == 'R';
    assert forall w :: w in PLACEHOLDERS ==> w != "ZZZZ" && w != "REF1" by {
      assert "na"[0] == 'n' && "none"[0] == 'n' && "null"[0] == 'n' && "undefined"[0] == 'u' && "nonref"[0] == 'n'
          && "noref"[0] == 'n';
    }
  }

  lemma StrayNeverOccurs()
    ensures !Automaton.OccursIn("ZZZZ", "REF1")
  {
    assert "ZZZZ"[0] == 'Z' && "REF1"[0] == 'R';
    forall n | 0 <= n <= |"REF1"|
      ensures !Automaton.Suffix("ZZZZ", "REF1"[..n])
    {
      if n == 4 {
        assert "REF1"[..n][0..] == "REF1";
      }
    }
  }

  lemma LostIsNotFound(n: nat, i: nat)
    requires i < n
    ensures var inp := LostSheet(n);
      && inp.Valid() && PreservedMatch(inp, inp.rows[i]) == MatchResult(NeedsReview, ExistingReferencePreserved, 0.5, None)
  {
    LostReferences(n);
    StrayNeverOccurs();
    var inp := LostSheet(n);
    var ist := inp.rows[i];
    var found := RM.Find(inp, [ist.paymentReference], ist.row);
    forall b
      ensures b !in found
    {
      RM.FindMeaning(inp, [ist.paymentReference], ist.row, b);
      assert inp.Owns(b) ==> b == StrayBank();
      assert forall t | t in [ist.paymentReference] :: t == "REF1";
      assert forall r | r in inp.rows :: r.directSearchTexts == [];
    }
    BestDirectIsCandidate(inp, ist, found);
  }

  lemma LostRowRecorded(n: nat, i: nat)
    requires i < n
    ensures var inp := LostSheet(n);
      && inp.Valid()
      && var s := Final(inp);
        NeedsRecord(s)(inp.rows[i]) && !IsReview(inp, s)(inp.rows[i]) && !IsUnmatched(inp, s)(inp.rows[i])
  {
    LostReferences(n);
    LostIsNotFound(n, i);
    FinalRow(LostSheet(n), i);
  }

  lemma LostCounts(n: nat)
    ensures var inp := LostSheet(n);
      && inp.Valid()
      && Count(inp.rows, NeedsRecord(Final(inp))) == n
      && Count(inp.rows, IsReview(inp, Final(inp))) == 0
      && Count(inp.rows, IsUnmatched(inp, Final(inp))) == 0
  {
    var inp := LostSheet(n);
    LostReferences(n);
    var s := Final(inp);
    forall r | r in inp.rows
      ensures NeedsRecord(s)(r) && !IsReview(inp, s)(r) && !IsUnmatched(inp, s)(r)
    {
      var i :| 0 <= i < |inp.rows| && inp.rows[i] == r;
      LostRowRecorded(n, i);
    }
    CountAll(inp.rows, NeedsRecord(s));
    FilterNone(inp.rows, IsReview(inp, s));
    FilterNone(inp.rows, IsUnmatched(inp, s));
  }

  /** The failing family has members: 2001 rows with references no bank carries leave a record out unsaid. */
  lemma TruncationFlagCanMislead()
    ensures var inp := LostSheet(2001);
      && inp.Valid()
      && var r := Tally(inp, Final(inp), |inp.rows|);
        && !r.reviewTruncated && r.reviewReturned == 2000
        && Count(inp.rows, NeedsRecord(Final(inp))) == 2001
  {
    var n := 2001;
    LostCounts(n);
    assert LostSheet(n).rows[..|LostSheet(n).rows|] == LostSheet(n).rows;
  }

  // ---------------------------------------------------------------- repeated runs

  /** `b` reads the sheet that run `a` has written: same rows, with the written references. Everything else,
      including the bank sheet and the options, may differ. */
  ghost predicate Rerun(a: Input, b: Input)
    requires a.Valid()
  {
    && b.ev == a.ev
    && |b.rows| == |a.rows|
    && forall i | 0 <= i < |a.rows| :: b.rows[i].paymentReference == Written(a, i)
  }

  ghost function Written(a: Input, i: nat): string
    requires a.Valid() && i < |a.rows|
  {
    Cell(a, a.rows[i], Result(Final(a), a.rows[i]))
  }

  ghost predicate Runs(runs: seq<Input>) {
    && (forall k | 0 <= k < |runs| :: runs[k].Valid() && BlankIsBlank(runs[k].ev))
    && (forall k | 0 <= k < |runs| - 1 :: Rerun(runs[k], runs[k + 1]))
  }

  /** After one run a row has a reference exactly when it had one or was filled; one it had is untouched. */
  lemma OneRun(a: Input, b: Input, i: nat)
    requires a.Valid() && BlankIsBlank(a.ev) && Rerun(a, b) && i < |a.rows|
    ensures b.Preserved(b.rows[i]) <==> a.Preserved(a.rows[i]) || IsFilled(a, Final(a))(a.rows[i])
    ensures a.Preserved(a.rows[i]) ==> b.rows[i].paymentReference == a.rows[i].paymentReference
  {
    FinalRow(a, i);
    assert b.rows[i].paymentReference == Written(a, i);
  }

  /** No reference is ever overwritten, in however many runs. */
  lemma {:induction false} ReferencesAreNeverOverwritten(runs: seq<Input>, j: nat, k: nat, i: nat)
    requires Runs(runs) && j <= k < |runs| && i < |runs[j].rows| && runs[j].Preserved(runs[j].rows[i])
    ensures |runs[k].rows| == |runs[j].rows|
    ensures runs[k].Preserved(runs[k].rows[i])
    ensures runs[k].rows[i].paymentReference == runs[j].rows[i].paymentReference
  {
    if j < k {
      ReferencesAreNeverOverwritten(runs, j, k - 1, i);
      assert Rerun(runs[k - 1], runs[k]);
      OneRun(runs[k - 1], runs[k], i);
    }
  }

  lemma {:induction false} CountTransfers(
    xs: seq<Ist>, ys: seq<Ist>, p: Ist -> bool, q: Ist -> bool)
    requires |xs| == |ys| && forall i | 0 <= i < |xs| :: p(xs[i]) == q(ys[i])
    ensures Count(xs, p) == Count(ys, q)
  {
    if |xs| > 0 {
      var n := |xs| - 1;
      assert forall i | 0 <= i < n :: xs[..n][i] == xs[i] && ys[..n][i] == ys[i];
      CountTransfers(xs[..n], ys[..n], p, q);
    }
  }

  ghost function PreservedIn(a: Input): nat {
    Count(a.rows, IsPreserved(a))
  }

  ghost function FilledIn(a: Input): nat
    requires a.Valid()
  {
    Count(a.rows, IsFilled(a, Final(a)))
  }

  /** What run `a` preserved and filled is what the next run preserves. */
  lemma NextRunPreserves(a: Input, b: Input)
    requires a.Valid() && BlankIsBlank(a.ev) && Rerun(a, b)
    ensures PreservedIn(b) == PreservedIn(a) + FilledIn(a)
  {
    var p, f := IsPreserved(a), IsFilled(a, Final(a));
    FinalRows(a);
    CountSum(a.rows, Either(p, f), p, f);
    forall i | 0 <= i < |b.rows|
      ensures IsPreserved(b)(b.rows[i]) == Either(p, f)(a.rows[i])
    {
      OneRun(a, b, i);
    }
    CountTransfers(b.rows, a.rows, IsPreserved(b), Either(p, f));
  }

  ghost function TotalFilled(runs: seq<Input>, n: nat): nat
    requires Runs(runs) && n <= |runs|
  {
    if n == 0 then 0 else TotalFilled(runs, n - 1) + FilledIn(runs[n - 1])
  }

  /** Over any number of runs: preserved at the last is preserved at the first plus all that was filled since,
      so no series of runs fills more cells than the sheet has rows. */
  lemma {:induction false} FillingAddsUp(runs: seq<Input>, n: nat)
    requires Runs(runs) && n < |runs|
    ensures |runs[n].rows| == |runs[0].rows|
    ensures PreservedIn(runs[n]) == PreservedIn(runs[0]) + TotalFilled(runs, n)
    ensures PreservedIn(runs[0]) + TotalFilled(runs, n) <= |runs[0].rows|
  {
    if n > 0 {
      FillingAddsUp(runs, n - 1);
      assert Rerun(runs[n - 1], runs[n]);
      NextRunPreserves(runs[n - 1], runs[n]);
    }
    FilterShrinks(runs[n].rows, IsPreserved(runs[n]));
  }

  lemma {:induction false} FilterShrinks(rows: seq<Ist>, p: Ist -> bool)
    ensures Count(rows, p) <= |rows|
  {
    if |rows| > 0 {
      FilterShrinks(rows[..|rows| - 1], p);
    }
  }

  // ---------------------------------------------------------------- repeated runs on the same bank sheet

  lemma OccursInItself(text: string)
    ensures Automaton.OccursIn(text, text)
  {
    assert text[..|text|] == text && text[0..] == text;
    assert Automaton.Suffix(text, text[..|text|]);
  }

  /** A row filled in one run is preserved in the next one on the same bank sheet, and its bank is found. */
  lemma FilledIsFound(a: Input, b: Input, i: nat)
    requires a.Valid() && b.Valid() && BlankIsBlank(a.ev) && Rerun(a, b) && b.banks == a.banks && i < |a.rows|
    requires IsFilled(a, Final(a))(a.rows[i])
    ensures b.Preserved(b.rows[i])
    ensures Current(Final(b), b.rows[i]).Some? && Current(Final(b), b.rows[i]).value.status == Matched
  {
    FinalRow(a, i);
    OneRun(a, b, i);
    var bank := Result(Final(a), a.rows[i]).bank.value;
    assert b.rows[i].paymentReference == Written(a, i) == bank.bankRef;
    OccursInItself(b.Ref(bank));
    var texts := [b.rows[i].paymentReference];
    assert texts[0] in texts && b.ev.compact(texts[0]) == b.Ref(bank);
    assert RM.RefOccurs(b, texts, bank);
    assert FoundFor(b, b.rows[i], bank);
    PreservedOutcome(b, b.rows[i]);
    PreservedIsFixed(b, i, 6);
  }

  /** The rows that had a reference are read back as they were. */
  ghost predicate SameReferences(a: Input, b: Input)
    requires a.Valid()
  {
    && Rerun(a, b) && b.banks == a.banks
    && forall i | 0 <= i < |a.rows| && a.Preserved(a.rows[i]) :: b.rows[i] == a.rows[i]
  }

  lemma SameTexts(a: Input, b: Input, i: nat, bank: Bank)
    requires a.Valid() && b.Valid() && SameReferences(a, b) && i < |a.rows| && a.Preserved(a.rows[i])
    ensures RM.RowTextOccurs(a, a.rows[i].row, bank) <==> RM.RowTextOccurs(b, b.rows[i].row, bank)
  {
    TextsOfRow(a, i, bank);
    TextsOfRow(b, i, bank);
  }

  ghost predicate TextOccurs(inp: Input, ist: Ist, bank: Bank) {
    exists t | t in ist.directSearchTexts ::
      RM.Telltale(inp.ev.compact(t)) && RM.OccursInBank(inp, inp.ev.compact(t), bank)
  }

  lemma TextsOfRow(inp: Input, i: nat, bank: Bank)
    requires inp.Valid() && i < |inp.rows|
    ensures RM.RowTextOccurs(inp, inp.rows[i].row, bank) <==> TextOccurs(inp, inp.rows[i], bank)
  {
    assert inp.rows[i] in inp.rows;
    forall ist | ist in inp.rows && ist.row == inp.rows[i].row
      ensures ist == inp.rows[i]
    {
      var j :| 0 <= j < |inp.rows| && inp.rows[j] == ist;
      assert j == i;
    }
  }

  lemma SameUnlinked(a: Input, b: Input, i: nat)
    requires a.Valid() && b.Valid() && SameReferences(a, b) && i < |a.rows| && a.Preserved(a.rows[i])
    ensures Unlinked(a)(a.rows[i]) <==> Unlinked(b)(b.rows[i])
  {
    forall bank
      ensures FoundFor(a, a.rows[i], bank) <==> FoundFor(b, b.rows[i], bank)
    {
      SameTexts(a, b, i, bank);
    }
  }

  /** On the same bank sheet the lost rows of one run are exactly those of the next. */
  lemma LostStaysLost(a: Input, b: Input, i: nat)
    requires a.Valid() && b.Valid() && BlankIsBlank(a.ev) && SameReferences(a, b) && i < |a.rows|
    ensures IsLost(b, Final(b))(b.rows[i]) <==> IsLost(a, Final(a))(a.rows[i])
  {
    OneRun(a, b, i);
    if a.Preserved(a.rows[i]) {
      LostIsUnlinked(a, i);
      LostIsUnlinked(b, i);
      SameUnlinked(a, b, i);
    } else if b.Preserved(b.rows[i]) {
      FilledIsFound(a, b, i);
    }
  }

  lemma LostNeverGrows(a: Input, b: Input)
    requires a.Valid() && b.Valid() && BlankIsBlank(a.ev) && SameReferences(a, b)
    ensures Count(b.rows, IsLost(b, Final(b))) == Count(a.rows, IsLost(a, Final(a)))
  {
    forall i | 0 <= i < |b.rows|
      ensures IsLost(b, Final(b))(b.rows[i]) == IsLost(a, Final(a))(a.rows[i])
    {
      LostStaysLost(a, b, i);
    }
    CountTransfers(b.rows, a.rows, IsLost(b, Final(b)), IsLost(a, Final(a)));
  }
}
