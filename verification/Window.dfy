/** The index of bank rows by day and the search of a window of days around a row. */
module Window {
  import opened Basics
  import opened Ledger

  function OnDay(day: int): Bank -> bool {
    b => FiledOn(b, day)
  }

  function Fresh(ok: Bank -> bool, found: seq<Bank>): Bank -> bool {
    b => ok(b) && b !in found
  }

  /** The bank rows filed under one day, in sheet order. */
  function DayRows(banks: seq<Bank>, day: int): seq<Bank> {
    Filter(banks, OnDay(day))
  }

  /** The accepted banks found on `n` consecutive days, each taken on the first day it turns up. */
  function Scan(banks: seq<Bank>, first: int, n: nat, ok: Bank -> bool): seq<Bank> {
    if n == 0 then [] else
    var found := Scan(banks, first, n - 1, ok);
    found + Filter(DayRows(banks, first + n - 1), Fresh(ok, found))
  }

  function Search(banks: seq<Bank>, day: int, tolerance: nat, ok: Bank -> bool): seq<Bank> {
    Scan(banks, day - tolerance, 2 * tolerance + 1, ok)
  }

  ghost predicate Numbered(banks: seq<Bank>) {
    forall i | 0 <= i < |banks| :: banks[i].index == i
  }

  // ---------------------------------------------------------------- what the search finds

  lemma {:induction false} ScanFinds(banks: seq<Bank>, first: int, n: nat, ok: Bank -> bool, b: Bank)
    ensures b in Scan(banks, first, n, ok) <==>
      b in banks && ok(b) && exists d | first <= d < first + n :: FiledOn(b, d)
  {
    if n > 0 {
      ScanFinds(banks, first, n - 1, ok, b);
      var last := first + n - 1;
      InFilter(banks, OnDay(last));
      InFilter(DayRows(banks, last), Fresh(ok, Scan(banks, first, n - 1, ok)));
      assert (exists d | first <= d < first + n :: FiledOn(b, d)) <==>
          (exists d | first <= d < last :: FiledOn(b, d)) || FiledOn(b, last);
    }
  }

  /** The day-by-day search finds exactly what one pass over all banks would accept: the condition holds and
      the transaction date or the value date lies within the tolerance. */
  lemma SearchIsLinearScan(banks: seq<Bank>, day: int, tolerance: nat, ok: Bank -> bool, b: Bank)
    ensures b in Search(banks, day, tolerance, ok) <==> b in banks && ok(b) && WithinDays(b, day, tolerance)
  {
    ScanFinds(banks, day - tolerance, 2 * tolerance + 1, ok, b);
    if WithinDays(b, day, tolerance) {
      var d := if b.epochDay.Some? && Gap(b.epochDay.value, day) <= tolerance then b.epochDay.value
               else b.valueEpochDay.value;
      assert FiledOn(b, d) && day - tolerance <= d < day - tolerance + (2 * tolerance + 1);
    }
  }

  lemma DistinctBanks(banks: seq<Bank>)
    requires Numbered(banks)
    ensures Distinct(banks)
  {
    forall i, j | 0 <= i < j < |banks|
      ensures banks[i] != banks[j]
    {
      assert banks[i].index == i && banks[j].index == j;
    }
  }

  /** The first day, from `first` on, that a bank is filed under. */
  ghost function FirstHit(b: Bank, first: int): int {
    match (b.epochDay, b.valueEpochDay)
    case (Some(e), Some(v)) => if e < first || first <= v < e then v else e
    case (Some(e), None) => e
    case (None, Some(v)) => v
    case (None, None) => first
  }

  ghost predicate InScanOrder(xs: seq<Bank>, first: int) {
    forall i, j | 0 <= i < j < |xs| ::
      || FirstHit(xs[i], first) < FirstHit(xs[j], first)
      || (FirstHit(xs[i], first) == FirstHit(xs[j], first) && xs[i].index < xs[j].index)
  }

  ghost predicate Increasing(xs: seq<Bank>) {
    forall i, j | 0 <= i < j < |xs| :: xs[i].index < xs[j].index
  }

  lemma {:induction false} FilterIncreasing(banks: seq<Bank>, p: Bank -> bool)
    requires Increasing(banks)
    ensures Increasing(Filter(banks, p))
  {
    if |banks| > 0 {
      var front := banks[..|banks| - 1];
      FilterIncreasing(front, p);
      var r := Filter(front, p);
      InFilter(front, p);
      forall i | 0 <= i < |r|
        ensures r[i].index < banks[|banks| - 1].index
      {
        assert r[i] in front;
        var k :| 0 <= k < |front| && front[k] == r[i];
        assert banks[k].index < banks[|banks| - 1].index;
      }
    }
  }

  /** A bank newly found on a day has that day as its first. */
  lemma NewOnLastDay(banks: seq<Bank>, first: int, n: nat, ok: Bank -> bool, b: Bank)
    requires b in Filter(DayRows(banks, first + n), Fresh(ok, Scan(banks, first, n, ok)))
    ensures FirstHit(b, first) == first + n
  {
    ScanFinds(banks, first, n, ok, b);
    InFilter(banks, OnDay(first + n));
    InFilter(DayRows(banks, first + n), Fresh(ok, Scan(banks, first, n, ok)));
    var hit := FirstHit(b, first);
    assert FiledOn(b, first + n) && FiledOn(b, hit) && first <= hit <= first + n;
  }

  /** The order candidates reach the tie-breaking sorts in: by the first day of the window they appear on,
      then by sheet position. In particular no bank appears twice. */
  lemma {:induction false} ScanOrder(banks: seq<Bank>, first: int, n: nat, ok: Bank -> bool)
    requires Numbered(banks)
    ensures InScanOrder(Scan(banks, first, n, ok), first)
    ensures forall b | b in Scan(banks, first, n, ok) :: first <= FirstHit(b, first) < first + n
  {
    if n > 0 {
      ScanOrder(banks, first, n - 1, ok);
      var found := Scan(banks, first, n - 1, ok);
      var last := first + n - 1;
      var added := Filter(DayRows(banks, last), Fresh(ok, found));
      assert Increasing(added) by {
        FilterIncreasing(banks, OnDay(last));
        FilterIncreasing(DayRows(banks, last), Fresh(ok, found));
      }
      forall b | b in added
        ensures FirstHit(b, first) == last
      {
        NewOnLastDay(banks, first, n - 1, ok, b);
      }
      AppendInOrder(found, added, first, last);
      assert Scan(banks, first, n, ok) == found + added;
    }
  }

  lemma AppendInOrder(found: seq<Bank>, added: seq<Bank>, first: int, last: int)
    requires InScanOrder(found, first) && Increasing(added)
    requires forall b | b in found :: FirstHit(b, first) < last
    requires forall b | b in added :: FirstHit(b, first) == last
    ensures InScanOrder(found + added, first)
    ensures forall b | b in found + added :: b in found || FirstHit(b, first) == last
  {
    var all := found + added;
    forall i, j | 0 <= i < j < |all|
      ensures || FirstHit(all[i], first) < FirstHit(all[j], first)
              || (FirstHit(all[i], first) == FirstHit(all[j], first) && all[i].index < all[j].index)
    {
      if j < |found| {
        assert all[i] == found[i] && all[j] == found[j];
      } else if i < |found| {
        assert all[i] in found && all[j] in added;
      } else {
        assert all[i] == added[i - |found|] && all[j] == added[j - |found|];
        assert all[i] in added && all[j] in added;
      }
    }
  }

  lemma SearchOrder(banks: seq<Bank>, day: int, tolerance: nat, ok: Bank -> bool)
    requires Numbered(banks)
    ensures InScanOrder(Search(banks, day, tolerance, ok), day - tolerance)
    ensures Distinct(Search(banks, day, tolerance, ok))
  {
    ScanOrder(banks, day - tolerance, 2 * tolerance + 1, ok);
  }

  // ---------------------------------------------------------------- the two loops

  /** The days a bank is filed under, without repetition. */
  function Days(b: Bank): seq<int> {
    match (b.epochDay, b.valueEpochDay)
    case (Some(e), Some(v)) => if e == v then [e] else [e, v]
    case (Some(e), None) => [e]
    case (None, Some(v)) => [v]
    case (None, None) => []
  }

  lemma FileOneMore(banks: seq<Bank>, k: nat, d: int)
    requires k < |banks|
    ensures DayRows(banks[..k + 1], d) == DayRows(banks[..k], d) + (if d in Days(banks[k]) then [banks[k]] else [])
  {
    FilterSnoc(banks, k, OnDay(d));
  }

  function At(byDay: map<int, seq<Bank>>, d: int): seq<Bank> {
    if d in byDay then byDay[d] else []
  }

  /** Appends one bank to the list of each of its days. */
  method FileBank(byDay: map<int, seq<Bank>>, b: Bank) returns (filed: map<int, seq<Bank>>)
    ensures forall d :: At(filed, d) == At(byDay, d) + (if d in Days(b) then [b] else [])
  {
    var days := Days(b);
    filed := byDay;
    for i := 0 to |days|
      invariant forall d :: At(filed, d) == if d in days[..i] then At(byDay, d) + [b] else At(byDay, d)
    {
      assert days[i] !in days[..i];
      assert forall d :: d in days[..i + 1] <==> d in days[..i] || d == days[i];
      filed := filed[days[i] := At(filed, days[i]) + [b]];
    }
    assert days[..|days|] == days;
  }

  method IndexBanksByDay(banks: seq<Bank>) returns (byDay: map<int, seq<Bank>>)
    ensures forall d :: At(byDay, d) == DayRows(banks, d)
  {
    byDay := map[];
    for k := 0 to |banks|
      invariant forall d :: At(byDay, d) == DayRows(banks[..k], d)
    {
      forall d {
        FileOneMore(banks, k, d);
      }
      byDay := FileBank(byDay, banks[k]);
    }
    assert banks[..|banks|] == banks;
  }

  /** One day of the search loop: takes what is acceptable and not seen before. */
  method SearchDay(banks: seq<Bank>, today: seq<Bank>, ok: Bank -> bool, found: seq<Bank>, before: set<nat>)
    returns (candidates: seq<Bank>, seen: set<nat>)
    requires Numbered(banks) && SeenAre(banks, found, before) && Distinct(today)
    requires forall b | b in today :: b in banks
    ensures candidates == found + Filter(today, Fresh(ok, found))
    ensures SeenAre(banks, candidates, seen)
  {
    candidates, seen := found, before;
    for i := 0 to |today|
      invariant candidates == found + Filter(today[..i], Fresh(ok, found))
      invariant SeenAre(banks, candidates, seen)
    {
      var b := today[i];
      NextToday(banks, today, i, ok, found);
      NotYetSeen(banks, candidates, seen, b);
      if b.index !in seen && ok(b) {
        seen := seen + {b.index};
        candidates := candidates + [b];
      }
    }
    assert today[..|today|] == today;
  }

  /** The search loop over the index, with its set of already seen bank numbers. */
  method SearchByDay(banks: seq<Bank>, byDay: map<int, seq<Bank>>, day: int, tolerance: nat, ok: Bank -> bool)
    returns (candidates: seq<Bank>)
    requires Numbered(banks)
    requires forall d :: At(byDay, d) == DayRows(banks, d)
    ensures candidates == Search(banks, day, tolerance, ok)
  {
    candidates := [];
    var seen: set<nat> := {};
    var first, days := day - tolerance, 2 * tolerance + 1;
    for n := 0 to days
      invariant candidates == Scan(banks, first, n, ok) && SeenAre(banks, candidates, seen)
    {
      var today := At(byDay, first + n);
      NextDay(banks, first, n, ok, candidates, today);
      candidates, seen := SearchDay(banks, today, ok, candidates, seen);
    }
  }

  lemma NextToday(banks: seq<Bank>, today: seq<Bank>, i: nat, ok: Bank -> bool, found: seq<Bank>)
    requires i < |today| && Distinct(today)
    requires forall b | b in today :: b in banks
    ensures today[i] in banks
    ensures today[i] !in Filter(today[..i], Fresh(ok, found))
    ensures Filter(today[..i + 1], Fresh(ok, found))
         == Filter(today[..i], Fresh(ok, found)) + if ok(today[i]) && today[i] !in found then [today[i]] else []
  {
    FilterSnoc(today, i, Fresh(ok, found));
    InFilter(today[..i], Fresh(ok, found));
  }

  ghost predicate SeenAre(banks: seq<Bank>, candidates: seq<Bank>, seen: set<nat>) {
    && (forall b | b in candidates :: b in banks && b.index in seen)
    && (forall i | i in seen :: exists b :: b in candidates && b.index == i)
  }

  lemma NotYetSeen(banks: seq<Bank>, candidates: seq<Bank>, seen: set<nat>, b: Bank)
    requires Numbered(banks) && SeenAre(banks, candidates, seen) && b in banks
    ensures b.index in seen <==> b in candidates
  {
    if b.index in seen {
      var c :| c in candidates && c.index == b.index;
      var i, j :| 0 <= i < |banks| && banks[i] == b && 0 <= j < |banks| && banks[j] == c;
    }
  }

  /** What one more day of the scan adds. */
  lemma NextDay(banks: seq<Bank>, first: int, n: nat, ok: Bank -> bool, found: seq<Bank>, today: seq<Bank>)
    requires Numbered(banks) && found == Scan(banks, first, n, ok) && today == DayRows(banks, first + n)
    ensures found + Filter(today, Fresh(ok, found)) == Scan(banks, first, n + 1, ok)
    ensures Distinct(today) && forall b | b in today :: b in banks
  {
    InFilter(banks, OnDay(first + n));
    DistinctBanks(banks);
    FilterKeepsDistinct(banks, OnDay(first + n));
  }
}
