/** Account codes learned from rows whose reference is already known: a hash join with nested counters, and
    the plain pair count it stands for. */
module Aliases {
  import opened Basics
  import opened Ledger

  /** A preserved row with code `a` and a bank with code `c` that carry the same reference. */
  predicate Shares(inp: Input, i: nat, j: nat, a: string, c: string)
    requires i < |inp.rows| && j < |inp.banks|
  {
    && inp.Preserved(inp.rows[i]) && inp.rows[i].accountCode == a != ""
    && WithRef(inp, NormalizeReference(inp.ev, inp.rows[i].paymentReference))(inp.banks[j])
    && inp.banks[j].accountCode == c
  }

  ghost function Pairs(inp: Input, a: string, c: string, rows: nat): set<(nat, nat)>
    requires rows <= |inp.rows|
  {
    set i: nat, j: nat | i < rows && j < |inp.banks| && Shares(inp, i, j, a, c) :: (i, j)
  }

  ghost predicate IsAlias(inp: Input, a: string, c: string) {
    var n := |Pairs(inp, a, c, |inp.rows|)|;
    n >= 2 || (n >= 1 && c == a)
  }

  ghost function AliasesOf(inp: Input, a: string): set<string> {
    set b | b in inp.banks && IsAlias(inp, a, b.accountCode) :: b.accountCode
  }

  // ---------------------------------------------------------------- counting

  function WithRef(inp: Input, ref: string): Bank -> bool {
    (b: Bank) => inp.Ref(b) == ref && ref != "" && b.accountCode != ""
  }

  function WithCode(c: string): Bank -> bool {
    (b: Bank) => b.accountCode == c
  }

  function RowCount(inp: Input, k: nat, a: string, c: string): nat
    requires k < |inp.rows|
  {
    var ist := inp.rows[k];
    if inp.Preserved(ist) && ist.accountCode == a && a != "" then
      |Filter(Filter(inp.banks, WithRef(inp, NormalizeReference(inp.ev, ist.paymentReference))), WithCode(c))|
    else 0
  }

  function PairCount(inp: Input, a: string, c: string, rows: nat): nat
    requires rows <= |inp.rows|
  {
    if rows == 0 then 0 else PairCount(inp, a, c, rows - 1) + RowCount(inp, rows - 1, a, c)
  }

  ghost function Partners(inp: Input, k: nat, a: string, c: string): set<nat>
    requires k < |inp.rows|
  {
    set j: nat | j < |inp.banks| && Shares(inp, k, j, a, c)
  }

  ghost function PairUp(k: nat, js: set<nat>): set<(nat, nat)> {
    set j | j in js :: (k, j)
  }

  lemma {:induction false} PairUpSize(k: nat, js: set<nat>)
    ensures |PairUp(k, js)| == |js|
  {
    if js != {} {
      var j :| j in js;
      PairUpSize(k, js - {j});
      assert PairUp(k, js) == PairUp(k, js - {j}) + {(k, j)};
    }
  }

  lemma PartnersCounted(inp: Input, k: nat, a: string, c: string)
    requires k < |inp.rows|
    ensures |Partners(inp, k, a, c)| == RowCount(inp, k, a, c)
  {
    var ist := inp.rows[k];
    if inp.Preserved(ist) && ist.accountCode == a && a != "" {
      var p := WithRef(inp, NormalizeReference(inp.ev, ist.paymentReference));
      var n := |inp.banks|;
      FilterTwice(inp.banks, p, WithCode(c));
      FilterSize(inp.banks, Both(p, WithCode(c)), n);
      assert inp.banks[..n] == inp.banks;
      assert Partners(inp, k, a, c) == Positions(inp.banks, Both(p, WithCode(c)), n);
    } else {
      assert Partners(inp, k, a, c) == {};
    }
  }

  lemma PairsByRow(inp: Input, a: string, c: string, k: nat)
    requires k < |inp.rows|
    ensures var mine := PairUp(k, Partners(inp, k, a, c));
      Pairs(inp, a, c, k + 1) == Pairs(inp, a, c, k) + mine && Pairs(inp, a, c, k) !! mine
  {
    var mine := PairUp(k, Partners(inp, k, a, c));
    forall i: nat, j: nat
      ensures (i, j) in Pairs(inp, a, c, k + 1) <==> (i, j) in Pairs(inp, a, c, k) || (i, j) in mine
    {
    }
  }

  lemma UnionSize(xs: set<(nat, nat)>, ys: set<(nat, nat)>)
    requires xs !! ys
    ensures |xs + ys| == |xs| + |ys|
  {
  }

  /** The nested counters count pairs. */
  lemma {:induction false} CountersCountPairs(inp: Input, a: string, c: string, rows: nat)
    requires rows <= |inp.rows|
    ensures PairCount(inp, a, c, rows) == |Pairs(inp, a, c, rows)|
  {
    if rows > 0 {
      var k := rows - 1;
      CountersCountPairs(inp, a, c, k);
      PartnersCounted(inp, k, a, c);
      PairUpSize(k, Partners(inp, k, a, c));
      PairsByRow(inp, a, c, k);
      UnionSize(Pairs(inp, a, c, k), PairUp(k, Partners(inp, k, a, c)));
    }
  }

  // ---------------------------------------------------------------- the loops

  function At(byRef: map<string, seq<Bank>>, ref: string): seq<Bank> {
    if ref in byRef then byRef[ref] else []
  }

  function Count(counts: map<string, map<string, nat>>, a: string, c: string): nat {
    if a in counts && c in counts[a] then counts[a][c] else 0
  }

  lemma OneMoreBank(inp: Input, k: nat, r: string)
    requires k < |inp.banks|
    ensures Filter(inp.banks[..k + 1], WithRef(inp, r)) == Filter(inp.banks[..k], WithRef(inp, r))
      + (if r == inp.Ref(inp.banks[k]) != "" && inp.banks[k].accountCode != "" then [inp.banks[k]] else [])
  {
    FilterSnoc(inp.banks, k, WithRef(inp, r));
  }

  method IndexByReference(inp: Input) returns (byRef: map<string, seq<Bank>>)
    ensures forall r :: At(byRef, r) == Filter(inp.banks, WithRef(inp, r))
  {
    byRef := map[];
    for k := 0 to |inp.banks|
      invariant forall r :: At(byRef, r) == Filter(inp.banks[..k], WithRef(inp, r))
    {
      var b := inp.banks[k];
      var ref := inp.Ref(b);
      ghost var before := byRef;
      if ref != "" && b.accountCode != "" {
        byRef := byRef[ref := At(byRef, ref) + [b]];
      }
      forall r
        ensures At(byRef, r) == Filter(inp.banks[..k + 1], WithRef(inp, r))
      {
        OneMoreBank(inp, k, r);
        assert At(before, r) == Filter(inp.banks[..k], WithRef(inp, r));
      }
    }
    assert inp.banks[..|inp.banks|] == inp.banks;
  }

  ghost predicate AllPositive(counts: map<string, map<string, nat>>) {
    forall x, c | x in counts && c in counts[x] :: counts[x][c] > 0
  }

  function Bump(counts: map<string, map<string, nat>>, a: string, code: string): (r: map<string, map<string, nat>>)
    ensures forall x, c :: Count(r, x, c) == Count(counts, x, c) + if x == a && c == code then 1 else 0
    ensures AllPositive(counts) ==> AllPositive(r)
  {
    var account := if a in counts then counts[a] else map[];
    counts[a := account[code := Count(counts, a, code) + 1]]
  }

  function CodeCount(banks: seq<Bank>, n: nat, c: string): nat
    requires n <= |banks|
  {
    |Filter(banks[..n], WithCode(c))|
  }

  lemma CodeCountStep(banks: seq<Bank>, i: nat)
    requires i < |banks|
    ensures forall c ::
      CodeCount(banks, i + 1, c) == CodeCount(banks, i, c) + if c == banks[i].accountCode then 1 else 0
  {
    forall c {
      FilterSnoc(banks, i, WithCode(c));
    }
  }

  /** Adds one row's banks to the counters of the row's code. */
  method CountRow(counts: map<string, map<string, nat>>, a: string, banks: seq<Bank>)
    returns (counted: map<string, map<string, nat>>)
    requires AllPositive(counts)
    ensures AllPositive(counted)
    ensures forall x, c ::
      (Count(counted, x, c) == Count(counts, x, c) + if x == a then |Filter(banks, WithCode(c))| else 0)
  {
    counted := counts;
    assert forall c :: CodeCount(banks, 0, c) == 0;
    for i := 0 to |banks|
      invariant AllPositive(counted)
      invariant forall x, c ::
        (Count(counted, x, c) == Count(counts, x, c) + if x == a then CodeCount(banks, i, c) else 0)
    {
      CodeCountStep(banks, i);
      counted := Bump(counted, a, banks[i].accountCode);
    }
    assert banks[..|banks|] == banks;
  }

  method CountPairs(inp: Input) returns (counts: map<string, map<string, nat>>)
    ensures AllPositive(counts)
    ensures forall a, c :: Count(counts, a, c) == |Pairs(inp, a, c, |inp.rows|)|
  {
    var byRef := IndexByReference(inp);
    counts := map[];
    for k := 0 to |inp.rows|
      invariant AllPositive(counts)
      invariant forall a, c :: Count(counts, a, c) == PairCount(inp, a, c, k)
    {
      var ist := inp.rows[k];
      if inp.Preserved(ist) && ist.accountCode != "" {
        var ref := NormalizeReference(inp.ev, ist.paymentReference);
        counts := CountRow(counts, ist.accountCode, At(byRef, ref));
      }
    }
    forall a, c {
      CountersCountPairs(inp, a, c, |inp.rows|);
    }
  }

  lemma {:induction false} PairHasBank(inp: Input, a: string, c: string)
    requires |Pairs(inp, a, c, |inp.rows|)| > 0
    ensures exists b | b in inp.banks :: b.accountCode == c
  {
    var ij :| ij in Pairs(inp, a, c, |inp.rows|);
    assert inp.banks[ij.1] in inp.banks;
  }

  /** Accepts a code seen twice, or once when it is the row's own code. */
  method LearnAccountAliases(inp: Input) returns (aliases: map<string, set<string>>)
    ensures forall a :: (if a in aliases then aliases[a] else {}) == AliasesOf(inp, a)
  {
    var counts := CountPairs(inp);
    aliases := map[];
    var todo := counts.Keys;
    while todo != {}
      invariant todo <= counts.Keys
      invariant forall a | a in aliases :: a in counts && a !in todo && aliases[a] == Accepted(a, counts[a])
      invariant forall a | a in counts && a !in todo :: a in aliases || Accepted(a, counts[a]) == {}
    {
      var a :| a in todo;
      var accepted := Accepted(a, counts[a]);
      if accepted != {} {
        aliases := aliases[a := accepted];
      }
      todo := todo - {a};
    }
    forall a
      ensures (if a in aliases then aliases[a] else {}) == AliasesOf(inp, a)
    {
      AcceptedAreAliases(inp, counts, a);
    }
  }

  function Accepted(istCode: string, counts: map<string, nat>): set<string> {
    set c | c in counts && (c == istCode || counts[c] >= 2)
  }

  lemma AcceptedAreAliases(inp: Input, counts: map<string, map<string, nat>>, a: string)
    requires AllPositive(counts)
    requires forall x, c :: Count(counts, x, c) == |Pairs(inp, x, c, |inp.rows|)|
    ensures (if a in counts then Accepted(a, counts[a]) else {}) == AliasesOf(inp, a)
  {
    forall c
      ensures c in AliasesOf(inp, a) <==> a in counts && c in counts[a] && (c == a || counts[a][c] >= 2)
    {
      assert Count(counts, a, c) == |Pairs(inp, a, c, |inp.rows|)|;
      if IsAlias(inp, a, c) {
        PairHasBank(inp, a, c);
      }
    }
  }
}
