/** Small pieces shared by the other modules: optional values, filtering, and the choice of the first
    best element that a stable sort would put in front. */
module Basics {
  datatype Option<+T> = None | Some(value: T)

  function Max(x: real, y: real): real {
    if x < y then y else x
  }

  function Min(x: real, y: real): real {
    if y < x then y else x
  }

  function Abs(x: real): real {
    if x < 0.0 then -x else x
  }

  function Gap(x: int, y: int): nat {
    if x < y then y - x else x - y
  }

  function Filter<T>(xs: seq<T>, p: T -> bool): seq<T> {
    if |xs| == 0 then [] else
    var front := Filter(xs[..|xs| - 1], p);
    if p(xs[|xs| - 1]) then front + [xs[|xs| - 1]] else front
  }

  function Map<S, T>(xs: seq<S>, f: S -> T): (r: seq<T>)
    ensures |r| == |xs|
    ensures forall i | 0 <= i < |xs| :: r[i] == f(xs[i])
  {
    seq(|xs|, i requires 0 <= i < |xs| => f(xs[i]))
  }

  function Join(xs: seq<string>): string {
    if |xs| == 0 then ""
    else if |xs| == 1 then xs[0]
    else Join(xs[..|xs| - 1]) + " " + xs[|xs| - 1]
  }

  /** String.prototype.includes. */
  predicate Contains(text: string, part: string) {
    exists i | 0 <= i <= |text| :: OccursAt(text, part, i)
  }

  predicate OccursAt(text: string, part: string, i: nat)
    requires i <= |text|
  {
    part <= text[i..]
  }

  ghost predicate Distinct<T>(xs: seq<T>) {
    forall i, j | 0 <= i < j < |xs| :: xs[i] != xs[j]
  }

  /** A JavaScript Set read back as a list: first occurrences, in order. */
  function Dedupe<T(==)>(xs: seq<T>): seq<T> {
    if |xs| == 0 then [] else
    var front := Dedupe(xs[..|xs| - 1]);
    if xs[|xs| - 1] in front then front else front + [xs[|xs| - 1]]
  }

  lemma {:induction false} InDedupe<T(!new)>(xs: seq<T>)
    ensures forall x :: x in Dedupe(xs) <==> x in xs
    ensures Distinct(Dedupe(xs))
  {
    if |xs| > 0 {
      InDedupe(xs[..|xs| - 1]);
      assert xs == xs[..|xs| - 1] + [xs[|xs| - 1]];
    }
  }

  lemma DedupeSnoc<T(!new)>(xs: seq<T>, x: T)
    ensures Dedupe(xs + [x]) == if x in Dedupe(xs) then Dedupe(xs) else Dedupe(xs) + [x]
  {
    assert (xs + [x])[..|xs|] == xs;
  }

  /** Adding a list to a Set one by one. */
  method AddAll<T(==,!new)>(found: seq<T>, more: seq<T>, ghost soFar: seq<T>) returns (grown: seq<T>)
    requires found == Dedupe(soFar)
    ensures grown == Dedupe(soFar + more)
  {
    grown := found;
    assert soFar + more[..0] == soFar;
    for i := 0 to |more|
      invariant grown == Dedupe(soFar + more[..i])
    {
      DedupeSnoc(soFar + more[..i], more[i]);
      assert soFar + more[..i + 1] == soFar + more[..i] + [more[i]];
      if more[i] !in grown {
        grown := grown + [more[i]];
      }
    }
    assert more[..|more|] == more;
  }

  /** What a loop adds up: it holds after `k` turns if it held before or one of the turns brought it about. */
  lemma {:induction false} AddsUp(has: nat -> bool, adds: nat -> bool, k: nat)
    requires forall j: nat | j < k :: Turn(has, adds, j)
    ensures has(k) <==> has(0) || exists j: nat :: j < k && adds(j)
  {
    if k > 0 {
      AddsUp(has, adds, k - 1);
      assert Turn(has, adds, k - 1);
      if j: nat :| j < k && adds(j) {
        assert j == k - 1 || exists i: nat :: i < k - 1 && adds(i);
      }
    }
  }

  ghost predicate Turn(has: nat -> bool, adds: nat -> bool, j: nat) {
    has(j + 1) <==> has(j) || adds(j)
  }

  /** A sort key, compared component by component; larger comes first. */
  datatype Rank = Rank(first: real, second: real, third: real)

  predicate Below(a: Rank, b: Rank) {
    || a.first < b.first
    || (a.first == b.first && a.second < b.second)
    || (a.first == b.first && a.second == b.second && a.third < b.third)
  }

  /** The position a stable descending sort by `key` puts first. */
  function Foremost<T>(xs: seq<T>, key: T -> Rank): (best: nat)
    requires |xs| > 0
    ensures best < |xs|
  {
    if |xs| == 1 then 0 else
    var n := |xs| - 1;
    var b := Foremost(xs[..n], key);
    if Below(key(xs[b]), key(xs[n])) then n else b
  }

  /** Nothing outranks the foremost element, and everything before it ranks strictly lower. */
  lemma {:induction false} ForemostIsBest<T>(xs: seq<T>, key: T -> Rank)
    requires |xs| > 0
    ensures forall j | 0 <= j < |xs| :: !Below(key(xs[Foremost(xs, key)]), key(xs[j]))
    ensures forall j | 0 <= j < Foremost(xs, key) :: Below(key(xs[j]), key(xs[Foremost(xs, key)]))
  {
    if |xs| > 1 {
      var n := |xs| - 1;
      ForemostIsBest(xs[..n], key);
      assert forall j | 0 <= j < n :: xs[..n][j] == xs[j];
    }
  }

  lemma OneOfOne<T(!new)>(xs: seq<T>, x: T)
    requires Distinct(xs) && forall y :: y in xs <==> y == x
    ensures xs == [x]
  {
    assert x in xs;
    assert forall i | 0 <= i < |xs| :: xs[i] in xs;
    assert xs[|xs| - 1] == xs[0];
  }

  lemma {:induction false} InFilter<T(!new)>(xs: seq<T>, p: T -> bool)
    ensures forall x :: x in Filter(xs, p) <==> x in xs && p(x)
  {
    if |xs| > 0 {
      InFilter(xs[..|xs| - 1], p);
      assert xs == xs[..|xs| - 1] + [xs[|xs| - 1]];
    }
  }

  lemma FilterSnoc<T>(xs: seq<T>, k: nat, p: T -> bool)
    requires k < |xs|
    ensures Filter(xs[..k + 1], p) == Filter(xs[..k], p) + (if p(xs[k]) then [xs[k]] else [])
  {
    assert xs[..k + 1][..k] == xs[..k];
  }

  lemma {:induction false} FilterKeepsDistinct<T(!new)>(xs: seq<T>, p: T -> bool)
    requires Distinct(xs)
    ensures Distinct(Filter(xs, p))
  {
    if |xs| > 0 {
      FilterKeepsDistinct(xs[..|xs| - 1], p);
      InFilter(xs[..|xs| - 1], p);
    }
  }

  function Both<T>(p: T -> bool, q: T -> bool): T -> bool {
    x => p(x) && q(x)
  }

  lemma {:induction false} FilterTwice<T>(xs: seq<T>, p: T -> bool, q: T -> bool)
    ensures Filter(Filter(xs, p), q) == Filter(xs, Both(p, q))
  {
    if |xs| > 0 {
      FilterTwice(xs[..|xs| - 1], p, q);
      var front := Filter(xs[..|xs| - 1], p);
      if p(xs[|xs| - 1]) {
        assert (front + [xs[|xs| - 1]])[..|front|] == front;
      }
    }
  }

  ghost function Positions<T>(xs: seq<T>, p: T -> bool, n: nat): set<nat>
    requires n <= |xs|
  {
    set i: nat | i < n && p(xs[i])
  }

  /** A filter keeps as many elements as there are positions that satisfy the condition. */
  lemma {:induction false} FilterSize<T>(xs: seq<T>, p: T -> bool, n: nat)
    requires n <= |xs|
    ensures |Filter(xs[..n], p)| == |Positions(xs, p, n)|
  {
    if n > 0 {
      FilterSize(xs, p, n - 1);
      FilterSnoc(xs, n - 1, p);
      assert Positions(xs, p, n) == Positions(xs, p, n - 1) + if p(xs[n - 1]) then {n - 1 as nat} else {};
    }
  }

  lemma {:induction false} FilterNone<T>(xs: seq<T>, p: T -> bool)
    requires forall x | x in xs :: !p(x)
    ensures Filter(xs, p) == []
  {
    if |xs| > 0 {
      FilterNone(xs[..|xs| - 1], p);
    }
  }

  lemma {:induction false} FilterCongruent<T>(xs: seq<T>, p: T -> bool, q: T -> bool)
    requires forall x | x in xs :: p(x) == q(x)
    ensures Filter(xs, p) == Filter(xs, q)
  {
    if |xs| > 0 {
      FilterCongruent(xs[..|xs| - 1], p, q);
    }
  }

  lemma AppendAssoc<T>(xs: seq<T>, ys: seq<T>, z: T)
    ensures xs + ys + [z] == xs + (ys + [z])
  {
  }
}
