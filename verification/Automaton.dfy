/** The multi-pattern text matcher: a trie with failure links, searched in one pass over the text. */
module Automaton {
  import opened Basics

  datatype Pattern = Pattern(text: string, id: nat)

  datatype Node = Node(next: map<char, nat>, fail: nat, outputs: seq<nat>)

  // ---------------------------------------------------------------- what is to be found

  /** Ids of the patterns that are exactly `w`, in the order they were added. */
  function Own(patterns: seq<Pattern>, w: string): seq<nat> {
    if |patterns| == 0 then [] else
    var p := patterns[|patterns| - 1];
    Own(patterns[..|patterns| - 1], w) + if p.text == w then [p.id] else []
  }

  /** Ids of the patterns `w` ends with, longest first. */
  function Ends(patterns: seq<Pattern>, w: string): seq<nat> {
    if w == "" then [] else Own(patterns, w) + Ends(patterns, w[1..])
  }

  /** Everything that occurs in the first `n` characters, by end position. */
  function Hits(patterns: seq<Pattern>, text: string, n: nat): seq<nat>
    requires n <= |text|
  {
    if n == 0 then [] else Hits(patterns, text, n - 1) + Ends(patterns, text[..n])
  }

  /** Everything that occurs in the first `n` texts. */
  function AllHits(patterns: seq<Pattern>, texts: seq<string>, n: nat): seq<nat>
    requires n <= |texts|
  {
    if n == 0 then [] else AllHits(patterns, texts, n - 1) + Hits(patterns, texts[n - 1], |texts[n - 1]|)
  }

  ghost predicate Suffix(u: string, w: string) {
    |u| <= |w| && w[|w| - |u|..] == u
  }

  ghost predicate OccursIn(part: string, text: string) {
    exists n | 0 <= n <= |text| :: Suffix(part, text[..n])
  }

  lemma {:induction false} InOwn(patterns: seq<Pattern>, w: string, id: nat)
    ensures id in Own(patterns, w) <==> Pattern(w, id) in patterns
  {
    if |patterns| > 0 {
      InOwn(patterns[..|patterns| - 1], w, id);
      assert patterns == patterns[..|patterns| - 1] + [patterns[|patterns| - 1]];
    }
  }

  lemma {:induction false} InEnds(patterns: seq<Pattern>, w: string, id: nat)
    ensures id in Ends(patterns, w) <==>
      exists p | p in patterns :: p.id == id && p.text != "" && Suffix(p.text, w)
  {
    if w != "" {
      InEnds(patterns, w[1..], id);
      InOwn(patterns, w, id);
      forall u: string
        ensures Suffix(u, w) <==> u == w || Suffix(u, w[1..])
      {
        if |u| < |w| {
          assert w[1..][|w| - 1 - |u|..] == w[|w| - |u|..];
        }
      }
      assert forall p :: p in patterns && p.id == id && p.text == w ==> p == Pattern(w, id);
    }
  }

  /** A pattern with this id occurs in the text. */
  ghost predicate MentionedIn(patterns: seq<Pattern>, text: string, id: nat) {
    exists p | p in patterns :: p.id == id && p.text != "" && OccursIn(p.text, text)
  }

  lemma OccursSnoc(part: string, text: string, n: nat)
    requires 0 < n <= |text|
    ensures OccursIn(part, text[..n]) <==> OccursIn(part, text[..n - 1]) || Suffix(part, text[..n])
  {
    assert forall k | 0 <= k <= n - 1 :: text[..n][..k] == text[..n - 1][..k];
    assert text[..n][..n] == text[..n];
    if OccursIn(part, text[..n - 1]) {
      var k :| 0 <= k <= n - 1 && Suffix(part, text[..n - 1][..k]);
      assert Suffix(part, text[..n][..k]);
    }
    if OccursIn(part, text[..n]) && !Suffix(part, text[..n]) {
      var k :| 0 <= k <= n && Suffix(part, text[..n][..k]);
      assert k <= n - 1 && Suffix(part, text[..n - 1][..k]);
    }
  }

  /** One pass reports a pattern exactly when it occurs somewhere in the text. */
  lemma {:induction false} InHits(patterns: seq<Pattern>, text: string, n: nat, id: nat)
    requires n <= |text|
    ensures id in Hits(patterns, text, n) <==> MentionedIn(patterns, text[..n], id)
  {
    if n > 0 {
      InHits(patterns, text, n - 1, id);
      InEnds(patterns, text[..n], id);
      forall p | p in patterns
        ensures OccursIn(p.text, text[..n]) <==> OccursIn(p.text, text[..n - 1]) || Suffix(p.text, text[..n])
      {
        OccursSnoc(p.text, text, n);
      }
    }
  }

  lemma HitsOfOneMore(patterns: seq<Pattern>, texts: seq<string>, n: nat, id: nat)
    requires n < |texts|
    ensures id in AllHits(patterns, texts, n + 1) <==>
      id in AllHits(patterns, texts, n) || id in Hits(patterns, texts[n], |texts[n]|)
  {
    InConcat(AllHits(patterns, texts, n), Hits(patterns, texts[n], |texts[n]|), id);
  }

  lemma InConcat(xs: seq<nat>, ys: seq<nat>, x: nat)
    ensures x in xs + ys <==> x in xs || x in ys
  {
  }

  lemma HitsAddUp(patterns: seq<Pattern>, texts: seq<string>, id: nat, reports: nat -> bool)
    requires forall k: nat | k < |texts| :: reports(k) <==> id in Hits(patterns, texts[k], |texts[k]|)
    ensures id in AllHits(patterns, texts, |texts|) <==> exists k: nat :: k < |texts| && reports(k)
  {
    forall k: nat | k < |texts|
      ensures Turn(HitBefore(patterns, texts, id), reports, k)
    {
      HitTurn(patterns, texts, id, reports, k);
    }
    AddsUp(HitBefore(patterns, texts, id), reports, |texts|);
  }

  ghost function HitBefore(patterns: seq<Pattern>, texts: seq<string>, id: nat): nat -> bool {
    (k: nat) => k <= |texts| && id in AllHits(patterns, texts, k)
  }

  lemma HitTurn(patterns: seq<Pattern>, texts: seq<string>, id: nat, reports: nat -> bool, k: nat)
    requires k < |texts| && (reports(k) <==> id in Hits(patterns, texts[k], |texts[k]|))
    ensures Turn(HitBefore(patterns, texts, id), reports, k)
  {
    HitsOfOneMore(patterns, texts, k, id);
  }

  lemma InHitsOf(patterns: seq<Pattern>, text: string, id: nat)
    ensures id in Hits(patterns, text, |text|) <==> MentionedIn(patterns, text, id)
  {
    InHits(patterns, text, |text|, id);
    assert text[..|text|] == text;
  }

  lemma MentionedSomewhere(patterns: seq<Pattern>, texts: seq<string>, id: nat, reports: nat -> bool)
    requires forall k: nat | k < |texts| :: reports(k) <==> MentionedIn(patterns, texts[k], id)
    ensures (exists k: nat :: k < |texts| && reports(k)) <==> exists t | t in texts :: MentionedIn(patterns, t, id)
  {
    if t :| t in texts && MentionedIn(patterns, t, id) {
      var k: nat :| k < |texts| && texts[k] == t;
      assert reports(k);
    }
  }

  /** The whole search: an id is reported exactly when its pattern occurs in one of the texts, and once. */
  lemma FindsExactlyTheOccurring(patterns: seq<Pattern>, texts: seq<string>, id: nat)
    ensures id in Dedupe<nat>(AllHits(patterns, texts, |texts|)) <==>
      exists t | t in texts :: MentionedIn(patterns, t, id)
    ensures Distinct(Dedupe<nat>(AllHits(patterns, texts, |texts|)))
  {
    var reports := (k: nat) => k < |texts| && MentionedIn(patterns, texts[k], id);
    forall k: nat | k < |texts|
      ensures reports(k) <==> id in Hits(patterns, texts[k], |texts[k]|)
    {
      InHitsOf(patterns, texts[k], id);
    }
    HitsAddUp(patterns, texts, id, reports);
    MentionedSomewhere(patterns, texts, id, reports);
    InDedupe<nat>(AllHits(patterns, texts, |texts|));
  }

  // ---------------------------------------------------------------- the trie

  function Front(w: string): string {
    if w == "" then "" else w[..|w| - 1]
  }

  function Last(w: string): char
    requires w != ""
  {
    w[|w| - 1]
  }

  ghost function Depth(labels: seq<string>, s: nat): nat {
    if s < |labels| then |labels[s]| else 0
  }

  /** Node `s` stands for the string `labels[s]`; the strings are closed under prefixes and the edges are
      exactly the one-letter extensions among them. */
  ghost predicate Shape(nodes: seq<Node>, labels: seq<string>) {
    && |nodes| == |labels| > 0
    && labels[0] == ""
    && Distinct(labels)
    && (forall s, c | 0 <= s < |nodes| && c in nodes[s].next :: IsEdge(labels, s, c, nodes[s].next[c]))
    && (forall s, t | 0 <= s < |labels| && 0 < t < |labels| :: Adjacent(nodes, labels, s, t))
    && (forall t | 0 <= t < |labels| :: HasFront(labels, t))
  }

  ghost predicate IsEdge(labels: seq<string>, s: nat, c: char, t: nat)
    requires s < |labels|
  {
    0 < t < |labels| && labels[t] == labels[s] + [c]
  }

  ghost predicate Adjacent(nodes: seq<Node>, labels: seq<string>, s: nat, t: nat)
    requires |nodes| == |labels| && s < |labels| && t < |labels|
  {
    && labels[t] != ""
    && (labels[s] == Front(labels[t]) ==>
          Last(labels[t]) in nodes[s].next && nodes[s].next[Last(labels[t])] == t)
  }

  ghost predicate HasFront(labels: seq<string>, t: nat)
    requires t < |labels|
  {
    Front(labels[t]) in labels
  }

  lemma FrontSnoc(w: string, c: char)
    ensures Front(w + [c]) == w && Last(w + [c]) == c
  {
  }

  lemma Edge(nodes: seq<Node>, labels: seq<string>, s: nat, c: char)
    requires Shape(nodes, labels) && s < |nodes| && c in nodes[s].next
    ensures var t := nodes[s].next[c];
      0 < t < |labels| && labels[t] == labels[s] + [c] && Front(labels[t]) == labels[s] && Last(labels[t]) == c
  {
    assert IsEdge(labels, s, c, nodes[s].next[c]);
  }

  /** Adding one node under `s`. */
  lemma GrowShape(nodes: seq<Node>, labels: seq<string>, s: nat, c: char)
    requires Shape(nodes, labels) && s < |nodes| && c !in nodes[s].next
    ensures Shape(nodes[s := nodes[s].(next := nodes[s].next[c := |nodes|])] + [Node(map[], 0, [])],
                  labels + [labels[s] + [c]])
  {
    var n := |nodes|;
    var nodes' := nodes[s := nodes[s].(next := nodes[s].next[c := n])] + [Node(map[], 0, [])];
    var w := labels[s] + [c];
    var labels' := labels + [w];
    NoSuchNode(nodes, labels, s, c);
    FrontSnoc(labels[s], c);
    forall x, d | 0 <= x < |nodes'| && d in nodes'[x].next
      ensures IsEdge(labels', x, d, nodes'[x].next[d])
    {
      if !(x == s && d == c) {
        assert IsEdge(labels, x, d, nodes[x].next[d]);
      }
    }
    forall x, t | 0 <= x < |labels'| && 0 < t < |labels'|
      ensures Adjacent(nodes', labels', x, t)
    {
      GrowAdjacent(nodes, labels, s, c, x, t);
    }
    forall t | 0 <= t < |labels'|
      ensures HasFront(labels', t)
    {
      if t < n {
        assert HasFront(labels, t);
      } else {
        assert labels'[s] == Front(labels'[t]);
      }
    }
  }

  lemma GrowAdjacent(nodes: seq<Node>, labels: seq<string>, s: nat, c: char, x: nat, t: nat)
    requires Shape(nodes, labels) && s < |nodes| && c !in nodes[s].next
    requires x <= |nodes| && 0 < t <= |nodes|
    ensures Adjacent(nodes[s := nodes[s].(next := nodes[s].next[c := |nodes|])] + [Node(map[], 0, [])],
                     labels + [labels[s] + [c]], x, t)
  {
    NoSuchNode(nodes, labels, s, c);
    FrontSnoc(labels[s], c);
    if t < |nodes| {
      assert HasFront(labels, t);
      if x < |nodes| {
        assert Adjacent(nodes, labels, x, t);
      } else {
        assert Adjacent(nodes, labels, 0, t);
      }
    }
  }

  /** The shape concerns edges only. */
  lemma SameEdges(nodes: seq<Node>, nodes': seq<Node>, labels: seq<string>)
    requires Shape(nodes, labels) && |nodes'| == |nodes|
    requires forall s | 0 <= s < |nodes| :: nodes'[s].next == nodes[s].next
    ensures Shape(nodes', labels)
  {
    forall s, t | 0 <= s < |labels| && 0 < t < |labels|
      ensures Adjacent(nodes', labels, s, t)
    {
      assert Adjacent(nodes, labels, s, t);
    }
  }

  ghost predicate HoldsPatterns(patterns: seq<Pattern>, labels: seq<string>) {
    forall p | p in patterns :: p.text in labels
  }

  /** Before linking: no failure link, and only the node's own patterns as output. */
  ghost predicate Unlinked(nodes: seq<Node>, labels: seq<string>, patterns: seq<Pattern>, s: nat)
    requires s < |nodes| == |labels|
  {
    nodes[s].fail == 0 && nodes[s].outputs == Own(patterns, labels[s])
  }

  /** `f` is the longest suffix of `w` that is a node. */
  ghost predicate LongestSuffix(labels: seq<string>, f: nat, w: string) {
    && f < |labels|
    && Suffix(labels[f], w)
    && forall u | u in labels && Suffix(u, w) :: |u| <= |labels[f]|
  }

  ghost predicate Linked(nodes: seq<Node>, labels: seq<string>, patterns: seq<Pattern>, s: nat)
    requires s < |nodes| == |labels|
  {
    && (labels[s] != "" ==> LongestSuffix(labels, nodes[s].fail, labels[s][1..]))
    && nodes[s].outputs == Ends(patterns, labels[s])
  }

  lemma SuffixOfSuffix(u: string, v: string, w: string)
    requires Suffix(u, w) && Suffix(v, w) && |u| <= |v|
    ensures Suffix(u, v)
  {
    assert v[|v| - |u|..] == w[|w| - |u|..];
  }

  lemma SuffixTransitive(u: string, v: string, w: string)
    requires Suffix(u, v) && Suffix(v, w)
    ensures Suffix(u, w)
  {
    assert v[|v| - |u|..] == w[|w| - |u|..];
  }

  lemma SuffixSnoc(u: string, w: string, c: char)
    ensures Suffix(u + [c], w + [c]) <==> Suffix(u, w)
  {
    if |u| <= |w| {
      var n := |w| - |u|;
      assert (w + [c])[n..] == w[n..] + [c];
      assert w[n..] == (w[n..] + [c])[..|u|];
      assert u == (u + [c])[..|u|];
    }
  }

  lemma SuffixEndsAlike(u: string, w: string, c: char)
    requires Suffix(u, w + [c]) && u != ""
    ensures Last(u) == c && u == Front(u) + [c] && Suffix(Front(u), w)
  {
    var v := w + [c];
    assert u[|u| - 1] == v[|v| - 1] == c;
    SuffixSnoc(Front(u), w, c);
  }

  lemma {:induction false} NoOwn(patterns: seq<Pattern>, w: string)
    requires forall p | p in patterns :: p.text != w
    ensures Own(patterns, w) == []
  {
    if |patterns| > 0 {
      NoOwn(patterns[..|patterns| - 1], w);
    }
  }

  /** Only nodes are patterns, so the outputs of a string are those of its longest suffix in the trie. */
  lemma {:induction false} EndsOfLongest(patterns: seq<Pattern>, labels: seq<string>, f: nat, w: string)
    requires HoldsPatterns(patterns, labels)
    requires LongestSuffix(labels, f, w)
    ensures Ends(patterns, w) == Ends(patterns, labels[f])
    decreases |w|
  {
    if |w| != |labels[f]| {
      var v := w[1..];
      assert v[|v| - |labels[f]|..] == w[|w| - |labels[f]|..];
      forall u | u in labels && Suffix(u, v)
        ensures |u| <= |labels[f]|
      {
        SuffixTransitive(u, v, w);
      }
      EndsOfLongest(patterns, labels, f, v);
      assert Suffix(w, w);
      NoOwn(patterns, w);
    } else {
      assert labels[f] == w;
    }
  }

  lemma FrontIn(nodes: seq<Node>, labels: seq<string>, u: string)
    requires Shape(nodes, labels) && u in labels
    ensures Front(u) in labels
  {
    var t :| 0 <= t < |labels| && labels[t] == u;
    assert HasFront(labels, t);
  }

  /** Extending both strings by one letter: if `g` is the longest suffix of `labels[s] + [c]`, it is also
      the longest suffix of `w + [c]` for any `w` whose longest suffix is `s`. */
  lemma ExtendLongest(nodes: seq<Node>, labels: seq<string>, s: nat, g: nat, w: string, c: char)
    requires Shape(nodes, labels)
    requires LongestSuffix(labels, s, w)
    requires LongestSuffix(labels, g, labels[s] + [c])
    ensures LongestSuffix(labels, g, w + [c])
  {
    SuffixSnoc(labels[s], w, c);
    SuffixTransitive(labels[g], labels[s] + [c], w + [c]);
    forall u | u in labels && Suffix(u, w + [c])
      ensures |u| <= |labels[g]|
    {
      if u != "" {
        SuffixEndsAlike(u, w, c);
        var front := Front(u);
        FrontIn(nodes, labels, u);
        SuffixOfSuffix(front, labels[s], w);
        SuffixSnoc(front, labels[s], c);
      }
    }
  }

  // ---------------------------------------------------------------- the matcher

  class Matcher {
    var nodes: seq<Node>
    ghost var labels: seq<string>
    ghost var patterns: seq<Pattern>

    ghost predicate Trie()
      reads this
    {
      && Shape(nodes, labels)
      && HoldsPatterns(patterns, labels)
      && forall p | p in patterns :: p.text != ""
    }

    /** Every node carries its failure link and all of its outputs. */
    ghost predicate Ready()
      reads this
    {
      Trie() && forall s | 0 <= s < |nodes| :: Linked(nodes, labels, patterns, s)
    }

    constructor (added: seq<Pattern>)
      requires forall p | p in added :: p.text != ""
      ensures Ready() && patterns == added
    {
      nodes := [Node(map[], 0, [])];
      labels := [""];
      patterns := [];
      new;
      for k := 0 to |added|
        invariant Trie() && patterns == added[..k]
        invariant forall s | 0 <= s < |nodes| :: Unlinked(nodes, labels, patterns, s)
      {
        Add(added[k]);
        assert added[..k + 1] == added[..k] + [added[k]];
      }
      assert added[..|added|] == added;
      BuildFailureLinks();
    }

    /** Walks the pattern down from the root, creating the missing nodes. */
    method Add(p: Pattern)
      requires Trie() && p.text != ""
      requires forall s | 0 <= s < |nodes| :: Unlinked(nodes, labels, patterns, s)
      modifies this
      ensures Trie() && patterns == old(patterns) + [p]
      ensures forall s | 0 <= s < |nodes| :: Unlinked(nodes, labels, patterns, s)
    {
      var state: nat := 0;
      for i := 0 to |p.text|
        invariant Trie() && patterns == old(patterns)
        invariant forall s | 0 <= s < |nodes| :: Unlinked(nodes, labels, patterns, s)
        invariant state < |nodes| == |labels| && labels[state] == p.text[..i]
      {
        var c := p.text[i];
        assert p.text[..i + 1] == labels[state] + [c];
        if c !in nodes[state].next {
          Grow(state, c);
        }
        Edge(nodes, labels, state, c);
        state := nodes[state].next[c];
      }
      assert p.text[..|p.text|] == p.text;
      var node := nodes[state];
      ghost var before := nodes;
      nodes := nodes[state := node.(outputs := node.outputs + [p.id])];
      SameEdges(before, nodes, labels);
      patterns := patterns + [p];
      assert patterns[..|patterns| - 1] == old(patterns);
      forall s | 0 <= s < |nodes|
        ensures Unlinked(nodes, labels, patterns, s)
      {
        assert Unlinked(before, labels, old(patterns), s);
      }
    }

    method Grow(state: nat, c: char)
      requires Trie() && state < |nodes| && c !in nodes[state].next
      requires forall s | 0 <= s < |nodes| :: Unlinked(nodes, labels, patterns, s)
      modifies this
      ensures Trie() && patterns == old(patterns)
      ensures forall s | 0 <= s < |nodes| :: Unlinked(nodes, labels, patterns, s)
      ensures |nodes| > |old(nodes)| && labels[..|old(labels)|] == old(labels)
      ensures c in nodes[state].next
    {
      var next := |nodes|;
      var node := nodes[state];
      ghost var before := nodes;
      ghost var name := labels[state] + [c];
      NoSuchNode(nodes, labels, state, c);
      GrowShape(nodes, labels, state, c);
      NoOwn(patterns, name);
      nodes := nodes[state := node.(next := node.next[c := next])] + [Node(map[], 0, [])];
      labels := labels + [name];
      forall s | 0 <= s < |nodes|
        ensures Unlinked(nodes, labels, patterns, s)
      {
        if s < next {
          assert Unlinked(before, old(labels), patterns, s);
        }
      }
    }

    /** The automaton's move on one letter, falling back along failure links until an edge exists. */
    method Follow(from: nat, c: char) returns (state: nat)
      requires Trie() && from < |nodes| == |labels| && ShallowFails(nodes, labels, from)
      ensures LongestSuffix(labels, state, labels[from] + [c])
    {
      state := from;
      Self(labels, from);
      while state != 0 && c !in nodes[state].next
        invariant state < |nodes| && Suffix(labels[state], labels[from])
        invariant forall u | u in labels && u + [c] in labels && Suffix(u, labels[from]) :: |u| <= |labels[state]|
        decreases |labels[state]|
      {
        ShallowFail(nodes, labels, from, state);
        FallBack(nodes, labels, state, c, labels[from]);
        state := nodes[state].fail;
      }
      MoveIsLongest(nodes, labels, state, c, labels[from]);
      state := if c in nodes[state].next then nodes[state].next[c] else 0;
    }
  
    /** Breadth first: a node is linked when it enters the queue. The letters of a node may come in any
        order. */
    method BuildFailureLinks()
      requires Trie()
      requires forall s | 0 <= s < |nodes| :: Unlinked(nodes, labels, patterns, s)
      modifies this
      ensures Ready() && patterns == old(patterns)
    {
      var queue: seq<nat> := RootChildren();
      var cursor := 0;
      while cursor < |queue|
        invariant Trie() && patterns == old(patterns) && labels == old(labels)
        invariant Breadth(nodes, labels, patterns, queue, cursor)
        decreases |labels| - cursor
      {
        forall i | 0 <= i < |queue|
          ensures queue[i] < |labels|
        {
          assert queue[i] in queue;
        }
        QueueFits(queue, |labels|);
        queue := LinkChildren(queue, cursor);
        cursor := cursor + 1;
      }
      forall s | 0 <= s < |nodes|
        ensures Linked(nodes, labels, patterns, s)
      {
        AllQueued(nodes, labels, patterns, queue, s);
        if labels[s] == "" {
          NoBlankPattern(patterns);
        }
      }
    }

    method RootChildren() returns (queue: seq<nat>)
      requires Trie()
      requires forall s | 0 <= s < |nodes| :: Unlinked(nodes, labels, patterns, s)
      ensures Breadth(nodes, labels, patterns, queue, 0)
    {
      queue := [];
      var todo := nodes[0].next.Keys;
      while todo != {}
        invariant todo <= nodes[0].next.Keys
        invariant forall q | q in queue :: 0 < q < |labels| && |labels[q]| == 1
        invariant forall c | c in nodes[0].next :: c in todo <==> nodes[0].next[c] !in queue
        invariant Distinct(queue)
      {
        var c :| c in todo;
        Edge(nodes, labels, 0, c);
        ghost var before := queue;
        queue := queue + [nodes[0].next[c]];
        todo := todo - {c};
        forall d | d in nodes[0].next
          ensures d in todo <==> nodes[0].next[d] !in queue
        {
          Edge(nodes, labels, 0, d);
          assert nodes[0].next[d] in queue <==> nodes[0].next[d] in before || nodes[0].next[d] == nodes[0].next[c];
        }
      }
      DepthOne(nodes, labels, patterns, queue);
    }

    /** The failure link of a node's child, found by a move from the node's own failure link. */
    method FailureOfChild(state: nat, c: char) returns (failure: nat)
      requires Trie() && 0 < state < |nodes| == |labels| && c in nodes[state].next
      requires ShallowLinked(nodes, labels, patterns, state)
      ensures failure < |nodes|
      ensures var child := nodes[state].next[c];
        && 0 < child < |labels|
        && LongestSuffix(labels, failure, labels[child][1..])
        && Ends(patterns, labels[child]) == Own(patterns, labels[child]) + nodes[failure].outputs
    {
      FailDepth(nodes, labels, patterns, state);
      failure := Follow(nodes[state].fail, c);
      ChildFail(nodes, labels, patterns, state, c, failure);
      ChildOutputs(nodes, labels, patterns, state, c, failure);
    }

    /** Links the child of a queued node, given that everything at most as deep as that node is linked. */
    method LinkChild(state: nat, c: char)
      requires Trie() && 0 < state < |nodes| == |labels| && c in nodes[state].next
      requires ShallowLinked(nodes, labels, patterns, state)
      requires nodes[state].next[c] < |nodes| && Unlinked(nodes, labels, patterns, nodes[state].next[c])
      modifies this
      ensures Trie() && labels == old(labels) && patterns == old(patterns)
      ensures Relinked(old(nodes), nodes, labels, patterns, old(nodes)[state].next[c])
    {
      var child := nodes[state].next[c];
      var failure := FailureOfChild(state, c);
      var node := nodes[child];
      ghost var before := nodes;
      nodes := nodes[child := node.(fail := failure, outputs := node.outputs + nodes[failure].outputs)];
      SameEdges(before, nodes, labels);
      ChildRelinked(before, nodes, labels, patterns, child, failure);
    }

    method ScanText(text: string, found: seq<nat>, ghost before: seq<nat>) returns (grown: seq<nat>)
      requires Ready() && found == Dedupe<nat>(before)
      ensures grown == Dedupe<nat>(before + Hits(patterns, text, |text|))
    {
      grown := found;
      var state: nat := 0;
      RootIsLongest(nodes, labels, text);
      assert before + Hits(patterns, text, 0) == before;
      for i := 0 to |text|
        invariant LongestSuffix(labels, state, text[..i])
        invariant grown == Dedupe<nat>(before + Hits(patterns, text, i))
      {
        var previous := state;
        AllFailsRight(nodes, labels, patterns, previous);
        state := Follow(previous, text[i]);
        assert Linked(nodes, labels, patterns, state);
        ScanStep(nodes, labels, patterns, text, i, previous, state);
        AppendThree(before, Hits(patterns, text, i), Ends(patterns, text[..i + 1]));
        grown := AddAll(grown, nodes[state].outputs, before + Hits(patterns, text, i));
      }
    }

    /** One pass over each text; every id is reported once, at its first occurrence. */
    method Find(texts: seq<string>) returns (found: seq<nat>)
      requires Ready()
      ensures found == Dedupe<nat>(AllHits(patterns, texts, |texts|))
    {
      found := [];
      for k := 0 to |texts|
        invariant found == Dedupe<nat>(AllHits(patterns, texts, k))
      {
        found := ScanText(texts[k], found, AllHits(patterns, texts, k));
      }
    }

    method LinkChildren(queue: seq<nat>, cursor: nat) returns (grown: seq<nat>)
      requires Trie() && cursor < |queue| && Breadth(nodes, labels, patterns, queue, cursor)
      modifies this
      ensures Trie() && labels == old(labels) && patterns == old(patterns)
      ensures queue <= grown && Breadth(nodes, labels, patterns, grown, cursor + 1)
    {
      StartLevel(nodes, labels, patterns, queue, cursor);
      var state := queue[cursor];
      var added: seq<nat> := [];
      var todo := nodes[state].next.Keys;
      while todo != {}
        invariant Trie() && labels == old(labels) && patterns == old(patterns)
        invariant Partial(nodes, labels, patterns, queue, state, added, todo)
      {
        var c :| c in todo;
        var child := nodes[state].next[c];
        ghost var before := nodes;
        ChildReady(nodes, labels, patterns, queue, state, added, todo, c);
        LinkChild(state, c);
        ChildTaken(before, nodes, labels, patterns, queue, state, added, todo, c);
        added := added + [child];
        todo := todo - {c};
      }
      NextLevel(nodes, labels, patterns, queue, added, cursor);
      grown := queue + added;
    }
  }

  lemma AppendThree(xs: seq<nat>, ys: seq<nat>, zs: seq<nat>)
    ensures xs + (ys + zs) == xs + ys + zs
  {
  }

  lemma RootIsLongest(nodes: seq<Node>, labels: seq<string>, text: string)
    requires Shape(nodes, labels)
    ensures LongestSuffix(labels, 0, text[..0])
  {
  }

  lemma AllFailsRight(nodes: seq<Node>, labels: seq<string>, patterns: seq<Pattern>, from: nat)
    requires Shape(nodes, labels) && from < |nodes|
    requires forall s | 0 <= s < |nodes| :: Linked(nodes, labels, patterns, s)
    ensures ShallowFails(nodes, labels, from)
  {
    forall s | 0 < s < |nodes| && Depth(labels, s) <= Depth(labels, from)
      ensures FailIsLongest(nodes, labels, s)
    {
      assert Linked(nodes, labels, patterns, s);
      assert labels[s] != labels[0];
    }
  }

  /** One letter further, the state is again the longest suffix read and its outputs are all that end here. */
  lemma ScanStep(nodes: seq<Node>, labels: seq<string>, patterns: seq<Pattern>, text: string, i: nat,
                 previous: nat, state: nat)
    requires Shape(nodes, labels) && HoldsPatterns(patterns, labels) && i < |text|
    requires LongestSuffix(labels, previous, text[..i])
    requires LongestSuffix(labels, state, labels[previous] + [text[i]])
    requires Linked(nodes, labels, patterns, state)
    ensures LongestSuffix(labels, state, text[..i + 1])
    ensures nodes[state].outputs == Ends(patterns, text[..i + 1])
  {
    OneLetterMore(text, i);
    ExtendLongest(nodes, labels, previous, state, text[..i], text[i]);
    EndsOfLongest(patterns, labels, state, text[..i] + [text[i]]);
  }

  lemma OneLetterMore(text: string, i: nat)
    requires i < |text|
    ensures text[..i + 1] == text[..i] + [text[i]]
  {
  }

  lemma TailSnoc(w: string, c: char)
    requires w != ""
    ensures (w + [c])[1..] == w[1..] + [c]
  {
  }

  /** Half way through the children of `state`: `added` are linked, those under `todo` are still to come. */
  ghost predicate Partial(nodes: seq<Node>, labels: seq<string>, patterns: seq<Pattern>,
                          queue: seq<nat>, state: nat, added: seq<nat>, todo: set<char>)
  {
    && 0 < state < |nodes|
    && todo <= nodes[state].next.Keys
    && Queued(nodes, labels, patterns, queue + added)
    && (forall t | 0 < t < |labels| && Depth(labels, t) <= Depth(labels, state) :: t in queue)
    && (forall c | c in nodes[state].next :: c in todo <==> nodes[state].next[c] !in queue + added)
    && ChildrenOf(nodes, labels, state, added)
  }

  lemma StartLevel(nodes: seq<Node>, labels: seq<string>, patterns: seq<Pattern>, queue: seq<nat>, cursor: nat)
    requires Shape(nodes, labels) && cursor < |queue| && Breadth(nodes, labels, patterns, queue, cursor)
    ensures 0 < queue[cursor] < |nodes|
    ensures Partial(nodes, labels, patterns, queue, queue[cursor], [], nodes[queue[cursor]].next.Keys)
  {
    ShallowQueued(nodes, labels, patterns, queue, cursor);
    ChildrenNotQueued(nodes, labels, patterns, queue, cursor);
    assert queue + [] == queue;
  }

  lemma ChildReady(nodes: seq<Node>, labels: seq<string>, patterns: seq<Pattern>,
                   queue: seq<nat>, state: nat, added: seq<nat>, todo: set<char>, c: char)
    requires Shape(nodes, labels) && Partial(nodes, labels, patterns, queue, state, added, todo) && c in todo
    requires forall p | p in patterns :: p.text != ""
    ensures ShallowLinked(nodes, labels, patterns, state)
    ensures nodes[state].next[c] < |nodes| && Unlinked(nodes, labels, patterns, nodes[state].next[c])
  {
    Edge(nodes, labels, state, c);
    ShallowAreLinked(nodes, labels, patterns, queue, added, state);
  }

  lemma ChildTaken(nodes: seq<Node>, nodes': seq<Node>, labels: seq<string>, patterns: seq<Pattern>,
                   queue: seq<nat>, state: nat, added: seq<nat>, todo: set<char>, c: char)
    requires Shape(nodes, labels) && Partial(nodes, labels, patterns, queue, state, added, todo) && c in todo
    requires Relinked(nodes, nodes', labels, patterns, nodes[state].next[c])
    ensures Partial(nodes', labels, patterns, queue, state, added + [nodes[state].next[c]], todo - {c})
  {
    var child := nodes[state].next[c];
    Edge(nodes, labels, state, c);
    QueueChild(nodes, nodes', labels, patterns, queue + added, child);
    AppendAssoc(queue, added, child);
    LetterTaken(nodes, labels, state, c, todo, queue + added);
  }

  ghost predicate SameNext(nodes: seq<Node>, nodes': seq<Node>) {
    |nodes| == |nodes'| && forall s | 0 <= s < |nodes| :: nodes'[s].next == nodes[s].next
  }

  /** Everything at most as deep as `state` is linked. */
  ghost predicate ShallowLinked(nodes: seq<Node>, labels: seq<string>, patterns: seq<Pattern>, state: nat)
    requires state < |nodes| == |labels|
  {
    forall s | 0 <= s < |nodes| && Depth(labels, s) <= Depth(labels, state) :: Linked(nodes, labels, patterns, s)
  }

  /** One node has been linked and nothing else has changed. */
  ghost predicate Relinked(
    nodes: seq<Node>, nodes': seq<Node>, labels: seq<string>, patterns: seq<Pattern>, child: nat)
  {
    && SameNext(nodes, nodes') && child < |nodes| == |labels|
    && Linked(nodes', labels, patterns, child)
    && forall s | 0 <= s < |nodes| && s != child :: nodes'[s] == nodes[s]
  }

  lemma ChildRelinked(nodes: seq<Node>, nodes': seq<Node>, labels: seq<string>, patterns: seq<Pattern>,
                      child: nat, failure: nat)
    requires child < |nodes| == |labels| && failure < |nodes| && Unlinked(nodes, labels, patterns, child)
    requires nodes' == nodes[child := nodes[child].(fail := failure,
                                                    outputs := nodes[child].outputs + nodes[failure].outputs)]
    requires labels[child] != "" ==> LongestSuffix(labels, failure, labels[child][1..])
    requires Ends(patterns, labels[child]) == Own(patterns, labels[child]) + nodes[failure].outputs
    ensures Relinked(nodes, nodes', labels, patterns, child)
  {
  }

  lemma ShallowAreLinked(nodes: seq<Node>, labels: seq<string>, patterns: seq<Pattern>,
                         queue: seq<nat>, added: seq<nat>, state: nat)
    requires Shape(nodes, labels) && state < |nodes| && Queued(nodes, labels, patterns, queue + added)
    requires forall p | p in patterns :: p.text != ""
    requires forall t | 0 < t < |labels| && Depth(labels, t) <= Depth(labels, state) :: t in queue
    ensures ShallowLinked(nodes, labels, patterns, state)
  {
    forall s | 0 <= s < |nodes| && Depth(labels, s) <= Depth(labels, state)
      ensures Linked(nodes, labels, patterns, s)
    {
      if s == 0 {
        NoBlankPattern(patterns);
        if 0 in queue + added {
        } else {
          assert Unlinked(nodes, labels, patterns, 0);
        }
      } else {
        assert s in queue + added;
      }
    }
  }

  lemma QueueChild(nodes: seq<Node>, nodes': seq<Node>, labels: seq<string>, patterns: seq<Pattern>,
                   queue: seq<nat>, child: nat)
    requires Queued(nodes, labels, patterns, queue) && 0 < child && child !in queue
    requires Relinked(nodes, nodes', labels, patterns, child)
    ensures Queued(nodes', labels, patterns, queue + [child])
  {
    forall q | q in queue
      ensures Linked(nodes', labels, patterns, q)
    {
      assert Linked(nodes, labels, patterns, q) && nodes'[q] == nodes[q];
    }
    forall s | 0 <= s < |nodes'| && s !in queue + [child]
      ensures Unlinked(nodes', labels, patterns, s)
    {
      assert s !in queue && s != child;
      assert Unlinked(nodes, labels, patterns, s) && nodes'[s] == nodes[s];
    }
  }

  lemma LetterTaken(nodes: seq<Node>, labels: seq<string>, state: nat, c: char, todo: set<char>, queue: seq<nat>)
    requires Shape(nodes, labels) && state < |nodes| && c in todo && todo <= nodes[state].next.Keys
    requires forall d | d in nodes[state].next :: d in todo <==> nodes[state].next[d] !in queue
    ensures forall d | d in nodes[state].next ::
        d in todo - {c} <==> nodes[state].next[d] !in queue + [nodes[state].next[c]]
  {
    Edge(nodes, labels, state, c);
    forall d | d in nodes[state].next
      ensures d in todo - {c} <==> nodes[state].next[d] !in queue + [nodes[state].next[c]]
    {
      Edge(nodes, labels, state, d);
    }
  }

  /** Failure links are right on everything at most as deep as `from`. */
  ghost predicate ShallowFails(nodes: seq<Node>, labels: seq<string>, from: nat)
    requires from < |nodes| == |labels|
  {
    forall s | 0 < s < |nodes| && Depth(labels, s) <= Depth(labels, from) :: FailIsLongest(nodes, labels, s)
  }

  ghost predicate FailIsLongest(nodes: seq<Node>, labels: seq<string>, s: nat)
    requires s < |nodes| == |labels|
  {
    labels[s] != "" && LongestSuffix(labels, nodes[s].fail, labels[s][1..])
  }

  lemma ShallowFail(nodes: seq<Node>, labels: seq<string>, from: nat, s: nat)
    requires Shape(nodes, labels) && from < |nodes| && ShallowFails(nodes, labels, from)
    requires 0 < s < |nodes| && |labels[s]| <= |labels[from]|
    ensures FailIsLongest(nodes, labels, s)
  {
    assert Depth(labels, s) <= Depth(labels, from);
  }

  lemma FailDepth(nodes: seq<Node>, labels: seq<string>, patterns: seq<Pattern>, state: nat)
    requires Shape(nodes, labels) && 0 < state < |nodes| && ShallowLinked(nodes, labels, patterns, state)
    ensures labels[state] != "" && Linked(nodes, labels, patterns, state)
    ensures nodes[state].fail < |labels| && |labels[nodes[state].fail]| < |labels[state]|
    ensures ShallowFails(nodes, labels, nodes[state].fail)
  {
    assert labels[state] != labels[0];
    assert Depth(labels, state) <= Depth(labels, state) && Linked(nodes, labels, patterns, state);
    var f := nodes[state].fail;
    assert LongestSuffix(labels, f, labels[state][1..]);
    forall s | 0 < s < |nodes| && Depth(labels, s) <= Depth(labels, f)
      ensures FailIsLongest(nodes, labels, s)
    {
      assert Linked(nodes, labels, patterns, s);
      assert labels[s] != labels[0];
    }
  }

  /** The move from a node's failure link gives its child's longest proper suffix. */
  lemma ChildFail(nodes: seq<Node>, labels: seq<string>, patterns: seq<Pattern>, state: nat, c: char, failure: nat)
    requires Shape(nodes, labels)
    requires 0 < state < |nodes| && c in nodes[state].next && Linked(nodes, labels, patterns, state)
    requires nodes[state].fail < |labels| && LongestSuffix(labels, failure, labels[nodes[state].fail] + [c])
    requires labels[state] != ""
    ensures var child := nodes[state].next[c];
      && 0 < child < |labels| && child != state && |labels[child]| == |labels[state]| + 1
      && LongestSuffix(labels, failure, labels[child][1..])
  {
    Edge(nodes, labels, state, c);
    var child := nodes[state].next[c];
    TailSnoc(labels[state], c);
    assert labels[child] == labels[state] + [c];
    ExtendLongest(nodes, labels, nodes[state].fail, failure, labels[state][1..], c);
  }

  lemma ChildOutputs(
    nodes: seq<Node>, labels: seq<string>, patterns: seq<Pattern>, state: nat, c: char, failure: nat)
    requires Shape(nodes, labels) && HoldsPatterns(patterns, labels)
    requires 0 < state < |nodes| && c in nodes[state].next && ShallowLinked(nodes, labels, patterns, state)
    requires var child := nodes[state].next[c];
      && 0 < child < |labels| && |labels[child]| == |labels[state]| + 1
      && LongestSuffix(labels, failure, labels[child][1..])
    ensures failure < |nodes|
    ensures Ends(patterns, labels[nodes[state].next[c]])
         == Own(patterns, labels[nodes[state].next[c]]) + nodes[failure].outputs
  {
    var child := nodes[state].next[c];
    EndsOfLongest(patterns, labels, failure, labels[child][1..]);
    assert |labels[failure]| <= |labels[state]|;
    assert Linked(nodes, labels, patterns, failure);
  }

  ghost predicate Queued(nodes: seq<Node>, labels: seq<string>, patterns: seq<Pattern>, queue: seq<nat>) {
    && |nodes| == |labels|
    && Distinct(queue)
    && (forall q | q in queue :: 0 < q < |nodes| && Linked(nodes, labels, patterns, q))
    && (forall s | 0 <= s < |nodes| && s !in queue :: Unlinked(nodes, labels, patterns, s))
  }

  ghost predicate ParentIn(labels: seq<string>, queue: seq<nat>, t: nat)
    requires t < |labels|
  {
    |labels[t]| > 1 && exists q | q in queue :: q < |labels| && labels[q] == Front(labels[t])
  }

  /** The breadth-first invariant: by depth, one level ahead at most, and holding exactly the root's children
      and the children of what lies before the cursor. */
  ghost predicate Breadth(
    nodes: seq<Node>, labels: seq<string>, patterns: seq<Pattern>, queue: seq<nat>, cursor: nat)
  {
    && cursor <= |queue|
    && Queued(nodes, labels, patterns, queue)
    && (forall t | 0 < t < |labels| :: t in queue <==> Depth(labels, t) == 1 || ParentIn(labels, queue[..cursor], t))
    && (forall i, j | 0 <= i <= j < |queue| :: Depth(labels, queue[i]) <= Depth(labels, queue[j]))
    && (cursor < |queue| ==> forall q | q in queue :: Depth(labels, q) <= Depth(labels, queue[cursor]) + 1)
  }

  /** Distinct node numbers: the queue cannot outgrow the trie. */
  lemma {:induction false} QueueFits(queue: seq<nat>, n: nat)
    requires Distinct(queue)
    requires forall i | 0 <= i < |queue| :: queue[i] < n
    ensures |queue| <= n
    decreases n
  {
    var front := if |queue| > 0 then queue[0] else n;
    if n > 0 {
      if n - 1 in queue {
        var i :| 0 <= i < |queue| && queue[i] == n - 1;
        var rest := queue[..i] + queue[i + 1..];
        forall j | 0 <= j < |rest|
          ensures rest[j] < n - 1
        {
          assert rest[j] == queue[if j < i then j else j + 1];
        }
        QueueFits(rest, n - 1);
      } else {
        QueueFits(queue, n - 1);
      }
    }
  }

  lemma {:induction false} NoBlankPattern(patterns: seq<Pattern>)
    requires forall p | p in patterns :: p.text != ""
    ensures Own(patterns, "") == []
  {
    if Own(patterns, "") != [] {
      InOwn(patterns, "", Own(patterns, "")[0]);
    }
  }

  lemma {:induction false} FrontIsNode(nodes: seq<Node>, labels: seq<string>, t: nat) returns (s: nat)
    requires Shape(nodes, labels) && 0 < t < |labels|
    ensures s < |labels| && labels[t] != "" && labels[s] == Front(labels[t]) && |labels[s]| == |labels[t]| - 1
    ensures Last(labels[t]) in nodes[s].next && nodes[s].next[Last(labels[t])] == t
  {
    assert HasFront(labels, t);
    s :| 0 <= s < |labels| && labels[s] == Front(labels[t]);
    assert Adjacent(nodes, labels, s, t);
  }

  /** Everything at most as deep as the node under the cursor is already queued. */
  lemma {:induction false} ShallowQueuedAt(
    nodes: seq<Node>, labels: seq<string>, patterns: seq<Pattern>, queue: seq<nat>, cursor: nat, t: nat)
    requires Shape(nodes, labels) && Breadth(nodes, labels, patterns, queue, cursor)
    requires 0 < t < |labels|
    requires cursor < |queue| ==> Depth(labels, t) <= Depth(labels, queue[cursor])
    ensures t in queue
    decreases |labels[t]|
  {
    var s := FrontIsNode(nodes, labels, t);
    if |labels[t]| > 1 {
      assert s != 0;
      ShallowQueuedAt(nodes, labels, patterns, queue, cursor, s);
      var i :| 0 <= i < |queue| && queue[i] == s;
      assert i < cursor;
      assert s in queue[..cursor];
    }
  }

  lemma ShallowQueued(nodes: seq<Node>, labels: seq<string>, patterns: seq<Pattern>, queue: seq<nat>, cursor: nat)
    requires Shape(nodes, labels) && Breadth(nodes, labels, patterns, queue, cursor) && cursor < |queue|
    ensures forall t | 0 < t < |labels| && Depth(labels, t) <= Depth(labels, queue[cursor]) :: t in queue
  {
    forall t | 0 < t < |labels| && Depth(labels, t) <= Depth(labels, queue[cursor])
      ensures t in queue
    {
      ShallowQueuedAt(nodes, labels, patterns, queue, cursor, t);
    }
  }

  lemma AllQueued(nodes: seq<Node>, labels: seq<string>, patterns: seq<Pattern>, queue: seq<nat>, s: nat)
    requires Shape(nodes, labels) && Breadth(nodes, labels, patterns, queue, |queue|) && s < |labels|
    ensures s != 0 ==> s in queue
  {
    if s != 0 {
      ShallowQueuedAt(nodes, labels, patterns, queue, |queue|, s);
    }
  }

  lemma ChildrenNotQueued(
    nodes: seq<Node>, labels: seq<string>, patterns: seq<Pattern>, queue: seq<nat>, cursor: nat)
    requires Shape(nodes, labels) && Breadth(nodes, labels, patterns, queue, cursor) && cursor < |queue|
    ensures 0 < queue[cursor] < |nodes|
    ensures forall c | c in nodes[queue[cursor]].next :: nodes[queue[cursor]].next[c] !in queue
  {
    var state := queue[cursor];
    assert state in queue && labels[state] != labels[0];
    forall c | c in nodes[state].next
      ensures nodes[state].next[c] !in queue
    {
      Edge(nodes, labels, state, c);
      forall q | q in queue[..cursor] && q < |labels|
        ensures labels[q] != labels[state]
      {
        var i :| 0 <= i < cursor && queue[i] == q;
        assert queue[i] != queue[cursor];
      }
    }
  }

  ghost predicate ChildrenOf(nodes: seq<Node>, labels: seq<string>, state: nat, added: seq<nat>) {
    && state < |nodes| == |labels|
    && forall t | t in added :: 0 < t < |labels| && labels[t] != "" && Front(labels[t]) == labels[state]
  }

  lemma NextLevelMembers(nodes: seq<Node>, labels: seq<string>, queue: seq<nat>, added: seq<nat>, cursor: nat, t: nat)
    requires Shape(nodes, labels) && cursor < |queue| && 0 < t < |labels|
    requires t in queue <==> Depth(labels, t) == 1 || ParentIn(labels, queue[..cursor], t)
    requires 0 < queue[cursor] < |nodes| && ChildrenOf(nodes, labels, queue[cursor], added)
    requires forall c | c in nodes[queue[cursor]].next :: nodes[queue[cursor]].next[c] in queue + added
    ensures t in queue + added <==> Depth(labels, t) == 1 || ParentIn(labels, (queue + added)[..cursor + 1], t)
  {
    var state := queue[cursor];
    assert labels[state] != labels[0];
    assert (queue + added)[..cursor + 1] == queue[..cursor] + [state];
    var s := FrontIsNode(nodes, labels, t);
    if t in added {
      assert labels[state] == Front(labels[t]);
      assert ParentIn(labels, queue[..cursor] + [state], t);
    }
  }

  lemma NextLevel(nodes: seq<Node>, labels: seq<string>, patterns: seq<Pattern>,
                  queue: seq<nat>, added: seq<nat>, cursor: nat)
    requires Shape(nodes, labels) && cursor < |queue|
    requires Queued(nodes, labels, patterns, queue + added)
    requires forall t | 0 < t < |labels| :: t in queue <==> Depth(labels, t) == 1 || ParentIn(labels, queue[..cursor], t)
    requires forall i, j | 0 <= i <= j < |queue| :: Depth(labels, queue[i]) <= Depth(labels, queue[j])
    requires forall q | q in queue :: Depth(labels, q) <= Depth(labels, queue[cursor]) + 1
    requires 0 < queue[cursor] < |nodes| && ChildrenOf(nodes, labels, queue[cursor], added)
    requires forall c | c in nodes[queue[cursor]].next :: nodes[queue[cursor]].next[c] in queue + added
    ensures Breadth(nodes, labels, patterns, queue + added, cursor + 1)
  {
    forall t | 0 < t < |labels|
      ensures t in queue + added <==> Depth(labels, t) == 1 || ParentIn(labels, (queue + added)[..cursor + 1], t)
    {
      NextLevelMembers(nodes, labels, queue, added, cursor, t);
    }
    NextLevelDepths(nodes, labels, queue, added, cursor);
  }

  lemma NextLevelDepths(nodes: seq<Node>, labels: seq<string>, queue: seq<nat>, added: seq<nat>, cursor: nat)
    requires cursor < |queue| && ChildrenOf(nodes, labels, queue[cursor], added)
    requires forall i, j | 0 <= i <= j < |queue| :: Depth(labels, queue[i]) <= Depth(labels, queue[j])
    requires forall q | q in queue :: Depth(labels, q) <= Depth(labels, queue[cursor]) + 1
    ensures var grown := queue + added;
      && (forall i, j | 0 <= i <= j < |grown| :: Depth(labels, grown[i]) <= Depth(labels, grown[j]))
      && (cursor + 1 < |grown| ==>
            forall q | q in grown :: Depth(labels, q) <= Depth(labels, grown[cursor + 1]) + 1)
  {
    var grown := queue + added;
    assert forall t | t in added :: Depth(labels, t) == Depth(labels, queue[cursor]) + 1;
    assert forall j | |queue| <= j < |grown| :: grown[j] in added;
    assert forall j | 0 <= j < |queue| :: grown[j] == queue[j] && queue[j] in queue;
  }

  /** The root's children start the queue. */
  lemma DepthOne(nodes: seq<Node>, labels: seq<string>, patterns: seq<Pattern>, queue: seq<nat>)
    requires Shape(nodes, labels) && Distinct(queue)
    requires forall p | p in patterns :: p.text != ""
    requires forall s | 0 <= s < |nodes| :: Unlinked(nodes, labels, patterns, s)
    requires forall q | q in queue :: 0 < q < |labels| && |labels[q]| == 1
    requires forall c | c in nodes[0].next :: nodes[0].next[c] in queue
    ensures Breadth(nodes, labels, patterns, queue, 0)
  {
    forall q | q in queue
      ensures Linked(nodes, labels, patterns, q)
    {
      assert Unlinked(nodes, labels, patterns, q);
      DepthOneLinked(nodes, labels, patterns, q);
    }
    forall t | 0 < t < |labels|
      ensures t in queue <==> Depth(labels, t) == 1
    {
      var s := FrontIsNode(nodes, labels, t);
      if Depth(labels, t) == 1 {
        OnlyRootIsBlank(nodes, labels, s);
      }
    }
    assert forall t | 0 < t < |labels| :: !ParentIn(labels, queue[..0], t);
  }

  lemma OnlyRootIsBlank(nodes: seq<Node>, labels: seq<string>, s: nat)
    requires Shape(nodes, labels) && s < |labels| && labels[s] == ""
    ensures s == 0
  {
  }

  lemma DepthOneLinked(nodes: seq<Node>, labels: seq<string>, patterns: seq<Pattern>, q: nat)
    requires |nodes| == |labels| > 0 && labels[0] == ""
    requires q < |labels| && |labels[q]| == 1 && Unlinked(nodes, labels, patterns, q)
    ensures Linked(nodes, labels, patterns, q)
  {
    EndsOfLetter(patterns, labels[q]);
    BlankIsLongest(labels, labels[q][1..]);
  }

  lemma EndsOfLetter(patterns: seq<Pattern>, w: string)
    requires |w| == 1
    ensures Ends(patterns, w) == Own(patterns, w)
  {
    assert Ends(patterns, w[1..]) == [];
  }

  lemma BlankIsLongest(labels: seq<string>, w: string)
    requires |labels| > 0 && labels[0] == "" && w == ""
    ensures LongestSuffix(labels, 0, w)
  {
  }

  lemma Self(labels: seq<string>, s: nat)
    requires s < |labels|
    ensures LongestSuffix(labels, s, labels[s])
  {
  }

  lemma NoSuchNode(nodes: seq<Node>, labels: seq<string>, s: nat, c: char)
    requires Shape(nodes, labels) && s < |nodes| && c !in nodes[s].next
    ensures labels[s] + [c] !in labels
  {
    FrontSnoc(labels[s], c);
    forall t | 0 <= t < |labels|
      ensures labels[t] != labels[s] + [c]
    {
      if t > 0 {
        assert Adjacent(nodes, labels, s, t);
      }
    }
  }

  lemma FallBack(nodes: seq<Node>, labels: seq<string>, state: nat, c: char, w: string)
    requires Shape(nodes, labels) && 0 < state < |nodes| && c !in nodes[state].next
    requires Suffix(labels[state], w)
    requires forall u | u in labels && u + [c] in labels && Suffix(u, w) :: |u| <= |labels[state]|
    requires LongestSuffix(labels, nodes[state].fail, labels[state][1..])
    ensures var f := nodes[state].fail;
      && |labels[f]| < |labels[state]| && Suffix(labels[f], w)
      && forall u | u in labels && u + [c] in labels && Suffix(u, w) :: |u| <= |labels[f]|
  {
    var f := nodes[state].fail;
    var l := labels[state];
    assert l != "";
    assert Suffix(l[1..], l);
    SuffixTransitive(labels[f], l[1..], l);
    SuffixTransitive(labels[f], l, w);
    NoSuchNode(nodes, labels, state, c);
    forall u | u in labels && u + [c] in labels && Suffix(u, w)
      ensures |u| <= |labels[f]|
    {
      SuffixOfSuffix(u, l, w);
      assert u != l;
      assert |u| < |l|;
      SuffixTransitive(l[1..], l, w);
      SuffixOfSuffix(u, l[1..], w);
    }
  }

  lemma MoveIsLongest(nodes: seq<Node>, labels: seq<string>, state: nat, c: char, w: string)
    requires Shape(nodes, labels) && state < |nodes|
    requires state == 0 || c in nodes[state].next
    requires Suffix(labels[state], w)
    requires forall u | u in labels && u + [c] in labels && Suffix(u, w) :: |u| <= |labels[state]|
    ensures LongestSuffix(labels, if c in nodes[state].next then nodes[state].next[c] else 0, w + [c])
  {
    SuffixSnoc(labels[state], w, c);
    if c !in nodes[state].next {
      NoSuchNode(nodes, labels, state, c);
    }
    forall u | u in labels && Suffix(u, w + [c])
      ensures |u| <= if c in nodes[state].next then |labels[state]| + 1 else 0
    {
      if u != "" {
        SuffixEndsAlike(u, w, c);
        FrontIn(nodes, labels, u);
        assert |Front(u)| <= |labels[state]|;
        assert |Front(u)| == |labels[state]| ==> u == labels[state] + [c];
      }
    }
  }
}
