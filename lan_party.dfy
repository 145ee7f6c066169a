// LAN party (2024/day_23/src/main.rs): the network map lists direct links
// between computers as `a-b` lines; part 1 counts the groups of three
// computers that are all linked to each other and have a name starting with
// 't', part 2 finds the largest such fully linked group by Bron–Kerbosch and
// writes its sorted names joined by ','.

module LanParty {
  import opened Basics

  /** Each computer's name mapped to the names it is linked to. */
  type Graph = map<string, set<string>>

  type Link = (string, string)

  type Triple = (string, string, string)

  /** Every neighbour is itself a key, so each `graph.get(..).unwrap()` succeeds. */
  predicate Closed(g: Graph) {
    forall a, b :: a in g && b in g[a] ==> b in g
  }

  /** Links go both ways. */
  predicate Symmetric(g: Graph) {
    forall a, b :: a in g && b in g[a] ==> b in g && a in g[b]
  }

  /** No computer is linked to itself. */
  predicate Loopless(g: Graph) {
    forall a :: a in g ==> a !in g[a]
  }

  // ---------------------------------------------------------------------------
  // parse_file, over the lines of the file

  /** `s.split_once(c)`: the text before the first c and the text after it. */
  function SplitOnce(s: string, c: char): (r: Option<(string, string)>)
    ensures r.Some? <==> c in s
    ensures r.Some? ==> s == r.value.0 + [c] + r.value.1 && c !in r.value.0
  {
    if s == [] then None
    else if s[0] == c then Some(([], s[1..]))
    else
      var rest := SplitOnce(s[1..], c);
      if rest.None? then None else Some(([s[0]] + rest.value.0, rest.value.1))
  }

  /** Splitting at the first c finds the text before it again. */
  lemma {:induction false} SplitOnceOf(l: string, r: string, c: char)
    requires c !in l
    ensures SplitOnce(l + [c] + r, c) == Some((l, r))
  {
    if l != [] {
      SplitFirst(l, [c], r);
      SplitOnceOf(l[1..], r, c);
      assert l == [l[0]] + l[1..];
    }
  }

  /** One line: `x.trim().split_once("-")`; a line without '-' makes the
      `expect` fail, here None. */
  function ParseLink(line: string): (r: Option<Link>)
    ensures r.Some? <==> '-' in Trim(line)
    ensures r.Some? ==> Trim(line) == r.value.0 + "-" + r.value.1 && '-' !in r.value.0
  {
    SplitOnce(Trim(line), '-')
  }

  /** `result.entry(a).or_default().insert(b)` */
  function Attach(g: Graph, a: string, b: string): Graph {
    g[a := (if a in g then g[a] else {}) + {b}]
  }

  /** Both inserts of one line. */
  function AddLink(g: Graph, e: Link): Graph {
    Attach(Attach(g, e.0, e.1), e.1, e.0)
  }

  /** The graph after adding the links in order to the empty map. */
  function GraphOf(links: seq<Link>): Graph {
    if links == [] then map[] else AddLink(GraphOf(links[..|links| - 1]), links[|links| - 1])
  }

  lemma GraphOfStep(links: seq<Link>, e: Link)
    ensures GraphOf(links + [e]) == AddLink(GraphOf(links), e)
  {
    assert (links + [e])[..|links|] == links;
  }

  /** parse_file's result: None when some line has no '-'. */
  function ParseGraph(lines: seq<string>): Option<Graph> {
    var links := ReadAll(ParseLink, lines);
    if links.None? then None else Some(GraphOf(links.value))
  }

  /** Some line links a and b, in either direction. */
  predicate Linked(links: seq<Link>, a: string, b: string) {
    exists k :: 0 <= k < |links| && (links[k] == (a, b) || links[k] == (b, a))
  }

  predicate Mentioned(links: seq<Link>, a: string) {
    exists k :: 0 <= k < |links| && (links[k].0 == a || links[k].1 == a)
  }

  lemma AddLinkSpec(g: Graph, e: Link)
    ensures forall a :: a in AddLink(g, e) <==> a in g || a == e.0 || a == e.1
    ensures forall a, b :: a in AddLink(g, e) && b in AddLink(g, e)[a] <==>
      (a in g && b in g[a]) || (a, b) == e || (b, a) == e
  {
  }

  lemma LinkedLast(links: seq<Link>, a: string, b: string)
    requires links != []
    ensures Linked(links, a, b) <==>
      Linked(links[..|links| - 1], a, b) || links[|links| - 1] == (a, b) || links[|links| - 1] == (b, a)
  {
    var init := links[..|links| - 1];
    if Linked(links, a, b) && !(links[|links| - 1] == (a, b) || links[|links| - 1] == (b, a)) {
      var k :| 0 <= k < |links| && (links[k] == (a, b) || links[k] == (b, a));
      assert k < |init| && init[k] == links[k];
    }
    if Linked(init, a, b) {
      var k :| 0 <= k < |init| && (init[k] == (a, b) || init[k] == (b, a));
      assert links[k] == init[k];
    }
  }

  lemma MentionedLast(links: seq<Link>, a: string)
    requires links != []
    ensures Mentioned(links, a) <==>
      Mentioned(links[..|links| - 1], a) || links[|links| - 1].0 == a || links[|links| - 1].1 == a
  {
    var init := links[..|links| - 1];
    if Mentioned(links, a) && !(links[|links| - 1].0 == a || links[|links| - 1].1 == a) {
      var k :| 0 <= k < |links| && (links[k].0 == a || links[k].1 == a);
      assert k < |init| && init[k] == links[k];
    }
    if Mentioned(init, a) {
      var k :| 0 <= k < |init| && (init[k].0 == a || init[k].1 == a);
      assert links[k] == init[k];
    }
  }

  /** The keys are the names on some line, and b is a neighbour of a exactly
      when some line links them, in either order. */
  lemma {:induction false} GraphOfLinks(links: seq<Link>)
    ensures forall a :: a in GraphOf(links) <==> Mentioned(links, a)
    ensures forall a, b :: a in GraphOf(links) && b in GraphOf(links)[a] <==> Linked(links, a, b)
    decreases |links|
  {
    if links != [] {
      var init := links[..|links| - 1];
      GraphOfLinks(init);
      AddLinkSpec(GraphOf(init), links[|links| - 1]);
      forall a ensures a in GraphOf(links) <==> Mentioned(links, a) {
        MentionedLast(links, a);
      }
      forall a, b ensures a in GraphOf(links) && b in GraphOf(links)[a] <==> Linked(links, a, b) {
        LinkedLast(links, a, b);
      }
    }
  }

  /** The parsed graph is symmetric, and it has a self-link only for a line `a-a`. */
  lemma GraphOfShape(links: seq<Link>)
    ensures Symmetric(GraphOf(links))
    ensures Loopless(GraphOf(links)) <==> forall k :: 0 <= k < |links| ==> links[k].0 != links[k].1
  {
    var g := GraphOf(links);
    GraphOfLinks(links);
    forall a, b | a in g && b in g[a] ensures b in g && a in g[b] {
      var k :| 0 <= k < |links| && (links[k] == (a, b) || links[k] == (b, a));
      assert Mentioned(links, b) && Linked(links, b, a);
    }
    if !Loopless(g) {
      var a :| a in g && a in g[a];
      assert Linked(links, a, a);
    }
    if exists k :: 0 <= k < |links| && links[k].0 == links[k].1 {
      var k :| 0 <= k < |links| && links[k].0 == links[k].1;
      var a := links[k].0;
      assert Mentioned(links, a) && Linked(links, a, a);
    }
  }

  /** Reading one `a-b` line gives the two names back. */
  lemma ParseLinkOf(a: string, b: string)
    requires '-' !in a && a != [] && b != [] && !IsSpace(a[0]) && !IsSpace(b[|b| - 1])
    ensures ParseLink(a + "-" + b) == Some((a, b))
  {
    var s := a + "-" + b;
    assert s[0] == a[0] && s[|s| - 1] == b[|b| - 1];
    TrimTrimmed(s);
    SplitOnceOf(a, b, '-');
  }

  /** parse_file: one pass over the lines, each adding both directions of its link. */
  method ParseFile(lines: seq<string>) returns (r: Option<Graph>)
    ensures r == ParseGraph(lines)
  {
    var result: Graph := map[];
    ghost var links: seq<Link> := [];
    for i := 0 to |lines|
      invariant ReadAll(ParseLink, lines[..i]) == Some(links)
      invariant result == GraphOf(links)
    {
      ReadAllPrefix(ParseLink, lines, i, links);
      var e := ParseLink(lines[i]);
      if e.None? {
        return None;
      }
      var (left, right) := e.value;
      result := Attach(result, left, right);
      result := Attach(result, right, left);
      GraphOfStep(links, (left, right));
      links := links + [(left, right)];
    }
    assert lines[..|lines|] == lines;
    return Some(result);
  }

  // ---------------------------------------------------------------------------
  // find_size_3_components

  /** The key order of the map (`graph.keys().enumerate()`): every key once. */
  predicate IsOrder(g: Graph, order: seq<string>) {
    (forall i, j :: 0 <= i < j < |order| ==> order[i] != order[j])
    && (forall x :: x in g ==> x in order)
    && (forall i :: 0 <= i < |order| ==> order[i] in g)
  }

  /** The index of a name in the key order (`id_idx_map`). */
  function Pos(order: seq<string>, x: string): (i: nat)
    requires x in order
    ensures i < |order| && order[i] == x && x !in order[..i]
  {
    if order[0] == x then 0
    else
      var i := 1 + Pos(order[1..], x);
      assert order[..i] == [order[0]] + order[1..][..i - 1];
      i
  }

  /** With every name once, equal positions mean equal names. */
  lemma PosInjective(g: Graph, order: seq<string>, x: string, y: string)
    requires IsOrder(g, order) && x in order && y in order && x != y
    ensures Pos(order, x) != Pos(order, y)
  {
  }

  /** A triple the nested loops insert: b is a neighbour of a, c a neighbour
      of both, and their key indices do not decrease. */
  predicate IsTriple(g: Graph, order: seq<string>, t: Triple)
    requires Closed(g) && IsOrder(g, order)
  {
    t.0 in g && t.1 in g[t.0] && t.2 in g[t.0] && t.2 in g[t.1]
    && Pos(order, t.0) <= Pos(order, t.1) <= Pos(order, t.2)
  }

  /** The set find_size_3_components returns. */
  function Triangles(g: Graph, order: seq<string>): set<Triple>
    requires Closed(g) && IsOrder(g, order)
  {
    set a, b, c | a in g && b in g[a] && c in g[a] && c in g[b]
      && Pos(order, a) <= Pos(order, b) <= Pos(order, c) :: (a, b, c)
  }

  lemma TrianglesMembers(g: Graph, order: seq<string>)
    requires Closed(g) && IsOrder(g, order)
    ensures forall t :: t in Triangles(g, order) <==> IsTriple(g, order, t)
  {
    forall t | IsTriple(g, order, t) ensures t in Triangles(g, order) {
      var (a, b, c) := t;
      assert (a, b, c) == t;
    }
  }

  /** find_size_3_components: for each key in order, each neighbour b not
      before it, each common neighbour c not before b, insert (a, b, c). */
  method FindTriangles(g: Graph, order: seq<string>) returns (results: set<Triple>)
    requires Closed(g) && IsOrder(g, order)
    ensures results == Triangles(g, order)
  {
    results := {};
    for i := 0 to |order|
      invariant forall t :: t in results <==> IsTriple(g, order, t) && Pos(order, t.0) < i
    {
      results := AddTrianglesAt(g, order, i, results);
    }
    TrianglesMembers(g, order);
  }

  /** The body of the outer loop: the triples starting with the key at index i. */
  method AddTrianglesAt(g: Graph, order: seq<string>, i: nat, results: set<Triple>) returns (results': set<Triple>)
    requires Closed(g) && IsOrder(g, order) && i < |order|
    ensures forall t :: t in results' <==> t in results || (IsTriple(g, order, t) && t.0 == order[i])
  {
    results' := results;
    var node1 := order[i];
    var connections1 := g[node1];
    var idx1 := i;
    var todo2 := connections1;
    while todo2 != {}
      invariant todo2 <= connections1
      invariant forall t :: t in results' <==> t in results || (IsTriple(g, order, t) && t.0 == node1 && t.1 !in todo2)
      decreases |todo2|
    {
      var node2 :| node2 in todo2;
      todo2 := todo2 - {node2};
      var idx2 := Pos(order, node2);
      if idx2 < idx1 {
        continue;
      }
      results' := AddThirds(g, order, node1, node2, results');
    }
  }

  /** The body of the middle loop: the triples starting with (node1, node2). */
  method AddThirds(g: Graph, order: seq<string>, node1: string, node2: string, results: set<Triple>)
    returns (results': set<Triple>)
    requires Closed(g) && IsOrder(g, order) && node1 in g && node2 in g[node1]
    requires Pos(order, node1) <= Pos(order, node2)
    ensures forall t :: t in results' <==> t in results || (IsTriple(g, order, t) && t.0 == node1 && t.1 == node2)
  {
    results' := results;
    var idx2 := Pos(order, node2);
    var todo3 := g[node1] * g[node2];
    while todo3 != {}
      invariant todo3 <= g[node1] * g[node2]
      invariant forall t :: t in results' <==> (t in results
        || (IsTriple(g, order, t) && t.0 == node1 && t.1 == node2 && t.2 !in todo3))
      decreases |todo3|
    {
      var node3 :| node3 in todo3;
      todo3 := todo3 - {node3};
      var idx3 := Pos(order, node3);
      if idx3 < idx2 {
        continue;
      }
      results' := results' + {(node1, node2, node3)};
    }
  }

  /** On a symmetric graph without self-links the triples are exactly the
      groups of three linked computers, listed in strictly increasing key order. */
  lemma TriangleIff(g: Graph, order: seq<string>, a: string, b: string, c: string)
    requires Symmetric(g) && Loopless(g) && IsOrder(g, order)
    ensures Closed(g)
    ensures (a, b, c) in Triangles(g, order) <==>
      a in g && b in g[a] && c in g[a] && c in g[b]
      && Pos(order, a) < Pos(order, b) < Pos(order, c)
  {
    TrianglesMembers(g, order);
    if a in g && b in g[a] && c in g[a] && c in g[b] {
      PosInjective(g, order, a, b);
      PosInjective(g, order, b, c);
    }
  }

  /** Each group of three is listed only once: two triples with the same
      members are equal. */
  lemma TriangleUnique(g: Graph, order: seq<string>, t: Triple, u: Triple)
    requires Symmetric(g) && Loopless(g) && IsOrder(g, order)
    requires t in Triangles(g, order) && u in Triangles(g, order)
    requires {t.0, t.1, t.2} == {u.0, u.1, u.2}
    ensures t == u
  {
    TriangleIff(g, order, t.0, t.1, t.2);
    TriangleIff(g, order, u.0, u.1, u.2);
    assert u.0 in {t.0, t.1, t.2} && u.1 in {t.0, t.1, t.2} && u.2 in {t.0, t.1, t.2};
    assert t.0 in {u.0, u.1, u.2} && t.1 in {u.0, u.1, u.2} && t.2 in {u.0, u.1, u.2};
  }

  // ---------------------------------------------------------------------------
  // num_size_3_components_with_t

  /** `x.starts_with("t")` */
  predicate StartsWithT(name: string) {
    |name| > 0 && name[0] == 't'
  }

  predicate HasT(t: Triple) {
    StartsWithT(t.0) || StartsWithT(t.1) || StartsWithT(t.2)
  }

  /** The triples the filter keeps. */
  function WithT(ts: set<Triple>): set<Triple> {
    set t | t in ts && HasT(t)
  }

  /** num_size_3_components_with_t */
  method NumTrianglesWithT(g: Graph, order: seq<string>) returns (n: nat)
    requires Closed(g) && IsOrder(g, order)
    ensures n == |WithT(Triangles(g, order))|
  {
    var components := FindTriangles(g, order);
    n := |set t | t in components && HasT(t)|;
  }

  /** The count is over triples found, at most all of them, and it counts
      each one with a 't' member. */
  lemma WithTBound(ts: set<Triple>)
    ensures WithT(ts) <= ts && |WithT(ts)| <= |ts|
    ensures forall t :: t in ts && HasT(t) ==> t in WithT(ts)
  {
    SubsetCard(WithT(ts), ts);
  }

  // ---------------------------------------------------------------------------
  // bron_kerbosch and find_largest_clique

  /** All members are computers and every two distinct members are linked. */
  predicate IsClique(g: Graph, k: set<string>) {
    (forall a :: a in k ==> a in g) && forall a, b :: a in k && b in k && a != b ==> b in g[a]
  }

  /** v is linked to every member of r, so r + {v} is still a clique. */
  predicate Extends(g: Graph, r: set<string>, v: string) {
    v in g && forall u :: u in r ==> u in g && v in g[u]
  }

  /** Adding a name that extends a clique gives a clique one larger. */
  lemma ExtendClique(g: Graph, r: set<string>, v: string)
    requires Symmetric(g) && Loopless(g) && IsClique(g, r) && Extends(g, r, v)
    ensures v !in r && IsClique(g, r + {v}) && |r + {v}| == |r| + 1
  {
    var k := r + {v};
    forall a, b | a in k && b in k && a != b ensures b in g[a] {
      if a == v {
        assert v in g[b];
      }
    }
  }

  /** k is a clique that contains r and adds only names of s. */
  predicate InRange(g: Graph, r: set<string>, s: set<string>, k: set<string>) {
    IsClique(g, k) && r <= k && k <= r + s
  }

  /** Every clique between r and r + s that uses a name of x has been seen:
      it is no larger than the best so far. */
  ghost predicate Covered(g: Graph, best: set<string>, r: set<string>, s: set<string>, x: set<string>) {
    forall k {:trigger InRange(g, r, s, k)} :: InRange(g, r, s, k) && k * x != {} ==> |k| <= |best|
  }

  /** Every clique between r and r + s is no larger than the best so far. */
  ghost predicate Bounded(g: Graph, best: set<string>, r: set<string>, s: set<string>) {
    forall k {:trigger InRange(g, r, s, k)} :: InRange(g, r, s, k) ==> |k| <= |best|
  }

  /** The state of one bron_kerbosch frame: the candidates and the excluded
      names together make up span, every name of span extends current, and
      every clique in range that uses an excluded name is no larger than best. */
  ghost predicate Frame(g: Graph, current: set<string>, span: set<string>, cands: set<string>, excl: set<string>,
                        best: set<string>) {
    Symmetric(g) && Loopless(g) && IsClique(g, current) && IsClique(g, best)
    && cands + excl == span
    && (forall v :: v in span ==> Extends(g, current, v))
    && Covered(g, best, current, span, excl)
  }

  /** The state bron_kerbosch is entered with. */
  ghost predicate Entry(g: Graph, current: set<string>, candidates: set<string>, excluded: set<string>,
                        largest: set<string>) {
    Frame(g, current, candidates + excluded, candidates, excluded, largest)
  }

  /** bron_kerbosch: on return current_clique is as on entry, candidates is
      empty and excluded holds what it held plus the candidates;
      largest_clique is kept or replaced by a strictly larger clique, and no
      clique between current and current + candidates + excluded is larger. */
  method BronKerbosch(g: Graph, current: set<string>, candidates: set<string>, excluded: set<string>,
                      largest: set<string>)
    returns (current': set<string>, candidates': set<string>, excluded': set<string>, largest': set<string>)
    requires Entry(g, current, candidates, excluded, largest)
    ensures current' == current && candidates' == {} && excluded' == excluded + candidates
    ensures IsClique(g, largest')
    ensures largest' == largest || |largest'| > |largest|
    ensures Bounded(g, largest', current, candidates + excluded)
    decreases |candidates|
  {
    if candidates == {} && excluded == {} {
      largest' := largest;
      if |current| > |largest| {
        largest' := current;
      }
      LeafBounded(g, current, largest');
      return current, candidates, excluded, largest';
    }
    ghost var span := candidates + excluded;
    var clique := current;
    var cands := candidates;
    var excl := excluded;
    var best := largest;
    var todo := candidates;
    while todo != {}
      invariant cands == todo && cands <= candidates && clique == current
      invariant Frame(g, current, span, cands, excl, best)
      invariant best == largest || |best| > |largest|
      invariant excl != {} || cands != {}
      decreases |todo|
    {
      var node :| node in todo;
      var neighbors := g[node];
      clique := clique + {node};
      var newCands := cands * neighbors;
      var newExcl := excl * neighbors;
      EnterStep(g, current, span, cands, excl, best, node);
      SubsetCard(cands, candidates);
      var c, p, x, best' := BronKerbosch(g, clique, newCands, newExcl, best);
      clique := c - {node};
      LeaveStep(g, current, span, cands, excl, best, best', node);
      best := best';
      cands := cands - {node};
      excl := excl + {node};
      todo := todo - {node};
    }
    ExitBounded(g, current, span, excl, best);
    return clique, cands, excl, best;
  }

  /** At a leaf the only clique in range is current itself. */
  lemma LeafBounded(g: Graph, current: set<string>, best: set<string>)
    requires |current| <= |best|
    ensures Bounded(g, best, current, {})
  {
    forall k | InRange(g, current, {}, k) ensures |k| <= |best| {
      assert k == current;
    }
  }

  /** The recursive call for node is entered with a valid state, on fewer candidates. */
  lemma EnterStep(g: Graph, current: set<string>, span: set<string>, cands: set<string>, excl: set<string>,
                  best: set<string>, node: string)
    requires Frame(g, current, span, cands, excl, best) && node in cands
    ensures node in g && node !in current
    ensures Entry(g, current + {node}, cands * g[node], excl * g[node], best)
    ensures |cands * g[node]| < |cands|
  {
    assert Extends(g, current, node);
    ExtendClique(g, current, node);
    var r := current + {node};
    var s := cands * g[node] + excl * g[node];
    forall v | v in s ensures Extends(g, r, v) {
      assert Extends(g, current, v);
    }
    forall k | InRange(g, r, s, k) && k * (excl * g[node]) != {}
      ensures |k| <= |best|
    {
      forall w | w in k ensures w in current + span {
        if w !in current && w != node {
          assert w in s;
        }
      }
      var y :| y in k * (excl * g[node]);
      assert y in k * excl;
      assert InRange(g, current, span, k);
    }
    SubsetCard(cands * g[node], cands - {node});
  }

  /** After the recursive call for node, moving node from the candidates to
      the excluded set keeps the frame valid. */
  lemma LeaveStep(g: Graph, current: set<string>, span: set<string>, cands: set<string>, excl: set<string>,
                  best: set<string>, best': set<string>, node: string)
    requires Frame(g, current, span, cands, excl, best) && node in cands && node in g
    requires IsClique(g, best') && |best| <= |best'|
    requires Bounded(g, best', current + {node}, cands * g[node] + excl * g[node])
    ensures Frame(g, current, span, cands - {node}, excl + {node}, best')
  {
    assert (cands - {node}) + (excl + {node}) == span;
    forall k | InRange(g, current, span, k) && k * (excl + {node}) != {}
      ensures |k| <= |best'|
    {
      if k * excl == {} {
        assert node in k;
        var r := current + {node};
        forall w | w in k ensures w in r + (cands * g[node] + excl * g[node]) {
          if w !in r {
            assert w in g[node];
          }
        }
        assert InRange(g, r, cands * g[node] + excl * g[node], k);
      }
    }
  }

  /** With no candidates left, every clique in range either uses an excluded
      name or is current itself, which an excluded name extends. */
  lemma ExitBounded(g: Graph, current: set<string>, span: set<string>, excl: set<string>, best: set<string>)
    requires Frame(g, current, span, {}, excl, best) && excl != {}
    ensures excl == span && Bounded(g, best, current, span)
  {
    var x :| x in excl;
    assert Extends(g, current, x);
    ExtendClique(g, current, x);
    var bigger := current + {x};
    assert x in bigger * excl;
    assert InRange(g, current, span, bigger);
    forall k | InRange(g, current, span, k) ensures |k| <= |best| {
      if k * excl == {} {
        assert k == current;
      }
    }
  }

  /** find_largest_clique: a clique no other clique of the graph is larger than. */
  method FindLargestClique(g: Graph) returns (largest: set<string>)
    requires Symmetric(g) && Loopless(g)
    ensures IsClique(g, largest)
    ensures forall k :: IsClique(g, k) ==> |k| <= |largest|
  {
    var current, candidates, excluded;
    assert Entry(g, {}, g.Keys, {}, {});
    current, candidates, excluded, largest := BronKerbosch(g, {}, g.Keys, {}, {});
    forall k | IsClique(g, k) ensures |k| <= |largest| {
      assert InRange(g, {}, g.Keys + {}, k);
    }
  }

  /** A largest clique cannot be extended by any computer. */
  lemma LargestIsMaximal(g: Graph, largest: set<string>, v: string)
    requires Symmetric(g) && Loopless(g) && IsClique(g, largest) && forall k :: IsClique(g, k) ==> |k| <= |largest|
    requires v !in largest
    ensures !Extends(g, largest, v)
  {
    if Extends(g, largest, v) {
      ExtendClique(g, largest, v);
    }
  }

  // ---------------------------------------------------------------------------
  // find_password

  /** The names of a set in some order. */
  ghost function Members(c: set<string>): (r: seq<string>)
    ensures multiset(r) == multiset(c)
    decreases |c|
  {
    if c == {} then []
    else
      var x :| x in c;
      assert multiset(c) == multiset(c - {x}) + multiset{x};
      [x] + Members(c - {x})
  }

  /** The password of a clique: its names sorted and joined by ','. */
  ghost function Password(c: set<string>): string {
    Join(SortStrings(Members(c)), ",")
  }

  /** Sorting makes the order the names were collected in irrelevant. */
  lemma PasswordAnyOrder(names: seq<string>, c: set<string>)
    requires multiset(names) == multiset(c)
    ensures Join(SortStrings(names), ",") == Password(c)
  {
    SortedStringsUnique(SortStrings(names), SortStrings(Members(c)));
  }

  /** Names already sorted are the password as they stand. */
  lemma PasswordOfSorted(names: seq<string>, c: set<string>)
    requires SortedStrings(names) && multiset(names) == multiset(c)
    ensures Password(c) == Join(names, ",")
  {
    PasswordAnyOrder(names, c);
    SortedStringsUnique(SortStrings(names), names);
  }

  /** `iter().cloned().collect()`: the names of the set, each once. */
  method Collect(c: set<string>) returns (s: seq<string>)
    ensures multiset(s) == multiset(c)
  {
    s := [];
    var rest := c;
    while rest != {}
      invariant rest <= c
      invariant multiset(s) + multiset(rest) == multiset(c)
      decreases |rest|
    {
      var x :| x in rest;
      assert multiset(rest) == multiset(rest - {x}) + multiset{x};
      s := s + [x];
      rest := rest - {x};
    }
  }

  /** find_password: the password of a largest clique. */
  method FindPassword(g: Graph) returns (password: string)
    requires Symmetric(g) && Loopless(g)
    ensures exists k :: IsClique(g, k) && (forall k' :: IsClique(g, k') ==> |k'| <= |k|) && password == Password(k)
  {
    var clique := FindLargestClique(g);
    var nodes := Collect(clique);
    var sortedNodes := SortStrings(nodes);
    password := Join(sortedNodes, ",");
    PasswordAnyOrder(nodes, clique);
  }

  /** The test's clique {co, de, ka, ta} gives "co,de,ka,ta". */
  lemma PasswordExample()
    ensures Password({"co", "de", "ka", "ta"}) == "co,de,ka,ta"
  {
    ExampleMultiset();
    ExampleSorted();
    PasswordOfSorted(["co", "de", "ka", "ta"], {"co", "de", "ka", "ta"});
    ExampleJoin();
  }

  lemma ExampleJoin()
    ensures Join(["co", "de", "ka", "ta"], ",") == "co,de,ka,ta"
  {
  }

  lemma ExampleMultiset()
    ensures multiset(["co", "de", "ka", "ta"]) == multiset({"co", "de", "ka", "ta"})
  {
    var c: set<string> := {"co", "de", "ka", "ta"};
    assert multiset(["co", "de", "ka", "ta"]) == multiset{"co", "de", "ka", "ta"};
    assert "co" != "de" && "co" != "ka" && "co" != "ta" && "de" != "ka" && "de" != "ta" && "ka" != "ta";
  }

  lemma ExampleSorted()
    ensures SortedStrings(["co", "de", "ka", "ta"])
  {
    assert StrLe("co", "de") && StrLe("de", "ka") && StrLe("ka", "ta");
    SortedStringsFromAdjacent(["co", "de", "ka", "ta"]);
  }
}
