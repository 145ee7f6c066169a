// Playground junction boxes (2025/day_08/main.py): boxes at 3-D integer
// coordinates are strung together closest pair first; a string joins the two
// circuits the boxes are in. Part 1 multiplies the sizes of the three largest
// circuits after the first max_steps pairs, part 2 multiplies the x
// coordinates of the pair that first puts every box into one circuit.

module JunctionBoxes {
  import opened Basics

  datatype Coord = Coord(x: int, y: int, z: int)

  type Pair = (Coord, Coord)

  // ---------------------------------------------------------------------------
  // distance and coord_pairs

  /** `distance`: the squared Euclidean distance of the pair. */
  function Dist(p: Pair): (d: int)
    ensures d >= 0
  {
    var (a, b) := p;
    Square(a.x - b.x) + Square(a.y - b.y) + Square(a.z - b.z)
  }

  function Square(v: int): (s: int)
    ensures s >= 0 && (s == 0 <==> v == 0)
  {
    assert v * v == (-v) * (-v);
    if v >= 0 then MulNonneg(v, v); v * v else MulNonneg(-v, -v); v * v
  }

  lemma MulNonneg(a: int, b: int)
    requires a >= 0 && b >= 0
    ensures a * b >= 0 && (a * b == 0 <==> a == 0 || b == 0)
  {
  }

  /** The distance does not depend on the order of the pair, and it is zero
      exactly for a box paired with its own coordinates. */
  lemma DistProperties(a: Coord, b: Coord)
    ensures Dist((a, b)) == Dist((b, a))
    ensures Dist((a, b)) == 0 <==> a == b
  {
    assert Square(a.x - b.x) == Square(b.x - a.x) by { assert (a.x - b.x) * (a.x - b.x) == (b.x - a.x) * (b.x - a.x); }
    assert Square(a.y - b.y) == Square(b.y - a.y) by { assert (a.y - b.y) * (a.y - b.y) == (b.y - a.y) * (b.y - a.y); }
    assert Square(a.z - b.z) == Square(b.z - a.z) by { assert (a.z - b.z) * (a.z - b.z) == (b.z - a.z) * (b.z - a.z); }
  }

  /** The pairs (c, rest[j]) in order of j. */
  function PairsWith(c: Coord, rest: seq<Coord>): seq<Pair> {
    seq(|rest|, j requires 0 <= j < |rest| => (c, rest[j]))
  }

  /** `coord_pairs`: (coords[i], coords[j]) for i < j, in order of i then j. */
  function CoordPairs(coords: seq<Coord>): seq<Pair>
    decreases |coords|
  {
    if |coords| <= 1 then [] else PairsWith(coords[0], coords[1..]) + CoordPairs(coords[1..])
  }

  /** The pairs are exactly the two-element choices from the list, by index. */
  lemma {:induction false} CoordPairsMembers(coords: seq<Coord>, p: Pair)
    ensures p in CoordPairs(coords) <==> exists i, j :: 0 <= i < j < |coords| && p == (coords[i], coords[j])
    decreases |coords|
  {
    if |coords| > 1 {
      var rest := coords[1..];
      CoordPairsMembers(rest, p);
      var front := PairsWith(coords[0], rest);
      if p in front {
        var j :| 0 <= j < |front| && front[j] == p;
        assert p == (coords[0], coords[j + 1]);
      } else if p in CoordPairs(rest) {
        var i, j :| 0 <= i < j < |rest| && p == (rest[i], rest[j]);
        assert p == (coords[i + 1], coords[j + 1]);
      }
      if exists i, j :: 0 <= i < j < |coords| && p == (coords[i], coords[j]) {
        var i, j :| 0 <= i < j < |coords| && p == (coords[i], coords[j]);
        if i == 0 {
          assert front[j - 1] == p;
        } else {
          assert p == (rest[i - 1], rest[j - 1]);
        }
      }
    }
  }

  /** There are n(n-1)/2 pairs. */
  lemma {:induction false} CoordPairsLength(coords: seq<Coord>)
    ensures 2 * |CoordPairs(coords)| == |coords| * (|coords| - 1)
    decreases |coords|
  {
    if |coords| > 1 {
      CoordPairsLength(coords[1..]);
      var n := |coords|;
      assert 2 * (n - 1) + (n - 1) * (n - 2) == n * (n - 1);
    }
  }

  // ---------------------------------------------------------------------------
  // The order the pairs are processed in

  /** Each pair is no farther apart than any later one. */
  predicate Ascending(ps: seq<Pair>) {
    forall i, j :: 0 <= i < j < |ps| ==> Dist(ps[i]) <= Dist(ps[j])
  }

  /** `sorted(pairs, key=distance)` and `heapq.nsmallest(.., key=distance)`
      after `heapify`: all the pairs, closest first; how ties are ordered is
      left open. */
  predicate IsRanking(coords: seq<Coord>, ranked: seq<Pair>) {
    multiset(ranked) == multiset(CoordPairs(coords)) && Ascending(ranked)
  }

  /** A pair no farther apart than any of an ascending list can go first. */
  lemma AscendingCons(p: Pair, t: seq<Pair>)
    requires Ascending(t) && forall k :: 0 <= k < |t| ==> Dist(p) <= Dist(t[k])
    ensures Ascending([p] + t)
  {
    var r := [p] + t;
    forall i, j | 0 <= i < j < |r| ensures Dist(r[i]) <= Dist(r[j]) {
      assert r[j] == t[j - 1];
      if i > 0 { assert r[i] == t[i - 1]; }
    }
  }

  /** A bound holding for a and for every pair of s holds for every pair of a
      permutation of s with a. */
  lemma DistBound(a: Pair, s: seq<Pair>, t: seq<Pair>, lo: int)
    requires multiset(t) == multiset(s) + multiset{a}
    requires lo <= Dist(a) && forall k :: 0 <= k < |s| ==> lo <= Dist(s[k])
    ensures forall k :: 0 <= k < |t| ==> lo <= Dist(t[k])
  {
    forall k | 0 <= k < |t| ensures lo <= Dist(t[k]) {
      assert t[k] in multiset(t);
      if t[k] != a {
        assert t[k] in multiset(s);
      }
    }
  }

  /** Inserting p into an ascending list before the first farther pair. */
  function InsertByDist(p: Pair, ps: seq<Pair>): (r: seq<Pair>)
    requires Ascending(ps)
    ensures Ascending(r) && multiset(r) == multiset(ps) + multiset{p}
  {
    if ps == [] then [p]
    else if Dist(p) <= Dist(ps[0]) then
      AscendingCons(p, ps);
      [p] + ps
    else
      var t := InsertByDist(p, ps[1..]);
      assert ps == [ps[0]] + ps[1..];
      DistBound(p, ps[1..], t, Dist(ps[0]));
      AscendingCons(ps[0], t);
      [ps[0]] + t
  }

  /** A stable sort by distance. */
  function SortByDist(ps: seq<Pair>): (r: seq<Pair>)
    ensures Ascending(r) && multiset(r) == multiset(ps)
  {
    if ps == [] then []
    else
      assert ps == [ps[0]] + ps[1..];
      InsertByDist(ps[0], SortByDist(ps[1..]))
  }

  /** Every list of boxes has a ranking of its pairs. */
  lemma RankingExists(coords: seq<Coord>)
    ensures IsRanking(coords, SortByDist(CoordPairs(coords)))
  {
  }

  // ---------------------------------------------------------------------------
  // The reference meaning: boxes connected through the strung pairs

  /** The boxes named by some strung pair. */
  function Mentioned(es: seq<Pair>): set<Coord> {
    if es == [] then {} else Mentioned(es[..|es| - 1]) + {es[|es| - 1].0, es[|es| - 1].1}
  }

  /** x and y are connected by the pairs: one pair at a time, the last pair
      (a, b) connects x to y when x reaches a and b reaches y, or x reaches b
      and a reaches y. */
  predicate Conn(es: seq<Pair>, x: Coord, y: Coord)
    decreases |es|
  {
    if es == [] then x == y
    else
      var init := es[..|es| - 1];
      var (a, b) := es[|es| - 1];
      Conn(init, x, y) || (Conn(init, x, a) && Conn(init, b, y)) || (Conn(init, x, b) && Conn(init, a, y))
  }

  lemma ConnStep(es: seq<Pair>, e: Pair, x: Coord, y: Coord)
    ensures Conn(es + [e], x, y) <==>
      Conn(es, x, y) || (Conn(es, x, e.0) && Conn(es, e.1, y)) || (Conn(es, x, e.1) && Conn(es, e.0, y))
  {
    assert (es + [e])[..|es|] == es;
  }

  lemma MentionedStep(es: seq<Pair>, e: Pair)
    ensures Mentioned(es + [e]) == Mentioned(es) + {e.0, e.1}
  {
    assert (es + [e])[..|es|] == es;
  }

  lemma {:induction false} ConnReflexive(es: seq<Pair>, x: Coord)
    ensures Conn(es, x, x)
    decreases |es|
  {
    if es != [] {
      ConnReflexive(es[..|es| - 1], x);
    }
  }

  lemma {:induction false} ConnSymmetric(es: seq<Pair>, x: Coord, y: Coord)
    requires Conn(es, x, y)
    ensures Conn(es, y, x)
    decreases |es|
  {
    if es != [] {
      var init := es[..|es| - 1];
      var (a, b) := es[|es| - 1];
      if Conn(init, x, y) {
        ConnSymmetric(init, x, y);
      } else if Conn(init, x, a) && Conn(init, b, y) {
        ConnSymmetric(init, x, a);
        ConnSymmetric(init, b, y);
      } else {
        ConnSymmetric(init, x, b);
        ConnSymmetric(init, a, y);
      }
    }
  }

  /** u is in the circuit of one of the ends of the pair (a, b). */
  predicate TouchesPair(es: seq<Pair>, a: Coord, b: Coord, u: Coord) {
    Conn(es, u, a) || Conn(es, u, b)
  }

  /** The last pair merges the circuits of its two ends: x and y are
      connected when they already were, or both were in one of the merged circuits. */
  lemma {:induction false} ConnLastMerged(es: seq<Pair>, x: Coord, y: Coord)
    requires es != []
    ensures var init := es[..|es| - 1];
      var (a, b) := es[|es| - 1];
      Conn(es, x, y) <==> Conn(init, x, y) || (TouchesPair(init, a, b, x) && TouchesPair(init, a, b, y))
    decreases |es|, 0
  {
    var init := es[..|es| - 1];
    var (a, b) := es[|es| - 1];
    if TouchesPair(init, a, b, x) && TouchesPair(init, a, b, y) {
      if Conn(init, x, a) && Conn(init, y, a) {
        ConnSymmetric(init, y, a);
        ConnTransitive(init, x, a, y);
      } else if Conn(init, x, a) && Conn(init, y, b) {
        ConnSymmetric(init, y, b);
      } else if Conn(init, x, b) && Conn(init, y, a) {
        ConnSymmetric(init, y, a);
      } else {
        ConnSymmetric(init, y, b);
        ConnTransitive(init, x, b, y);
      }
    }
    if Conn(init, x, a) && Conn(init, b, y) {
      ConnSymmetric(init, b, y);
    }
    if Conn(init, x, b) && Conn(init, a, y) {
      ConnSymmetric(init, a, y);
    }
  }

  lemma {:induction false} ConnTransitive(es: seq<Pair>, x: Coord, y: Coord, z: Coord)
    requires Conn(es, x, y) && Conn(es, y, z)
    ensures Conn(es, x, z)
    decreases |es|, 1
  {
    if es != [] {
      var init := es[..|es| - 1];
      var (a, b) := es[|es| - 1];
      ConnLastMerged(es, x, y);
      ConnLastMerged(es, y, z);
      ConnLastMerged(es, x, z);
      if Conn(init, x, y) && Conn(init, y, z) {
        ConnTransitive(init, x, y, z);
      } else if Conn(init, x, y) {
        if Conn(init, y, a) {
          ConnTransitive(init, x, y, a);
        } else {
          ConnTransitive(init, x, y, b);
        }
      } else if Conn(init, y, z) {
        ConnSymmetric(init, y, z);
        if Conn(init, y, a) {
          ConnTransitive(init, z, y, a);
        } else {
          ConnTransitive(init, z, y, b);
        }
      }
    }
  }

  /** The two boxes of every strung pair are connected. */
  lemma PairsConnected(es: seq<Pair>, k: nat)
    requires k < |es|
    ensures Conn(es, es[k].0, es[k].1)
    decreases |es|
  {
    var init := es[..|es| - 1];
    if k == |es| - 1 {
      ConnReflexive(init, es[k].0);
      ConnReflexive(init, es[k].1);
    } else {
      PairsConnected(init, k);
    }
  }

  /** Conn is the least such relation: a labelling that gives both boxes of
      every pair the same tag gives every two connected boxes the same tag. */
  lemma {:induction false} ConnRespectsLabels(es: seq<Pair>, tag: Coord -> int, x: Coord, y: Coord)
    requires forall k :: 0 <= k < |es| ==> tag(es[k].0) == tag(es[k].1)
    requires Conn(es, x, y)
    ensures tag(x) == tag(y)
    decreases |es|
  {
    if es != [] {
      var init := es[..|es| - 1];
      var (a, b) := es[|es| - 1];
      assert forall k :: 0 <= k < |init| ==> init[k] == es[k];
      assert tag(a) == tag(b) by { assert es[|es| - 1] == (a, b); }
      if Conn(init, x, y) {
        ConnRespectsLabels(init, tag, x, y);
      } else if Conn(init, x, a) && Conn(init, b, y) {
        ConnRespectsLabels(init, tag, x, a);
        ConnRespectsLabels(init, tag, b, y);
      } else {
        ConnRespectsLabels(init, tag, x, b);
        ConnRespectsLabels(init, tag, a, y);
      }
    }
  }

  /** Only the boxes of some pair are connected to anything but themselves. */
  lemma {:induction false} ConnMentioned(es: seq<Pair>, x: Coord, y: Coord)
    requires Conn(es, x, y) && x != y
    ensures x in Mentioned(es) && y in Mentioned(es)
    decreases |es|
  {
    var init := es[..|es| - 1];
    var (a, b) := es[|es| - 1];
    if Conn(init, x, y) {
      ConnMentioned(init, x, y);
    } else if Conn(init, x, a) && Conn(init, b, y) {
      if x != a { ConnMentioned(init, x, a); }
      if b != y { ConnMentioned(init, b, y); }
    } else {
      if x != b { ConnMentioned(init, x, b); }
      if a != y { ConnMentioned(init, a, y); }
    }
  }

  // ---------------------------------------------------------------------------
  // coord_to_id and id_to_coords

  /** coord_to_id and id_to_coords agree: each box's id names a circuit
      holding the box, every box of a circuit has that circuit's id, circuits
      are never empty, and every id is between 1 and max_id. */
  ghost predicate Indexed(m: map<Coord, nat>, ids: map<nat, set<Coord>>, maxId: nat) {
    (forall c :: c in m ==> m[c] in ids && c in ids[m[c]])
    && (forall k, c :: k in ids && c in ids[k] ==> c in m && m[c] == k)
    && (forall k :: k in ids ==> 0 < k <= maxId && ids[k] != {})
  }

  /** The boxes share an id. */
  predicate SameId(m: map<Coord, nat>, x: Coord, y: Coord) {
    x in m && y in m && m[x] == m[y]
  }

  /** The ids follow the strung pairs: the boxes with an id are the boxes of
      some pair, and two of them share an id exactly when they are connected. */
  ghost predicate Tracks(m: map<Coord, nat>, es: seq<Pair>) {
    (forall c :: c in m <==> c in Mentioned(es))
    && (forall x, y :: x in m && y in m ==> (m[x] == m[y] <==> Conn(es, x, y)))
  }

  lemma ConnByIds(m: map<Coord, nat>, es: seq<Pair>, x: Coord, y: Coord)
    requires Tracks(m, es)
    ensures Conn(es, x, y) <==> x == y || SameId(m, x, y)
  {
    if x == y {
      ConnReflexive(es, x);
    } else if Conn(es, x, y) {
      ConnMentioned(es, x, y);
    }
  }

  /** x is a, or shares a's circuit. */
  predicate Near(m: map<Coord, nat>, a: Coord, x: Coord) {
    x == a || SameId(m, x, a)
  }

  /** New ids follow the pairs with (a, b) added when they merge exactly the
      circuits of a and b and keep every other circuit. */
  lemma MergeTracks(m: map<Coord, nat>, m': map<Coord, nat>, es: seq<Pair>, a: Coord, b: Coord)
    requires Tracks(m, es)
    requires forall c :: c in m' <==> c in m || c == a || c == b
    requires forall x, y :: x in m' && y in m' ==>
      (m'[x] == m'[y] <==> (x == y || SameId(m, x, y)
        || ((Near(m, a, x) || Near(m, b, x)) && (Near(m, a, y) || Near(m, b, y)))))
    ensures Tracks(m', es + [(a, b)])
  {
    var es' := es + [(a, b)];
    MentionedStep(es, (a, b));
    assert es'[..|es'| - 1] == es && es'[|es'| - 1] == (a, b);
    forall x, y | x in m' && y in m' ensures m'[x] == m'[y] <==> Conn(es', x, y) {
      ConnLastMerged(es', x, y);
      ConnByIds(m, es, x, y);
      ConnByIds(m, es, x, a);
      ConnByIds(m, es, x, b);
      ConnByIds(m, es, y, a);
      ConnByIds(m, es, y, b);
    }
  }

  /** First branch: neither box has an id; both get the fresh id max_id + 1. */
  lemma NewCircuit(m: map<Coord, nat>, ids: map<nat, set<Coord>>, maxId: nat, es: seq<Pair>, a: Coord, b: Coord)
    requires Indexed(m, ids, maxId) && Tracks(m, es) && a !in m && b !in m
    ensures Indexed(m[a := maxId + 1][b := maxId + 1], ids[maxId + 1 := {a, b}], maxId + 1)
    ensures Tracks(m[a := maxId + 1][b := maxId + 1], es + [(a, b)])
  {
    var n := maxId + 1;
    var m' := m[a := n][b := n];
    forall x, y | x in m' && y in m'
      ensures m'[x] == m'[y] <==> (x == y || SameId(m, x, y)
        || ((Near(m, a, x) || Near(m, b, x)) && (Near(m, a, y) || Near(m, b, y))))
    {
      if x in m {
        assert m[x] in ids;
      }
      if y in m {
        assert m[y] in ids;
      }
    }
    MergeTracks(m, m', es, a, b);
  }

  /** Second and third branches: v has no id and joins the circuit of w. */
  lemma AddToCircuit(m: map<Coord, nat>, ids: map<nat, set<Coord>>, maxId: nat, es: seq<Pair>, v: Coord, w: Coord)
    requires Indexed(m, ids, maxId) && Tracks(m, es) && v !in m && w in m
    ensures Indexed(m[v := m[w]], ids[m[w] := ids[m[w]] + {v}], maxId)
    ensures Tracks(m[v := m[w]], es + [(v, w)]) && Tracks(m[v := m[w]], es + [(w, v)])
  {
    var m' := m[v := m[w]];
    forall x, y | x in m' && y in m'
      ensures m'[x] == m'[y] <==> (x == y || SameId(m, x, y)
        || ((Near(m, v, x) || Near(m, w, x)) && (Near(m, v, y) || Near(m, w, y))))
    {
    }
    MergeTracks(m, m', es, v, w);
    MergeTracks(m, m', es, w, v);
  }

  /** coord_to_id after the relabelling loop: every box of circuit `from` now has id `to`. */
  function Relabel(m: map<Coord, nat>, from: nat, to: nat): map<Coord, nat> {
    map c | c in m :: if m[c] == from then to else m[c]
  }

  /** Last branch with two ids: the circuit of b is moved into that of a and
      its id deleted, which keeps the dictionaries in agreement ... */
  lemma MergeIndexed(m: map<Coord, nat>, ids: map<nat, set<Coord>>, maxId: nat, a: Coord, b: Coord)
    requires Indexed(m, ids, maxId) && a in m && b in m && m[a] != m[b]
    ensures Indexed(Relabel(m, m[b], m[a]), ids[m[a] := ids[m[a]] + ids[m[b]]] - {m[b]}, maxId)
  {
    var m' := Relabel(m, m[b], m[a]);
    var ids' := ids[m[a] := ids[m[a]] + ids[m[b]]] - {m[b]};
    assert m[a] in ids && m[b] in ids;
    forall c | c in m' ensures m'[c] in ids' && c in ids'[m'[c]] {
      assert m[c] in ids && c in ids[m[c]];
    }
  }

  /** ... and makes the ids follow the pairs with (a, b) added. */
  lemma MergeTracked(m: map<Coord, nat>, es: seq<Pair>, a: Coord, b: Coord)
    requires Tracks(m, es) && a in m && b in m && m[a] != m[b]
    ensures Tracks(Relabel(m, m[b], m[a]), es + [(a, b)])
  {
    var m' := Relabel(m, m[b], m[a]);
    forall x, y | x in m' && y in m'
      ensures m'[x] == m'[y] <==> (x == y || SameId(m, x, y)
        || ((Near(m, a, x) || Near(m, b, x)) && (Near(m, a, y) || Near(m, b, y))))
    {
    }
    MergeTracks(m, m', es, a, b);
  }

  /** Last branch with one id: nothing changes, as a and b are already connected. */
  lemma SameCircuit(m: map<Coord, nat>, es: seq<Pair>, a: Coord, b: Coord)
    requires Tracks(m, es) && a in m && b in m && m[a] == m[b]
    ensures Tracks(m, es + [(a, b)])
  {
    forall x, y | x in m && y in m
      ensures m[x] == m[y] <==> (x == y || SameId(m, x, y)
        || ((Near(m, a, x) || Near(m, b, x)) && (Near(m, a, y) || Near(m, b, y))))
    {
    }
    MergeTracks(m, m, es, a, b);
  }

  /** The loop `for coord in id_to_coords[id_2]` on the two dictionaries:
      each box of circuit `from` gets id `to` and is added to circuit `to`. */
  method MoveBoxes(m: map<Coord, nat>, ids: map<nat, set<Coord>>, from: nat, to: nat)
      returns (m': map<Coord, nat>, ids': map<nat, set<Coord>>)
    requires from in ids && to in ids && from != to
    requires forall c :: c in ids[from] ==> c in m
    requires forall c :: c in m ==> (c in ids[from] <==> m[c] == from)
    ensures m' == Relabel(m, from, to)
    ensures ids' == ids[to := ids[to] + ids[from]]
  {
    m', ids' := m, ids;
    var todo := ids[from];
    ghost var moved: set<Coord> := {};
    MoveNone(m, to);
    AddNone(ids, to);
    while todo != {}
      invariant todo + moved == ids[from]
      invariant m' == MoveSome(m, moved, to)
      invariant ids' == ids[to := ids[to] + moved]
      decreases |todo|
    {
      var coord :| coord in todo;
      MoveOne(m, moved, to, coord);
      AddOne(ids, to, moved, coord);
      m' := m'[coord := to];
      ids' := ids'[to := ids'[to] + {coord}];
      todo := todo - {coord};
      moved := moved + {coord};
    }
    MoveAll(m, from, to, moved);
  }

  /** coord_to_id part way through the loop: the boxes in `moved` have id `to`. */
  function MoveSome(m: map<Coord, nat>, moved: set<Coord>, to: nat): map<Coord, nat> {
    map c | c in m :: if c in moved then to else m[c]
  }

  lemma MoveNone(m: map<Coord, nat>, to: nat)
    ensures MoveSome(m, {}, to) == m
  {
  }

  lemma MoveOne(m: map<Coord, nat>, moved: set<Coord>, to: nat, coord: Coord)
    requires coord in m
    ensures MoveSome(m, moved, to)[coord := to] == MoveSome(m, moved + {coord}, to)
  {
  }

  lemma AddNone<K, V>(ids: map<K, set<V>>, to: K)
    requires to in ids
    ensures ids[to := ids[to] + {}] == ids
  {
    assert ids[to] + {} == ids[to];
  }

  lemma AddOne<K, V>(ids: map<K, set<V>>, to: K, moved: set<V>, x: V)
    requires to in ids
    ensures ids[to := ids[to] + moved][to := ids[to] + moved + {x}] == ids[to := ids[to] + (moved + {x})]
  {
    assert ids[to] + moved + {x} == ids[to] + (moved + {x});
  }

  lemma MoveAll(m: map<Coord, nat>, from: nat, to: nat, moved: set<Coord>)
    requires forall c :: c in m ==> (c in moved <==> m[c] == from)
    ensures MoveSome(m, moved, to) == Relabel(m, from, to)
  {
  }

  /** The body of the merge loop for one pair (coord_1, coord_2), on the two
      dictionaries and max_id: afterwards both boxes share an id, every two
      boxes share an id exactly when the pairs so far connect them, and a merge
      of two circuits deletes the id of the second. */
  method Step(m: map<Coord, nat>, ids: map<nat, set<Coord>>, maxId: nat, ghost es: seq<Pair>, c1: Coord, c2: Coord)
      returns (m': map<Coord, nat>, ids': map<nat, set<Coord>>, maxId': nat)
    requires Indexed(m, ids, maxId) && Tracks(m, es)
    ensures Indexed(m', ids', maxId') && Tracks(m', es + [(c1, c2)])
    ensures c1 in m' && c2 in m' && m'[c1] == m'[c2]
    ensures c1 in m && c2 in m && m[c1] != m[c2] ==> ids'.Keys == ids.Keys - {m[c2]}
  {
    if c1 !in m && c2 !in m {
      NewCircuit(m, ids, maxId, es, c1, c2);
      maxId' := maxId + 1;
      m' := m[c1 := maxId'][c2 := maxId'];
      ids' := ids[maxId' := {c1, c2}];
    } else if c1 !in m && c2 in m {
      AddToCircuit(m, ids, maxId, es, c1, c2);
      var id := m[c2];
      m', ids', maxId' := m[c1 := id], ids[id := ids[id] + {c1}], maxId;
    } else if c1 in m && c2 !in m {
      AddToCircuit(m, ids, maxId, es, c2, c1);
      var id := m[c1];
      m', ids', maxId' := m[c2 := id], ids[id := ids[id] + {c2}], maxId;
    } else {
      m', ids' := MergeBoth(m, ids, maxId, es, c1, c2);
      maxId' := maxId;
    }
  }

  /** The last branch of the merge loop, when both boxes have an id: with
      two different ids the second circuit is moved into the first and its id
      deleted, with one id nothing changes. */
  method MergeBoth(m: map<Coord, nat>, ids: map<nat, set<Coord>>, maxId: nat, ghost es: seq<Pair>, c1: Coord, c2: Coord)
      returns (m': map<Coord, nat>, ids': map<nat, set<Coord>>)
    requires Indexed(m, ids, maxId) && Tracks(m, es) && c1 in m && c2 in m
    ensures Indexed(m', ids', maxId) && Tracks(m', es + [(c1, c2)])
    ensures c1 in m' && c2 in m' && m'[c1] == m'[c2]
    ensures ids'.Keys == if m[c1] != m[c2] then ids.Keys - {m[c2]} else ids.Keys
  {
    var id1 := m[c1];
    var id2 := m[c2];
    if id1 != id2 {
      MergeIndexed(m, ids, maxId, c1, c2);
      MergeTracked(m, es, c1, c2);
      IndexedMembers(m, ids, maxId, id2);
      m', ids' := MoveBoxes(m, ids, id2, id1);
      ids' := ids' - {id2};
    } else {
      SameCircuit(m, es, c1, c2);
      m', ids' := m, ids;
    }
  }

  /** The boxes of circuit k are the boxes with id k. */
  lemma IndexedMembers(m: map<Coord, nat>, ids: map<nat, set<Coord>>, maxId: nat, k: nat)
    requires Indexed(m, ids, maxId) && k in ids
    ensures forall c :: c in ids[k] ==> c in m
    ensures forall c :: c in m ==> (c in ids[k] <==> m[c] == k)
  {
  }

  /** The state of the merge loop: coord_to_id, id_to_coords and max_id, and
      (as a record for the proofs) the pairs strung so far. */
  class Circuits {
    var coordToId: map<Coord, nat>
    var idToCoords: map<nat, set<Coord>>
    var maxId: nat
    ghost var strung: seq<Pair>

    ghost predicate Valid()
      reads this
    {
      Indexed(coordToId, idToCoords, maxId) && Tracks(coordToId, strung)
    }

    /** `coord_to_id = {}`, `id_to_coords = {}`, `max_id = 0` */
    constructor()
      ensures Valid() && strung == [] && coordToId == map[] && idToCoords == map[] && maxId == 0
    {
      coordToId := map[];
      idToCoords := map[];
      maxId := 0;
      strung := [];
    }

    /** One turn of the merge loop: Step applied to the dictionaries. */
    method Join(c1: Coord, c2: Coord)
      requires Valid()
      modifies this
      ensures Valid() && strung == old(strung) + [(c1, c2)]
      ensures c1 in coordToId && c2 in coordToId && coordToId[c1] == coordToId[c2]
      ensures c1 in old(coordToId) && c2 in old(coordToId) && old(coordToId[c1]) != old(coordToId[c2]) ==>
        idToCoords.Keys == old(idToCoords).Keys - {old(coordToId[c2])}
    {
      var m, ids, top := Step(coordToId, idToCoords, maxId, strung, c1, c2);
      coordToId, idToCoords, maxId := m, ids, top;
      strung := strung + [(c1, c2)];
    }

    /** The check of task_2: `len(id_to_coords) == 1 and
        len(next(iter(id_to_coords.values()))) == len(coords)`. */
    method SpansAll(n: int) returns (b: bool)
      requires Valid()
      ensures b <==> Spans(strung, n)
    {
      IdsAreCircuits(coordToId, idToCoords, maxId, strung);
      OneValueOneKey(idToCoords);
      if |idToCoords| == 1 {
        var k :| k in idToCoords;
        OneKeyOneValue(idToCoords, k);
        b := |idToCoords[k]| == n;
      } else {
        b := false;
      }
    }

    /** `len(coord_list) for coord_list in id_to_coords.values()`: the size of
        every circuit (the values are distinct sets, so visiting the set of
        values visits each id once). */
    method CircuitSizes() returns (sizes: seq<int>)
      requires Valid()
      ensures multiset(sizes) == multiset(Sizes(CircuitsOf(strung)))
    {
      IdsAreCircuits(coordToId, idToCoords, maxId, strung);
      ghost var all := idToCoords.Values;
      var rest := idToCoords.Values;
      sizes := [];
      while rest != {}
        invariant multiset(sizes) + multiset(Sizes(rest)) == multiset(Sizes(all))
        decreases |rest|
      {
        var c :| c in rest;
        SizesRemove(rest, c);
        sizes := sizes + [|c|];
        rest := rest - {c};
      }
    }
  }

  // ---------------------------------------------------------------------------
  // The circuits the pairs form

  /** The circuit of box x: the boxes that the pairs connect to x. */
  ghost function CircuitOf(es: seq<Pair>, x: Coord): set<Coord> {
    set y | y in Mentioned(es) && Conn(es, x, y)
  }

  /** The circuits: the circuit of each box of the pairs. */
  ghost function CircuitsOf(es: seq<Pair>): set<set<Coord>> {
    set x | x in Mentioned(es) :: CircuitOf(es, x)
  }

  /** The circuits partition the boxes of the pairs into connected classes:
      each is non-empty, every box lies in one, a circuit holds exactly the
      boxes connected to any of its members, and two different circuits share
      no box. */
  lemma CircuitsPartition(es: seq<Pair>)
    ensures forall c :: c in CircuitsOf(es) ==> c != {} && c <= Mentioned(es)
    ensures forall x :: x in Mentioned(es) ==> CircuitOf(es, x) in CircuitsOf(es) && x in CircuitOf(es, x)
    ensures forall c, x :: c in CircuitsOf(es) && x in c ==> c == CircuitOf(es, x)
    ensures forall c, d :: c in CircuitsOf(es) && d in CircuitsOf(es) && c != d ==> c !! d
  {
    forall x | x in Mentioned(es) ensures x in CircuitOf(es, x) {
      ConnReflexive(es, x);
    }
    forall c, x | c in CircuitsOf(es) && x in c ensures c == CircuitOf(es, x) {
      var z :| z in Mentioned(es) && c == CircuitOf(es, z);
      SameCircuitOf(es, z, x);
    }
    forall c, d | c in CircuitsOf(es) && d in CircuitsOf(es) && !(c !! d) ensures c == d {
      var w :| w in c && w in d;
      var z :| z in Mentioned(es) && c == CircuitOf(es, z);
      var z' :| z' in Mentioned(es) && d == CircuitOf(es, z');
      SameCircuitOf(es, z, w);
      SameCircuitOf(es, z', w);
    }
  }

  /** Connected boxes have the same circuit. */
  lemma SameCircuitOf(es: seq<Pair>, z: Coord, x: Coord)
    requires Conn(es, z, x)
    ensures CircuitOf(es, z) == CircuitOf(es, x)
  {
    forall y ensures Conn(es, z, y) <==> Conn(es, x, y) {
      ConnSymmetric(es, z, x);
      if Conn(es, z, y) {
        ConnTransitive(es, x, z, y);
      }
      if Conn(es, x, y) {
        ConnTransitive(es, z, x, y);
      }
    }
  }

  /** The circuit id_to_coords holds for a box is the box's circuit. */
  lemma IdCircuit(m: map<Coord, nat>, ids: map<nat, set<Coord>>, maxId: nat, es: seq<Pair>, c: Coord)
    requires Indexed(m, ids, maxId) && Tracks(m, es) && c in m
    ensures m[c] in ids && ids[m[c]] == CircuitOf(es, c)
  {
    forall y ensures y in ids[m[c]] <==> y in CircuitOf(es, c) {
      ConnByIds(m, es, c, y);
    }
  }

  /** The values of id_to_coords are the circuits, a different set for each id. */
  lemma IdsAreCircuits(m: map<Coord, nat>, ids: map<nat, set<Coord>>, maxId: nat, es: seq<Pair>)
    requires Indexed(m, ids, maxId) && Tracks(m, es)
    ensures ids.Values == CircuitsOf(es)
    ensures forall k, k' :: k in ids && k' in ids && k != k' ==> ids[k] != ids[k']
  {
    forall v | v in ids.Values ensures v in CircuitsOf(es) {
      var k :| k in ids && ids[k] == v;
      var c :| c in v;
      IdCircuit(m, ids, maxId, es, c);
    }
    forall v | v in CircuitsOf(es) ensures v in ids.Values {
      var x :| x in Mentioned(es) && v == CircuitOf(es, x);
      IdCircuit(m, ids, maxId, es, x);
    }
    forall k, k' | k in ids && k' in ids && k != k' ensures ids[k] != ids[k'] {
      var c :| c in ids[k];
      assert c in m && m[c] == k && c !in ids[k'];
    }
  }

  // ---------------------------------------------------------------------------
  // task_1: the product of the three largest circuits

  /** The sizes of a set of circuits, one per circuit. */
  ghost function Sizes<T>(cs: set<set<T>>): (r: seq<int>)
    ensures |r| == |cs|
    decreases |cs|
  {
    if cs == {} then [] else var c :| c in cs; [|c|] + Sizes(cs - {c})
  }

  /** Taking out one circuit takes out its size: the sizes do not depend on
      the order the circuits are visited in. */
  lemma {:induction false} SizesRemove<T>(cs: set<set<T>>, c: set<T>)
    requires c in cs
    ensures multiset(Sizes(cs)) == multiset(Sizes(cs - {c})) + multiset{|c|}
    decreases |cs|
  {
    var d := SizesPick(cs);
    if d != c {
      var rest := cs - {d} - {c};
      assert rest == cs - {c} - {d};
      assert multiset(Sizes(cs - {d})) == multiset(Sizes(rest)) + multiset{|c|} by {
        SizesRemove(cs - {d}, c);
      }
      assert multiset(Sizes(cs - {c})) == multiset(Sizes(rest)) + multiset{|d|} by {
        SizesRemove(cs - {c}, d);
      }
    }
  }

  lemma SizesPick<T>(cs: set<set<T>>) returns (d: set<T>)
    requires cs != {}
    ensures d in cs && Sizes(cs) == [|d|] + Sizes(cs - {d})
  {
    d :| d in cs && Sizes(cs) == [|d|] + Sizes(cs - {d});
  }

  /** The last (largest) k elements of a sorted list: `heapq.nlargest(k, ..)`. */
  function Top(sorted: seq<int>, k: nat): (r: seq<int>)
    ensures |r| == if |sorted| <= k then |sorted| else k
  {
    if |sorted| <= k then sorted else sorted[|sorted| - k..]
  }

  function Product(s: seq<int>): int {
    if s == [] then 1 else Product(s[..|s| - 1]) * s[|s| - 1]
  }

  /** The answer of task_1 for a set of circuits: the product of the sizes of
      the (at most) three largest. */
  ghost function LargestProduct(cs: set<set<Coord>>): int {
    Product(Top(SortInts(Sizes(cs)), 3))
  }

  /** Listing the sizes in any order gives the same answer. */
  lemma LargestProductAnyOrder(cs: set<set<Coord>>, sizes: seq<int>)
    requires multiset(sizes) == multiset(Sizes(cs))
    ensures Product(Top(SortInts(sizes), 3)) == LargestProduct(cs)
  {
    SortedUnique(SortInts(sizes), SortInts(Sizes(cs)));
  }

  /** The three chosen sizes are the largest: no circuit left out is larger. */
  lemma TopIsLargest(sorted: seq<int>, k: nat, i: nat, j: nat)
    requires SortedInts(sorted) && i < |sorted| - |Top(sorted, k)| && j < |Top(sorted, k)|
    ensures sorted[i] <= Top(sorted, k)[j]
  {
    assert Top(sorted, k)[j] == sorted[|sorted| - k + j];
  }

  /** `heapq.nsmallest(max_steps, pairs, key=distance)`: the first max_steps
      pairs of the ranking, none when max_steps is not positive and all when
      it exceeds their number. */
  function Closest(ranked: seq<Pair>, maxSteps: int): (r: seq<Pair>)
    ensures |r| == if maxSteps <= 0 then 0 else if maxSteps < |ranked| then maxSteps else |ranked|
    ensures r == ranked[..|r|]
  {
    if maxSteps <= 0 then [] else if maxSteps < |ranked| then ranked[..maxSteps] else ranked
  }

  /** The merge loop of task_1 over the given pairs. */
  method StringPairs(ps: seq<Pair>) returns (circuits: Circuits)
    ensures fresh(circuits) && circuits.Valid() && circuits.strung == ps
  {
    circuits := new Circuits();
    for i := 0 to |ps|
      invariant circuits.Valid() && circuits.strung == ps[..i]
    {
      assert ps[..i + 1] == ps[..i] + [(ps[i].0, ps[i].1)];
      circuits.Join(ps[i].0, ps[i].1);
    }
    assert ps[..|ps|] == ps;
  }

  /** `product *= len(coord_list)` over the chosen circuits. */
  method ProductOf(sizes: seq<int>) returns (product: int)
    ensures product == Product(sizes)
  {
    product := 1;
    for i := 0 to |sizes|
      invariant product == Product(sizes[..i])
    {
      assert sizes[..i + 1][..i] == sizes[..i];
      product := product * sizes[i];
    }
    assert sizes[..|sizes|] == sizes;
  }

  /** task_1: string the max_steps closest pairs, then multiply the sizes of
      the three largest circuits. */
  method Task1(coords: seq<Coord>, maxSteps: int, ranked: seq<Pair>) returns (product: int)
    requires IsRanking(coords, ranked)
    ensures product == LargestProduct(CircuitsOf(Closest(ranked, maxSteps)))
  {
    var sortedPairs := Closest(ranked, maxSteps);
    var circuits := StringPairs(sortedPairs);
    var sizes := circuits.CircuitSizes();
    product := ProductOf(Top(SortInts(sizes), 3));
    LargestProductAnyOrder(CircuitsOf(sortedPairs), sizes);
  }

  // ---------------------------------------------------------------------------
  // task_2: the pair that joins all the boxes into one circuit

  /** The check after each pair: a single circuit, as large as the list of boxes. */
  ghost predicate Spans(es: seq<Pair>, n: int) {
    |CircuitsOf(es)| == 1 && forall c :: c in CircuitsOf(es) ==> |c| == n
  }

  /** What task_2 returns going on from pair k of the ranking: the product of
      the x coordinates of the first pair after which the check holds, or 0. */
  ghost function FirstSpanning(ranked: seq<Pair>, n: int, k: nat): int
    requires k <= |ranked|
    decreases |ranked| - k
  {
    if k == |ranked| then 0
    else if Spans(ranked[..k + 1], n) then ranked[k].0.x * ranked[k].1.x
    else FirstSpanning(ranked, n, k + 1)
  }

  /** A map with one key has one value. */
  lemma OneKeyOneValue<K, V>(ids: map<K, V>, k: K)
    requires |ids| == 1 && k in ids
    ensures ids.Values == {ids[k]}
  {
    forall k' | k' in ids ensures k' == k {
      if k' != k {
        SubsetCard({k, k'}, ids.Keys);
      }
    }
  }

  /** A map with one value, a different one for each key, has one key. */
  lemma OneValueOneKey<K, V>(ids: map<K, V>)
    requires forall k, k' :: k in ids && k' in ids && k != k' ==> ids[k] != ids[k']
    ensures |ids.Values| == 1 ==> |ids| == 1
  {
    if |ids.Values| == 1 {
      var v :| v in ids.Values;
      var k :| k in ids && ids[k] == v;
      forall k' | k' in ids ensures k' == k {
        if ids[k'] != v {
          SubsetCard({v, ids[k']}, ids.Values);
        }
      }
      assert ids.Keys == {k};
    }
  }

  /** task_2: string the pairs closest first and stop at the first one after
      which all the boxes form one circuit. */
  method Task2(coords: seq<Coord>, ranked: seq<Pair>) returns (r: int)
    requires IsRanking(coords, ranked)
    ensures r == FirstSpanning(ranked, |coords|, 0)
  {
    var circuits := new Circuits();
    for i := 0 to |ranked|
      invariant circuits.Valid() && circuits.strung == ranked[..i]
      invariant FirstSpanning(ranked, |coords|, 0) == FirstSpanning(ranked, |coords|, i)
    {
      var (c1, c2) := ranked[i];
      assert ranked[..i + 1] == ranked[..i] + [(c1, c2)];
      circuits.Join(c1, c2);
      var spans := circuits.SpansAll(|coords|);
      if spans {
        return c1.x * c2.x;
      }
    }
    return 0;
  }

  // ---------------------------------------------------------------------------
  // What the check of task_2 means

  function Boxes(coords: seq<Coord>): set<Coord> {
    set c | c in coords
  }

  predicate Distinct(coords: seq<Coord>) {
    forall i, j :: 0 <= i < j < |coords| ==> coords[i] != coords[j]
  }

  /** Every pair joins two boxes of the list. */
  predicate Within(es: seq<Pair>, coords: seq<Coord>) {
    forall k :: 0 <= k < |es| ==> es[k].0 in coords && es[k].1 in coords
  }

  /** Every box of the list connected to every other. */
  ghost predicate AllConnected(es: seq<Pair>, coords: seq<Coord>) {
    forall i, j :: 0 <= i < |coords| && 0 <= j < |coords| ==> Conn(es, coords[i], coords[j])
  }

  /** A list has at most as many different boxes as entries, exactly as many
      when no box repeats. */
  lemma {:induction false} BoxesCount(coords: seq<Coord>)
    ensures |Boxes(coords)| <= |coords|
    ensures |Boxes(coords)| == |coords| <==> Distinct(coords)
    decreases |coords|
  {
    if coords != [] {
      var init := coords[..|coords| - 1];
      var x := coords[|coords| - 1];
      BoxesCount(init);
      assert coords == init + [x];
      assert Boxes(coords) == Boxes(init) + {x};
      if x in Boxes(init) {
        var i :| 0 <= i < |init| && init[i] == x;
        assert coords[i] == coords[|coords| - 1];
      } else {
        assert Distinct(coords) <==> Distinct(init);
      }
    }
  }

  lemma {:induction false} MentionedWithin(es: seq<Pair>, coords: seq<Coord>)
    requires Within(es, coords)
    ensures Mentioned(es) <= Boxes(coords)
    decreases |es|
  {
    if es != [] {
      var init := es[..|es| - 1];
      assert Within(init, coords) by {
        assert forall k :: 0 <= k < |init| ==> init[k] == es[k];
      }
      MentionedWithin(init, coords);
    }
  }

  /** The pairs of a ranking join boxes of the list. */
  lemma RankingWithin(coords: seq<Coord>, ranked: seq<Pair>, n: nat)
    requires IsRanking(coords, ranked) && n <= |ranked|
    ensures Within(ranked[..n], coords)
  {
    forall k | 0 <= k < n ensures ranked[k].0 in coords && ranked[k].1 in coords {
      assert ranked[k] in multiset(CoordPairs(coords));
      CoordPairsMembers(coords, ranked[k]);
    }
  }

  /** For a list of at least two different boxes, the check holds exactly
      when every box is connected to every other. */
  lemma SpansIffConnected(es: seq<Pair>, coords: seq<Coord>)
    requires Within(es, coords) && Distinct(coords) && |coords| >= 2
    ensures Spans(es, |coords|) <==> AllConnected(es, coords)
  {
    BoxesCount(coords);
    MentionedWithin(es, coords);
    CircuitsPartition(es);
    if Spans(es, |coords|) {
      var c :| c in CircuitsOf(es);
      SubsetCard(c, Boxes(coords));
      forall i, j | 0 <= i < |coords| && 0 <= j < |coords| ensures Conn(es, coords[i], coords[j]) {
        assert coords[i] in c && coords[j] in c;
        assert coords[j] in CircuitOf(es, coords[i]);
      }
    }
    if AllConnected(es, coords) {
      ConnectedSpans(es, coords);
    }
  }

  lemma ConnectedSpans(es: seq<Pair>, coords: seq<Coord>)
    requires Within(es, coords) && Distinct(coords) && |coords| >= 2 && AllConnected(es, coords)
    ensures Spans(es, |coords|)
  {
    BoxesCount(coords);
    MentionedWithin(es, coords);
    var x0 := coords[0];
    assert Conn(es, x0, coords[1]);
    ConnMentioned(es, x0, coords[1]);
    forall x | x in Boxes(coords) ensures x in Mentioned(es) && Conn(es, x0, x) {
      var i :| 0 <= i < |coords| && coords[i] == x;
      assert Conn(es, coords[0], coords[i]);
      if x != x0 {
        ConnMentioned(es, x0, x);
      }
    }
    assert CircuitOf(es, x0) == Boxes(coords);
    forall x | x in Mentioned(es) ensures CircuitOf(es, x) == Boxes(coords) {
      SameCircuitOf(es, x0, x);
    }
    assert CircuitsOf(es) == {Boxes(coords)};
  }

  /** A list with a repeated box never passes the check: a circuit holds
      different boxes, fewer than the list's length. */
  lemma RepeatedBoxNeverSpans(es: seq<Pair>, coords: seq<Coord>)
    requires Within(es, coords) && !Distinct(coords)
    ensures !Spans(es, |coords|)
  {
    BoxesCount(coords);
    MentionedWithin(es, coords);
    CircuitsPartition(es);
    forall c | c in CircuitsOf(es) ensures |c| < |coords| {
      SubsetCard(c, Boxes(coords));
    }
  }

  /** With a repeated box task_2 returns 0. */
  lemma {:induction false} RepeatedBoxAnswersZero(coords: seq<Coord>, ranked: seq<Pair>, k: nat)
    requires IsRanking(coords, ranked) && !Distinct(coords) && k <= |ranked|
    ensures FirstSpanning(ranked, |coords|, k) == 0
    decreases |ranked| - k
  {
    if k < |ranked| {
      RankingWithin(coords, ranked, k + 1);
      RepeatedBoxNeverSpans(ranked[..k + 1], coords);
      RepeatedBoxAnswersZero(coords, ranked, k + 1);
    }
  }

  /** Stringing every pair connects every box. */
  lemma RankingConnectsAll(coords: seq<Coord>, ranked: seq<Pair>)
    requires IsRanking(coords, ranked)
    ensures AllConnected(ranked, coords)
  {
    forall i, j | 0 <= i < |coords| && 0 <= j < |coords| ensures Conn(ranked, coords[i], coords[j]) {
      if i == j {
        ConnReflexive(ranked, coords[i]);
      } else {
        var (lo, hi) := if i < j then (i, j) else (j, i);
        CoordPairsMembers(coords, (coords[lo], coords[hi]));
        assert (coords[lo], coords[hi]) in multiset(ranked);
        var k :| 0 <= k < |ranked| && ranked[k] == (coords[lo], coords[hi]);
        PairsConnected(ranked, k);
        ConnSymmetric(ranked, coords[lo], coords[hi]);
      }
    }
  }

  /** The check holds after pair j of the ranking. */
  ghost predicate SpansAfter(ranked: seq<Pair>, n: int, j: nat)
    requires j < |ranked|
  {
    Spans(ranked[..j + 1], n)
  }

  /** Every box is connected to every other after pair j of the ranking. */
  ghost predicate ConnectedAfter(ranked: seq<Pair>, coords: seq<Coord>, j: nat)
    requires j < |ranked|
  {
    AllConnected(ranked[..j + 1], coords)
  }

  /** The scan from pair i meets the first prefix passing the check, given
      that the whole ranking passes it. */
  lemma {:induction false} ScanStops(ranked: seq<Pair>, n: int, i: nat) returns (k: nat)
    requires i < |ranked| && SpansAfter(ranked, n, |ranked| - 1)
    ensures i <= k < |ranked| && SpansAfter(ranked, n, k)
    ensures forall j :: i <= j < k ==> !SpansAfter(ranked, n, j)
    ensures FirstSpanning(ranked, n, i) == ranked[k].0.x * ranked[k].1.x
    decreases |ranked| - i
  {
    if SpansAfter(ranked, n, i) {
      k := i;
    } else {
      k := ScanStops(ranked, n, i + 1);
    }
  }

  lemma PrefixSpansIff(coords: seq<Coord>, ranked: seq<Pair>, j: nat)
    requires IsRanking(coords, ranked) && Distinct(coords) && |coords| >= 2 && j < |ranked|
    ensures SpansAfter(ranked, |coords|, j) <==> ConnectedAfter(ranked, coords, j)
  {
    RankingWithin(coords, ranked, j + 1);
    SpansIffConnected(ranked[..j + 1], coords);
  }

  /** For at least two different boxes task_2 returns the product of the x
      coordinates of the first pair of the ranking after which every box is
      connected to every other. */
  lemma Task2Meaning(coords: seq<Coord>, ranked: seq<Pair>) returns (k: nat)
    requires IsRanking(coords, ranked) && Distinct(coords) && |coords| >= 2
    ensures k < |ranked| && ConnectedAfter(ranked, coords, k)
    ensures forall j :: 0 <= j < k ==> !ConnectedAfter(ranked, coords, j)
    ensures FirstSpanning(ranked, |coords|, 0) == ranked[k].0.x * ranked[k].1.x
  {
    assert (coords[0], coords[1]) in CoordPairs(coords) by {
      CoordPairsMembers(coords, (coords[0], coords[1]));
    }
    assert (coords[0], coords[1]) in multiset(ranked);
    RankingConnectsAll(coords, ranked);
    assert ranked[..|ranked| - 1 + 1] == ranked;
    PrefixSpansIff(coords, ranked, |ranked| - 1);
    k := ScanStops(ranked, |coords|, 0);
    PrefixSpansIff(coords, ranked, k);
    forall j | 0 <= j < k ensures !ConnectedAfter(ranked, coords, j) {
      PrefixSpansIff(coords, ranked, j);
    }
  }
}
