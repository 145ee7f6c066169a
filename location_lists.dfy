// Two lists of location IDs, one pair per input line: their total distance
// once both are sorted, and their similarity score (2024/day_01/main.py and its
// earlier copy day_01/challenge_1/main.py, which computes the distance only).

module LocationLists {
  import opened Basics

  function Abs(x: int): (a: nat)
    ensures a == x || a == -x
  {
    if x < 0 then -x else x
  }

  // ---------------------------------------------------------------------------
  // Reading the lists

  /** `left, right = line.split()` followed by `int(...)` on both halves;
      None where Python raises (not exactly two tokens, or a token that is not a number). */
  function ParsePair(line: string): (p: Option<(nat, nat)>)
    ensures p.Some? <==> |Split(line)| == 2 && AllDigits(Split(line)[0]) && AllDigits(Split(line)[1])
    ensures p.Some? ==> p.value == (DecimalValue(Split(line)[0]), DecimalValue(Split(line)[1]))
  {
    var ts := Split(line);
    if |ts| == 2 && AllDigits(ts[0]) && AllDigits(ts[1]) then
      Some((DecimalValue(ts[0]), DecimalValue(ts[1])))
    else
      None
  }

  /** A line holding two numbers written out in decimal reads back as those numbers. */
  lemma ParsePairRoundTrip(a: nat, b: nat)
    ensures ParsePair(Join([Decimal(a), Decimal(b)], " ")) == Some((a, b))
  {
    DecimalIsWord(a);
    DecimalIsWord(b);
    SplitJoin([Decimal(a), Decimal(b)]);
    DecimalRoundTrip(a);
    DecimalRoundTrip(b);
  }

  /** The first and second numbers of every line, or None if some line does not parse. */
  function ParseLists(lines: seq<string>): (r: Option<(seq<nat>, seq<nat>)>)
    ensures r.Some? <==> forall k :: 0 <= k < |lines| ==> ParsePair(lines[k]).Some?
    ensures r.Some? ==> |r.value.0| == |r.value.1| == |lines|
    ensures r.Some? ==> forall k :: 0 <= k < |lines| ==>
      ParsePair(lines[k]) == Some((r.value.0[k], r.value.1[k]))
  {
    ReadPairs(ParsePair, lines)
  }

  /** The pairs read by f from every element, as two lists, or None if some
      element cannot be read. */
  function ReadPairs<A>(f: A -> Option<(nat, nat)>, xs: seq<A>): (r: Option<(seq<nat>, seq<nat>)>)
    ensures r.Some? <==> forall k :: 0 <= k < |xs| ==> f(xs[k]).Some?
    ensures r.Some? ==> |r.value.0| == |r.value.1| == |xs|
    ensures r.Some? ==> forall k :: 0 <= k < |xs| ==> f(xs[k]) == Some((r.value.0[k], r.value.1[k]))
  {
    if xs == [] then Some(([], []))
    else
      var init := ReadPairs(f, xs[..|xs| - 1]);
      var last := f(xs[|xs| - 1]);
      if init.Some? && last.Some? then
        Some((init.value.0 + [last.value.0], init.value.1 + [last.value.1]))
      else
        assert init.None? ==> exists k :: 0 <= k < |xs| - 1 && f(xs[k]).None? by {
          if init.None? {
            var k :| 0 <= k < |xs| - 1 && f(xs[..|xs| - 1][k]).None?;
            assert xs[..|xs| - 1][k] == xs[k];
          }
        }
        None
  }

  /** The file-reading loop: both lists grow by one number per line. */
  method ReadLists(lines: seq<string>) returns (r: Option<(seq<nat>, seq<nat>)>)
    ensures r == ParseLists(lines)
  {
    var left: seq<nat> := [];
    var right: seq<nat> := [];
    var i := 0;
    while i < |lines|
      invariant 0 <= i <= |lines|
      invariant ParseLists(lines[..i]) == Some((left, right))
    {
      var p := ParsePair(lines[i]);
      if p.None? {
        assert lines[..i + 1][..i] == lines[..i];
        ParseListsPrefix(lines, i + 1);
        return None;
      }
      left := left + [p.value.0];
      right := right + [p.value.1];
      assert lines[..i + 1][..i] == lines[..i];
      i := i + 1;
    }
    assert lines[..i] == lines;
    r := Some((left, right));
  }

  /** A prefix that fails to parse makes the whole input fail. */
  lemma ParseListsPrefix(lines: seq<string>, n: nat)
    requires n <= |lines| && ParseLists(lines[..n]).None?
    ensures ParseLists(lines).None?
  {
    var k :| 0 <= k < n && ParsePair(lines[..n][k]).None?;
    assert lines[..n][k] == lines[k];
  }

  // ---------------------------------------------------------------------------
  // Sorting (`list.sort()`)

  /** Sorts the list in place into ascending order. */
  method SortList(a: array<int>)
    modifies a
    ensures a[..] == SortInts(old(a[..]))
  {
    var s := SortInts(a[..]);
    assert |s| == |multiset(s)| == a.Length;
    var i := 0;
    while i < a.Length
      invariant 0 <= i <= a.Length
      invariant forall k :: 0 <= k < i ==> a[k] == s[k]
    {
      a[i] := s[i];
      i := i + 1;
    }
  }

  // ---------------------------------------------------------------------------
  // Part 1: the distance between the sorted lists

  /** `sum(abs(l - r) for l, r in zip(left, right))`: zip stops at the shorter list. */
  function DiffSum(left: seq<int>, right: seq<int>): (d: nat)
  {
    if left == [] || right == [] then 0
    else Abs(left[0] - right[0]) + DiffSum(left[1..], right[1..])
  }

  function Min(a: nat, b: nat): nat {
    if a <= b then a else b
  }

  lemma {:induction false} DiffSumSymmetric(left: seq<int>, right: seq<int>)
    ensures DiffSum(left, right) == DiffSum(right, left)
    decreases |left|
  {
    if left != [] && right != [] {
      DiffSumSymmetric(left[1..], right[1..]);
    }
  }

  /** The distance is zero exactly when the lists agree position by position
      over the length of the shorter one. */
  lemma {:induction false} DiffSumZero(left: seq<int>, right: seq<int>)
    ensures DiffSum(left, right) == 0 <==> left[..Min(|left|, |right|)] == right[..Min(|left|, |right|)]
    decreases |left|
  {
    var m := Min(|left|, |right|);
    if left != [] && right != [] {
      DiffSumZero(left[1..], right[1..]);
      var m' := Min(|left| - 1, |right| - 1);
      assert m == m' + 1;
      assert left[..m] == [left[0]] + left[1..][..m'];
      assert right[..m] == [right[0]] + right[1..][..m'];
      if left[..m] == right[..m] {
        assert left[1..][..m'] == left[..m][1..] == right[..m][1..] == right[1..][..m'];
      }
    }
  }

  /** The answer to part 1: sort both lists, then sum the pairwise distances. */
  function TotalDistance(left: seq<int>, right: seq<int>): (d: nat)
  {
    DiffSum(SortInts(left), SortInts(right))
  }

  lemma TotalDistanceSymmetric(left: seq<int>, right: seq<int>)
    ensures TotalDistance(left, right) == TotalDistance(right, left)
  {
    DiffSumSymmetric(SortInts(left), SortInts(right));
  }

  /** Only the multisets of the lists matter, not the order the IDs were read in. */
  lemma TotalDistanceOrderFree(l1: seq<int>, l2: seq<int>, r1: seq<int>, r2: seq<int>)
    requires multiset(l1) == multiset(l2) && multiset(r1) == multiset(r2)
    ensures TotalDistance(l1, r1) == TotalDistance(l2, r2)
  {
    SortedUnique(SortInts(l1), SortInts(l2));
    SortedUnique(SortInts(r1), SortInts(r2));
  }

  /** Lists of equal length are at distance zero exactly when they hold the same IDs. */
  lemma TotalDistanceZero(left: seq<int>, right: seq<int>)
    requires |left| == |right|
    ensures TotalDistance(left, right) == 0 <==> multiset(left) == multiset(right)
  {
    var sl, sr := SortInts(left), SortInts(right);
    assert |sl| == |multiset(sl)| == |left| && |sr| == |multiset(sr)| == |right|;
    DiffSumZero(sl, sr);
    assert sl[..|sl|] == sl && sr[..|sr|] == sr;
    if multiset(left) == multiset(right) {
      SortedUnique(sl, sr);
    }
  }

  // ---------------------------------------------------------------------------
  // Part 2: the similarity score

  /** `sum(l * Counter(right).get(l, 0) for l in left)` */
  function Similarity(left: seq<int>, right: seq<int>): int
  {
    if left == [] then 0
    else
      var l := left[|left| - 1];
      Similarity(left[..|left| - 1], right) + l * Count(right, l)
  }

  /** Counter(right).get(l, 0) is the multiplicity of l in right, so the
      score depends on the right list only through its multiset. */
  lemma {:induction false} SimilarityRightMultiset(left: seq<int>, r1: seq<int>, r2: seq<int>)
    requires multiset(r1) == multiset(r2)
    ensures Similarity(left, r1) == Similarity(left, r2)
    decreases |left|
  {
    if left != [] {
      SimilarityRightMultiset(left[..|left| - 1], r1, r2);
      CountIsMultiplicity(r1, left[|left| - 1]);
      CountIsMultiplicity(r2, left[|left| - 1]);
    }
  }

  lemma {:induction false} SimilarityAddRight(left: seq<int>, right: seq<int>, x: int)
    ensures Similarity(left, right + [x]) == Similarity(left, right) + x * Count(left, x)
    decreases |left|
  {
    if left == [] {
    } else {
      var init, l := left[..|left| - 1], left[|left| - 1];
      SimilarityAddRight(init, right, x);
      assert (right + [x])[..|right + [x]| - 1] == right;
      var b := if l == x then 1 else 0;
      assert Count(right + [x], l) == Count(right, l) + b;
      assert Count(left, x) == Count(init, x) + b;
      SimilarityStep(Similarity(init, right), Count(init, x), Count(right, l), l, x, b);
    }
  }

  /** The arithmetic of one step of SimilarityAddRight. */
  lemma SimilarityStep(s: int, ci: int, cr: int, l: int, x: int, b: int)
    requires b == if l == x then 1 else 0
    ensures s + x * ci + l * (cr + b) == (s + l * cr) + x * (ci + b)
  {
    assert l * (cr + b) == l * cr + l * b;
    assert x * (ci + b) == x * ci + x * b;
  }

  lemma {:induction false} SimilarityEmptyRight(left: seq<int>)
    ensures Similarity(left, []) == 0
    decreases |left|
  {
    if left != [] {
      SimilarityEmptyRight(left[..|left| - 1]);
    }
  }

  /** Σ over left of l·#right(l) equals Σ over right of r·#left(r): both are Σ x·#left(x)·#right(x). */
  lemma {:induction false} SimilaritySymmetric(left: seq<int>, right: seq<int>)
    ensures Similarity(left, right) == Similarity(right, left)
    decreases |left|
  {
    if left == [] {
      SimilarityEmptyRight(right);
    } else {
      var init, l := left[..|left| - 1], left[|left| - 1];
      assert init + [l] == left;
      SimilaritySymmetric(init, right);
      SimilarityAddRight(right, init, l);
      assert Similarity(left, right) == Similarity(init, right) + l * Count(right, l);
      assert Similarity(right, left) == Similarity(right, init + [l]);
    }
  }

  /** The score does not depend on the order of either list, so sorting the
      left list before part 2 leaves it unchanged. */
  lemma SimilarityOrderFree(l1: seq<int>, l2: seq<int>, r1: seq<int>, r2: seq<int>)
    requires multiset(l1) == multiset(l2) && multiset(r1) == multiset(r2)
    ensures Similarity(l1, r1) == Similarity(l2, r2)
  {
    SimilarityRightMultiset(l1, r1, r2);
    SimilaritySymmetric(l1, r2);
    SimilarityRightMultiset(r2, l1, l2);
    SimilaritySymmetric(r2, l2);
  }

  /** Part 2 as the program computes it, on the lists sorted for part 1. */
  function SimilarityScore(left: seq<int>, right: seq<int>): (s: int)
    ensures s == Similarity(left, right)
  {
    SimilarityOrderFree(SortInts(left), left, SortInts(right), right);
    Similarity(SortInts(left), SortInts(right))
  }

  /** A left ID that never occurs on the right contributes nothing. */
  lemma {:induction false} SimilarityDisjoint(left: seq<int>, right: seq<int>)
    requires multiset(left) !! multiset(right)
    ensures Similarity(left, right) == 0
    decreases |left|
  {
    if left != [] {
      var init, l := left[..|left| - 1], left[|left| - 1];
      assert left == init + [l];
      assert multiset(init) <= multiset(left);
      SimilarityDisjoint(init, right);
      assert l in multiset(left);
      CountIsMultiplicity(right, l);
    }
  }
}
