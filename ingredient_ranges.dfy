// Fresh ingredient ids: the database lists inclusive id ranges "a-b" and
// then ingredient ids; task 1 counts the ids that fall in some range, task 2
// merges overlapping ranges until none overlap and adds up their sizes
// (2025/day_05/main.py).

module FreshIngredients {
  import opened Basics

  /** An inclusive range of ids, `(start, end)`. */
  type Range = (int, int)

  predicate Contains(r: Range, x: int) {
    r.0 <= x <= r.1
  }

  /** The test of merge_ranges: an end of one range lies inside the other. */
  predicate Overlap(a: Range, b: Range) {
    (a.0 <= b.0 <= a.1) || (a.0 <= b.1 <= a.1) || (b.0 <= a.0 <= b.1) || (b.0 <= a.1 <= b.1)
  }

  /** `(min(start, start2), max(end, end2))` */
  function Hull(a: Range, b: Range): (h: Range)
    ensures h.0 <= a.0 && h.0 <= b.0 && a.1 <= h.1 && b.1 <= h.1
  {
    (if a.0 <= b.0 then a.0 else b.0, if a.1 >= b.1 then a.1 else b.1)
  }

  /** Every range starts at or before its end. */
  predicate WellFormed(rs: seq<Range>) {
    forall k :: 0 <= k < |rs| ==> rs[k].0 <= rs[k].1
  }

  /** No two ranges of the list pass merge_ranges' test. */
  predicate NoOverlaps(rs: seq<Range>) {
    forall i, j :: 0 <= i < j < |rs| ==> !Overlap(rs[j], rs[i])
  }

  // ---------------------------------------------------------------------------
  // The ids covered

  function Interval(r: Range): set<int> {
    set x: int | r.0 <= x <= r.1 && Contains(r, x)
  }

  /** The ids some range of the list contains. */
  function Covered(rs: seq<Range>): set<int> {
    if rs == [] then {} else Covered(rs[..|rs| - 1]) + Interval(rs[|rs| - 1])
  }

  lemma {:induction false} CoveredMembers(rs: seq<Range>, x: int)
    ensures x in Covered(rs) <==> exists j :: 0 <= j < |rs| && Contains(rs[j], x)
    decreases |rs|
  {
    if rs != [] {
      var init := rs[..|rs| - 1];
      CoveredMembers(init, x);
      if exists j :: 0 <= j < |init| && Contains(init[j], x) {
        var j :| 0 <= j < |init| && Contains(init[j], x);
        assert rs[j] == init[j];
      }
      if exists j :: 0 <= j < |rs| && Contains(rs[j], x) {
        var j :| 0 <= j < |rs| && Contains(rs[j], x);
        if j < |init| {
          assert init[j] == rs[j];
        }
      }
    }
  }

  lemma IntervalCovered(rs: seq<Range>, i: nat)
    requires i < |rs|
    ensures Interval(rs[i]) <= Covered(rs)
  {
    forall x | x in Interval(rs[i]) ensures x in Covered(rs) {
      CoveredMembers(rs, x);
    }
  }

  lemma CoveredSnoc(rs: seq<Range>, r: Range)
    ensures Covered(rs + [r]) == Covered(rs) + Interval(r)
  {
    assert (rs + [r])[..|rs|] == rs;
  }

  /** Replacing a range by one that contains it adds the new range's ids. */
  lemma {:induction false} CoveredReplace(rs: seq<Range>, i: nat, q: Range)
    requires i < |rs| && Interval(rs[i]) <= Interval(q)
    ensures Covered(rs[i := q]) == Covered(rs) + Interval(q)
    decreases |rs|
  {
    var n := |rs| - 1;
    var init := rs[..n];
    if i == n {
      assert rs[i := q] == init + [q];
      CoveredSnoc(init, q);
    } else {
      CoveredReplace(init, i, q);
      assert rs[i := q] == init[i := q] + [rs[n]];
      CoveredSnoc(init[i := q], rs[n]);
    }
  }

  /** Two ranges that pass the test cover, together, exactly their hull. */
  lemma HullCovers(a: Range, b: Range)
    requires a.0 <= a.1 && b.0 <= b.1 && Overlap(a, b)
    ensures Interval(Hull(a, b)) == Interval(a) + Interval(b)
  {
    var h := Hull(a, b);
    forall x | Contains(h, x) ensures Contains(a, x) || Contains(b, x) {
    }
  }

  /** Ranges sharing an id pass the test. */
  lemma SharedOverlap(a: Range, b: Range, x: int)
    requires Contains(a, x) && Contains(b, x)
    ensures Overlap(a, b)
  {
  }

  // ---------------------------------------------------------------------------
  // Merging

  /** merge_ranges: each range is merged into the first earlier result it
      overlaps, or appended. The ids covered stay the same; the list
      shrinks exactly when some range was merged, which happens exactly
      when two ranges of the input overlap. */
  method MergeRanges(ranges: seq<Range>) returns (merged: seq<Range>, mergedAny: bool)
    ensures |merged| <= |ranges|
    ensures mergedAny ==> |merged| < |ranges|
    ensures !mergedAny ==> merged == ranges
    ensures mergedAny <==> !NoOverlaps(ranges)
    ensures WellFormed(ranges) ==> WellFormed(merged) && Covered(merged) == Covered(ranges)
  {
    merged := [];
    mergedAny := false;
    for k := 0 to |ranges|
      invariant |merged| <= k
      invariant mergedAny ==> |merged| < k && !NoOverlaps(ranges[..k])
      invariant !mergedAny ==> merged == ranges[..k] && NoOverlaps(ranges[..k])
      invariant WellFormed(ranges[..k]) ==> WellFormed(merged) && Covered(merged) == Covered(ranges[..k])
    {
      var r := ranges[k];
      assert ranges[..k + 1] == ranges[..k] + [r];
      ghost var before := merged;
      var found := false;
      var i := 0;
      while i < |merged|
        invariant 0 <= i <= |merged|
        invariant merged == before && !found
        invariant forall j :: 0 <= j < i ==> !Overlap(r, merged[j])
      {
        if Overlap(r, merged[i]) {
          merged := merged[i := Hull(r, merged[i])];
          found := true;
          mergedAny := true;
          break;
        }
        i := i + 1;
      }
      if found {
        Merged(ranges, k, before, i, r);
      } else {
        merged := merged + [r];
        Appended(ranges, k, before, r);
      }
    }
    assert ranges[..|ranges|] == ranges;
  }

  /** The bookkeeping of one merge into before[i]. */
  lemma Merged(ranges: seq<Range>, k: nat, before: seq<Range>, i: nat, r: Range)
    requires k < |ranges| && r == ranges[k] && i < |before| && Overlap(r, before[i])
    requires WellFormed(ranges[..k]) ==> WellFormed(before) && Covered(before) == Covered(ranges[..k])
    ensures WellFormed(ranges[..k + 1]) ==>
      WellFormed(before[i := Hull(r, before[i])]) &&
      Covered(before[i := Hull(r, before[i])]) == Covered(ranges[..k + 1])
    ensures NoOverlaps(before) && before == ranges[..k] ==> !NoOverlaps(ranges[..k + 1])
    ensures !NoOverlaps(ranges[..k]) ==> !NoOverlaps(ranges[..k + 1])
  {
    var p := ranges[..k + 1];
    assert p[..k] == ranges[..k] && p[k] == r;
    if WellFormed(p) {
      PrefixWellFormed(ranges, k);
      MergedCovers(ranges[..k], before, i, r);
    }
    if before == ranges[..k] {
      assert Overlap(p[k], p[i]);
    }
    OverlapsPersist(ranges, k);
  }

  lemma MergedCovers(prefix: seq<Range>, before: seq<Range>, i: nat, r: Range)
    requires i < |before| && Overlap(r, before[i]) && r.0 <= r.1
    requires WellFormed(before) && Covered(before) == Covered(prefix)
    ensures WellFormed(before[i := Hull(r, before[i])])
    ensures Covered(before[i := Hull(r, before[i])]) == Covered(prefix + [r])
  {
    HullCovers(r, before[i]);
    CoveredReplace(before, i, Hull(r, before[i]));
    CoveredSnoc(prefix, r);
    IntervalCovered(before, i);
  }

  lemma PrefixWellFormed(ranges: seq<Range>, k: nat)
    requires k < |ranges| && WellFormed(ranges[..k + 1])
    ensures WellFormed(ranges[..k]) && ranges[k].0 <= ranges[k].1
    ensures ranges[..k + 1] == ranges[..k] + [ranges[k]]
  {
    assert ranges[..k + 1][k] == ranges[k];
    forall j | 0 <= j < k ensures ranges[..k][j].0 <= ranges[..k][j].1 {
      assert ranges[..k][j] == ranges[..k + 1][j];
    }
  }

  /** A pair that overlaps stays in every longer prefix. */
  lemma OverlapsPersist(ranges: seq<Range>, k: nat)
    requires k < |ranges|
    ensures !NoOverlaps(ranges[..k]) ==> !NoOverlaps(ranges[..k + 1])
  {
    if !NoOverlaps(ranges[..k]) {
      var a, b :| 0 <= a < b < k && Overlap(ranges[..k][b], ranges[..k][a]);
      assert ranges[..k + 1][a] == ranges[..k][a] && ranges[..k + 1][b] == ranges[..k][b];
    }
  }

  /** The bookkeeping of one append, when r overlaps none of before. */
  lemma Appended(ranges: seq<Range>, k: nat, before: seq<Range>, r: Range)
    requires k < |ranges| && r == ranges[k]
    requires forall j :: 0 <= j < |before| ==> !Overlap(r, before[j])
    requires WellFormed(ranges[..k]) ==> WellFormed(before) && Covered(before) == Covered(ranges[..k])
    ensures WellFormed(ranges[..k + 1]) ==>
      WellFormed(before + [r]) && Covered(before + [r]) == Covered(ranges[..k + 1])
    ensures NoOverlaps(ranges[..k]) && before == ranges[..k] ==> NoOverlaps(ranges[..k + 1])
    ensures !NoOverlaps(ranges[..k]) ==> !NoOverlaps(ranges[..k + 1])
  {
    var p := ranges[..k + 1];
    assert p == ranges[..k] + [r];
    if WellFormed(p) {
      PrefixWellFormed(ranges, k);
      CoveredSnoc(before, r);
      CoveredSnoc(ranges[..k], r);
    }
    OverlapsPersist(ranges, k);
  }

  /** merge_ranges_recursive: merge until a pass merges nothing. The result
      covers the same ids as the input and no two of its ranges overlap; a
      list without overlaps comes back unchanged. */
  method MergeRangesRecursive(ranges: seq<Range>) returns (result: seq<Range>)
    ensures |result| <= |ranges|
    ensures NoOverlaps(result)
    ensures NoOverlaps(ranges) ==> result == ranges
    ensures WellFormed(ranges) ==> WellFormed(result) && Covered(result) == Covered(ranges)
    decreases |ranges|
  {
    var merged, mergedAny := MergeRanges(ranges);
    if mergedAny {
      merged := MergeRangesRecursive(merged);
    }
    result := merged;
  }

  // ---------------------------------------------------------------------------
  // The tasks

  /** The number of ingredients that are among the ids. */
  function CountIn(ingredients: seq<int>, ids: set<int>): (n: nat)
    ensures n <= |ingredients|
  {
    if ingredients == [] then 0
    else CountIn(ingredients[..|ingredients| - 1], ids) + (if ingredients[|ingredients| - 1] in ids then 1 else 0)
  }

  /** task_1: each ingredient counts once when some range contains it. */
  method Task1(ranges: seq<Range>, ingredients: seq<int>) returns (counter: nat)
    ensures counter == CountIn(ingredients, Covered(ranges))
    ensures counter <= |ingredients|
  {
    counter := 0;
    for k := 0 to |ingredients|
      invariant counter == CountIn(ingredients[..k], Covered(ranges))
    {
      var ingredient := ingredients[k];
      assert ingredients[..k + 1][..k] == ingredients[..k];
      var j := 0;
      while j < |ranges|
        invariant 0 <= j <= |ranges|
        invariant forall j' :: 0 <= j' < j ==> !Contains(ranges[j'], ingredient)
      {
        if ranges[j].0 <= ingredient <= ranges[j].1 {
          CoveredMembers(ranges, ingredient);
          counter := counter + 1;
          break;
        }
        j := j + 1;
      }
      CoveredMembers(ranges, ingredient);
    }
    assert ingredients[..|ingredients|] == ingredients;
  }

  /** The sizes `end - start + 1` of the ranges, added up. */
  function TotalSize(rs: seq<Range>): int {
    if rs == [] then 0 else TotalSize(rs[..|rs| - 1]) + (rs[|rs| - 1].1 - rs[|rs| - 1].0 + 1)
  }

  lemma {:induction false} IntervalSize(r: Range)
    requires r.0 <= r.1
    ensures |Interval(r)| == r.1 - r.0 + 1
    decreases r.1 - r.0
  {
    if r.0 == r.1 {
      assert Interval(r) == {r.0};
    } else {
      var r' := (r.0, r.1 - 1);
      IntervalSize(r');
      assert Interval(r) == Interval(r') + {r.1};
    }
  }

  /** For ranges no two of which overlap, the sizes add up to the number of
      ids covered. */
  lemma {:induction false} TotalSizeDisjoint(rs: seq<Range>)
    requires WellFormed(rs) && NoOverlaps(rs)
    ensures TotalSize(rs) == |Covered(rs)|
    decreases |rs|
  {
    if rs != [] {
      var n := |rs| - 1;
      var init, last := rs[..n], rs[n];
      assert WellFormed(init) && NoOverlaps(init) by {
        forall i | 0 <= i < n ensures init[i] == rs[i] {}
      }
      TotalSizeDisjoint(init);
      IntervalSize(last);
      forall x | x in Covered(init) ensures x !in Interval(last) {
        CoveredMembers(init, x);
        var j :| 0 <= j < n && Contains(init[j], x);
        assert init[j] == rs[j];
        if Contains(last, x) {
          SharedOverlap(last, init[j], x);
        }
      }
      assert Covered(init) * Interval(last) == {};
    }
  }

  /** task_2: the ranges merged, then their sizes added up; for well-formed
      ranges this is the number of ids some range contains. */
  method Task2(ranges: seq<Range>) returns (totalSize: int)
    ensures WellFormed(ranges) ==> totalSize == |Covered(ranges)|
  {
    var merged := MergeRangesRecursive(ranges);
    totalSize := 0;
    for k := 0 to |merged|
      invariant totalSize == TotalSize(merged[..k])
    {
      assert merged[..k + 1][..k] == merged[..k];
      totalSize := totalSize + (merged[k].1 - merged[k].0 + 1);
    }
    assert merged[..|merged|] == merged;
    if WellFormed(ranges) {
      TotalSizeDisjoint(merged);
    }
  }

  /** Without the merging, overlapping ranges would count shared ids twice:
      the plain sum of sizes is never below the number of ids covered. */
  lemma {:induction false} TotalSizeAtLeastCovered(rs: seq<Range>)
    requires WellFormed(rs)
    ensures TotalSize(rs) >= |Covered(rs)|
    decreases |rs|
  {
    if rs != [] {
      var n := |rs| - 1;
      assert WellFormed(rs[..n]) by {
        forall i | 0 <= i < n ensures rs[..n][i] == rs[i] {}
      }
      TotalSizeAtLeastCovered(rs[..n]);
      IntervalSize(rs[n]);
    }
  }

  // ---------------------------------------------------------------------------
  // Reading the database

  /** One line "a-b" of parse_ranges: exactly two fields, both numbers
      (None where the unpacking into `start, end` or `int` fails). */
  function ParseRange(line: string): (r: Option<Range>)
    ensures r.Some? <==> (|SplitOn(line, '-')| == 2 && ParseNat(SplitOn(line, '-')[0]).Some? &&
      ParseNat(SplitOn(line, '-')[1]).Some?)
  {
    var fields := SplitOn(line, '-');
    if |fields| != 2 then None
    else
      var a, b := ParseNat(fields[0]), ParseNat(fields[1]);
      if a.Some? && b.Some? then Some((a.value as int, b.value as int)) else None
  }

  /** A range written as "a-b" reads back as itself. */
  lemma ParseRangeRendered(a: nat, b: nat)
    ensures ParseRange(Decimal(a) + "-" + Decimal(b)) == Some((a as int, b as int))
  {
    var da, db := Decimal(a), Decimal(b);
    assert '-' !in da && '-' !in db by {
      forall k | 0 <= k < |da| ensures da[k] != '-' { assert IsDigit(da[k]); }
      forall k | 0 <= k < |db| ensures db[k] != '-' { assert IsDigit(db[k]); }
    }
    assert Join([da, db], "-") == da + "-" + db;
    SplitOnJoin([da, db], '-');
    DecimalRoundTrip(a);
    DecimalRoundTrip(b);
  }

  function NonEmpty(lines: seq<string>): (r: seq<string>)
    ensures forall l :: l in r ==> l in lines && l != []
    ensures forall k :: 0 <= k < |lines| && lines[k] != [] ==> lines[k] in r
  {
    if lines == [] then []
    else
      var rest := NonEmpty(lines[..|lines| - 1]);
      var l := lines[|lines| - 1];
      if l != [] then rest + [l] else rest
  }

  /** Filtering keeps the order: the non-empty lines of a + b are those of a, then
      those of b. */
  lemma {:induction false} NonEmptyAppend(a: seq<string>, b: seq<string>)
    ensures NonEmpty(a + b) == NonEmpty(a) + NonEmpty(b)
    decreases |b|
  {
    if b == [] {
      assert a + b == a;
    } else {
      var init := b[..|b| - 1];
      assert (a + b)[..|a + b| - 1] == a + init;
      NonEmptyAppend(a, init);
    }
  }

  /** parse_ranges: the non-empty lines of the ranges section. */
  function ParseRanges(section: string): Option<seq<Range>> {
    ReadAll(ParseRange, NonEmpty(SplitOn(section, '\n')))
  }

  /** parse_ingredients: every line of the ingredients section is an id. */
  function ParseIngredients(section: string): Option<seq<nat>> {
    ReadAll(ParseNat, SplitOn(section, '\n'))
  }
}
