// Towel designs: a design (a string of stripe colours) can be made from the
// available towel patterns when it is a concatenation of patterns; part 1
// counts the possible designs, part 2 the number of ways to make each, with a
// memo shared across designs (2024/day_19/src/main.rs).

module Towels {
  import opened Basics

  /** `design.starts_with(pattern)` */
  predicate IsPrefix(p: string, d: string) {
    |p| <= |d| && d[..|p|] == p
  }

  /** The recursion is on `design[pattern.len()..]`, so it only terminates
      when no pattern is empty. */
  predicate AllNonEmpty(patterns: seq<string>) {
    forall k :: 0 <= k < |patterns| ==> patterns[k] != []
  }

  // ---------------------------------------------------------------------------
  // parse_file, over the lines of the file

  datatype Parsed = Parsed(patterns: seq<string>, designs: seq<string>) | MissingHeaders | MissingFormat

  function TrimAll(ws: seq<string>): (r: seq<string>)
    ensures |r| == |ws|
  {
    seq(|ws|, k requires 0 <= k < |ws| => Trim(ws[k]))
  }

  /** parse_file: the first line is split on ',' into trimmed patterns, the
      second is skipped whatever it holds, every later line is a trimmed design. */
  function ParseFile(lines: seq<string>): (r: Parsed)
    ensures r == MissingHeaders <==> lines == []
    ensures r == MissingFormat <==> |lines| == 1
    ensures r.Parsed? ==> |r.patterns| >= 1 && |r.designs| == |lines| - 2
  {
    if lines == [] then MissingHeaders
    else if |lines| == 1 then MissingFormat
    else Parsed(TrimAll(SplitOn(lines[0], ',')), TrimAll(lines[2..]))
  }

  predicate Trimmed(w: string) {
    w == [] || (!IsSpace(w[0]) && !IsSpace(w[|w| - 1]))
  }

  /** Reading back a file written as the patterns joined by ',', any second
      line, and the designs one per line gives the patterns and designs. */
  lemma ParseFileRoundTrip(patterns: seq<string>, blank: string, designs: seq<string>)
    requires |patterns| >= 1
    requires forall k :: 0 <= k < |patterns| ==> ',' !in patterns[k] && Trimmed(patterns[k])
    requires forall k :: 0 <= k < |designs| ==> Trimmed(designs[k])
    ensures ParseFile([Join(patterns, ",")] + [blank] + designs) == Parsed(patterns, designs)
  {
    var lines := [Join(patterns, ",")] + [blank] + designs;
    assert lines[0] == Join(patterns, [',']) && lines[2..] == designs;
    SplitOnJoin(patterns, ',');
    TrimAllTrimmed(patterns);
    TrimAllTrimmed(designs);
  }

  lemma TrimAllTrimmed(ws: seq<string>)
    requires forall k :: 0 <= k < |ws| ==> Trimmed(ws[k])
    ensures TrimAll(ws) == ws
  {
    forall k | 0 <= k < |ws| ensures TrimAll(ws)[k] == ws[k] {
      TrimTrimmed(ws[k]);
    }
  }

  // ---------------------------------------------------------------------------
  // has_towel_arrangement

  /** has_towel_arrangement */
  function Has(design: string, patterns: seq<string>): bool
    requires AllNonEmpty(patterns)
    decreases |design|, 1, 0
  {
    design == [] || HasUpTo(design, patterns, |patterns|)
  }

  /** The `any` over the first k patterns that are prefixes of the design. */
  function HasUpTo(design: string, patterns: seq<string>, k: nat): bool
    requires AllNonEmpty(patterns) && k <= |patterns|
    decreases |design|, 0, k
  {
    if k == 0 then false
    else
      var p := patterns[k - 1];
      HasUpTo(design, patterns, k - 1) || (IsPrefix(p, design) && Has(design[|p|..], patterns))
  }

  // ---------------------------------------------------------------------------
  // The reference meaning: a choice of patterns that spells the design

  predicate Indices(s: seq<nat>, patterns: seq<string>) {
    forall i :: 0 <= i < |s| ==> s[i] < |patterns|
  }

  /** The patterns at the chosen indices, laid end to end. */
  function Concat(s: seq<nat>, patterns: seq<string>): string
    requires Indices(s, patterns)
  {
    if s == [] then [] else patterns[s[0]] + Concat(s[1..], patterns)
  }

  predicate IsArrangement(s: seq<nat>, patterns: seq<string>, design: string) {
    Indices(s, patterns) && Concat(s, patterns) == design
  }

  /** A pattern that starts the design, followed by an arrangement of the rest. */
  lemma ArrangementCons(j: nat, s: seq<nat>, patterns: seq<string>, design: string)
    requires j < |patterns| && IsPrefix(patterns[j], design)
    requires IsArrangement(s, patterns, design[|patterns[j]|..])
    ensures IsArrangement([j] + s, patterns, design)
  {
    var t := [j] + s;
    assert t[1..] == s;
    assert design == design[..|patterns[j]|] + design[|patterns[j]|..];
  }

  /** Some k' < k gives a pattern that starts the design and leaves a possible rest. */
  lemma {:induction false} HasUpToWitness(design: string, patterns: seq<string>, k: nat) returns (j: nat)
    requires AllNonEmpty(patterns) && k <= |patterns| && HasUpTo(design, patterns, k)
    ensures j < k && IsPrefix(patterns[j], design) && Has(design[|patterns[j]|..], patterns)
    decreases k
  {
    if HasUpTo(design, patterns, k - 1) {
      j := HasUpToWitness(design, patterns, k - 1);
    } else {
      j := k - 1;
    }
  }

  lemma {:induction false} HasUpToFrom(design: string, patterns: seq<string>, k: nat, j: nat)
    requires AllNonEmpty(patterns) && j < k <= |patterns|
    requires IsPrefix(patterns[j], design) && Has(design[|patterns[j]|..], patterns)
    ensures HasUpTo(design, patterns, k)
    decreases k
  {
    if j < k - 1 {
      HasUpToFrom(design, patterns, k - 1, j);
    }
  }

  /** A possible design has an arrangement. */
  lemma {:induction false} HasArrangement(design: string, patterns: seq<string>) returns (s: seq<nat>)
    requires AllNonEmpty(patterns) && Has(design, patterns)
    ensures IsArrangement(s, patterns, design)
    decreases |design|
  {
    if design == [] {
      s := [];
    } else {
      var j := HasUpToWitness(design, patterns, |patterns|);
      var s' := HasArrangement(design[|patterns[j]|..], patterns);
      ArrangementCons(j, s', patterns, design);
      s := [j] + s';
    }
  }

  /** A design with an arrangement is possible. */
  lemma {:induction false} ArrangementHas(s: seq<nat>, patterns: seq<string>, design: string)
    requires AllNonEmpty(patterns) && IsArrangement(s, patterns, design)
    ensures Has(design, patterns)
    decreases |s|
  {
    if s != [] {
      var p := patterns[s[0]];
      var rest := Concat(s[1..], patterns);
      assert design == p + rest;
      assert design[..|p|] == p && design[|p|..] == rest;
      ArrangementHas(s[1..], patterns, rest);
      HasUpToFrom(design, patterns, |patterns|, s[0]);
    }
  }

  /** has_towel_arrangement holds exactly when some choice of patterns spells the design. */
  lemma HasIffArrangement(design: string, patterns: seq<string>)
    requires AllNonEmpty(patterns)
    ensures Has(design, patterns) <==> exists s :: IsArrangement(s, patterns, design)
  {
    if Has(design, patterns) {
      var s := HasArrangement(design, patterns);
    }
    if exists s :: IsArrangement(s, patterns, design) {
      var s :| IsArrangement(s, patterns, design);
      ArrangementHas(s, patterns, design);
    }
  }

  // ---------------------------------------------------------------------------
  // num_possible_towel_arrangements without the memo

  /** The number of arrangements, as the recursion counts them. */
  function Num(design: string, patterns: seq<string>): nat
    requires AllNonEmpty(patterns)
    decreases |design|, 1, 0
  {
    if design == [] then 1 else NumUpTo(design, patterns, |patterns|)
  }

  /** The `sum` over the first k patterns that are prefixes of the design. */
  function NumUpTo(design: string, patterns: seq<string>, k: nat): nat
    requires AllNonEmpty(patterns) && k <= |patterns|
    decreases |design|, 0, k
  {
    if k == 0 then 0
    else
      var p := patterns[k - 1];
      NumUpTo(design, patterns, k - 1) + (if IsPrefix(p, design) then Num(design[|p|..], patterns) else 0)
  }

  /** has(d) iff num(d) > 0. */
  lemma {:induction false} HasIffNum(design: string, patterns: seq<string>)
    requires AllNonEmpty(patterns)
    ensures Has(design, patterns) <==> Num(design, patterns) > 0
    decreases |design|, 1, 0
  {
    if design != [] {
      HasUpToIffNumUpTo(design, patterns, |patterns|);
    }
  }

  lemma {:induction false} HasUpToIffNumUpTo(design: string, patterns: seq<string>, k: nat)
    requires AllNonEmpty(patterns) && k <= |patterns|
    ensures HasUpTo(design, patterns, k) <==> NumUpTo(design, patterns, k) > 0
    decreases |design|, 0, k
  {
    if k > 0 {
      HasUpToIffNumUpTo(design, patterns, k - 1);
      var p := patterns[k - 1];
      if IsPrefix(p, design) {
        HasIffNum(design[|p|..], patterns);
      }
    }
  }

  // ---------------------------------------------------------------------------
  // What num counts: the arrangements, each exactly once

  /** The arrangements the recursion of num walks through, in its order. */
  function Arrangements(design: string, patterns: seq<string>): seq<seq<nat>>
    requires AllNonEmpty(patterns)
    decreases |design|, 1, 0
  {
    if design == [] then [[]] else ArrangementsUpTo(design, patterns, |patterns|)
  }

  function ArrangementsUpTo(design: string, patterns: seq<string>, k: nat): seq<seq<nat>>
    requires AllNonEmpty(patterns) && k <= |patterns|
    decreases |design|, 0, k
  {
    if k == 0 then []
    else
      var p := patterns[k - 1];
      ArrangementsUpTo(design, patterns, k - 1)
        + (if IsPrefix(p, design) then Prepend(k - 1, Arrangements(design[|p|..], patterns)) else [])
  }

  function Prepend(j: nat, ss: seq<seq<nat>>): (r: seq<seq<nat>>)
    ensures |r| == |ss| && forall i :: 0 <= i < |ss| ==> r[i] == [j] + ss[i]
  {
    seq(|ss|, i requires 0 <= i < |ss| => [j] + ss[i])
  }

  predicate Distinct(ss: seq<seq<nat>>) {
    forall i, j :: 0 <= i < j < |ss| ==> ss[i] != ss[j]
  }

  lemma {:induction false} ArrangementsLength(design: string, patterns: seq<string>)
    requires AllNonEmpty(patterns)
    ensures |Arrangements(design, patterns)| == Num(design, patterns)
    decreases |design|, 1, 0
  {
    if design != [] {
      ArrangementsUpToLength(design, patterns, |patterns|);
    }
  }

  lemma {:induction false} ArrangementsUpToLength(design: string, patterns: seq<string>, k: nat)
    requires AllNonEmpty(patterns) && k <= |patterns|
    ensures |ArrangementsUpTo(design, patterns, k)| == NumUpTo(design, patterns, k)
    decreases |design|, 0, k
  {
    if k > 0 {
      ArrangementsUpToLength(design, patterns, k - 1);
      var p := patterns[k - 1];
      if IsPrefix(p, design) {
        ArrangementsLength(design[|p|..], patterns);
      }
    }
  }

  lemma {:induction false} ArrangementsSound(design: string, patterns: seq<string>)
    requires AllNonEmpty(patterns)
    ensures forall i :: 0 <= i < |Arrangements(design, patterns)| ==>
      IsArrangement(Arrangements(design, patterns)[i], patterns, design)
    decreases |design|, 1, 0
  {
    if design != [] {
      ArrangementsUpToSound(design, patterns, |patterns|);
    }
  }

  lemma {:induction false} ArrangementsUpToSound(design: string, patterns: seq<string>, k: nat)
    requires AllNonEmpty(patterns) && k <= |patterns|
    ensures forall i :: 0 <= i < |ArrangementsUpTo(design, patterns, k)| ==>
      var s := ArrangementsUpTo(design, patterns, k)[i];
      IsArrangement(s, patterns, design) && s != [] && s[0] < k
    decreases |design|, 0, k
  {
    if k > 0 {
      ArrangementsUpToSound(design, patterns, k - 1);
      var p := patterns[k - 1];
      if IsPrefix(p, design) {
        var rest := Arrangements(design[|p|..], patterns);
        ArrangementsSound(design[|p|..], patterns);
        forall i | 0 <= i < |rest| ensures IsArrangement([k - 1] + rest[i], patterns, design) {
          ArrangementCons(k - 1, rest[i], patterns, design);
        }
      }
    }
  }

  /** Every arrangement of the design is among those num counts. */
  lemma {:induction false} ArrangementsComplete(s: seq<nat>, patterns: seq<string>, design: string)
    requires AllNonEmpty(patterns) && IsArrangement(s, patterns, design)
    ensures s in Arrangements(design, patterns)
    decreases |s|, 1, 0
  {
    if s != [] {
      assert design == patterns[s[0]] + Concat(s[1..], patterns);
      ArrangementsUpToComplete(s, patterns, design, |patterns|);
    }
  }

  lemma {:induction false} ArrangementsUpToComplete(s: seq<nat>, patterns: seq<string>, design: string, k: nat)
    requires AllNonEmpty(patterns) && k <= |patterns| && IsArrangement(s, patterns, design)
    requires s != [] && s[0] < k
    ensures s in ArrangementsUpTo(design, patterns, k)
    decreases |s|, 0, k
  {
    var p := patterns[k - 1];
    if s[0] == k - 1 {
      var rest := Concat(s[1..], patterns);
      assert design == p + rest;
      assert design[..|p|] == p && design[|p|..] == rest;
      ArrangementsComplete(s[1..], patterns, rest);
      var r := Arrangements(rest, patterns);
      var i :| 0 <= i < |r| && r[i] == s[1..];
      assert Prepend(k - 1, r)[i] == s;
    } else {
      ArrangementsUpToComplete(s, patterns, design, k - 1);
    }
  }

  /** No arrangement is counted twice. */
  lemma {:induction false} ArrangementsDistinct(design: string, patterns: seq<string>)
    requires AllNonEmpty(patterns)
    ensures Distinct(Arrangements(design, patterns))
    decreases |design|, 1, 0
  {
    if design != [] {
      ArrangementsUpToDistinct(design, patterns, |patterns|);
    }
  }

  lemma {:induction false} ArrangementsUpToDistinct(design: string, patterns: seq<string>, k: nat)
    requires AllNonEmpty(patterns) && k <= |patterns|
    ensures Distinct(ArrangementsUpTo(design, patterns, k))
    decreases |design|, 0, k
  {
    if k > 0 {
      var p := patterns[k - 1];
      var a := ArrangementsUpTo(design, patterns, k - 1);
      ArrangementsUpToDistinct(design, patterns, k - 1);
      if IsPrefix(p, design) {
        var rest := Arrangements(design[|p|..], patterns);
        ArrangementsDistinct(design[|p|..], patterns);
        ArrangementsUpToSound(design, patterns, k - 1);
        var b := Prepend(k - 1, rest);
        var ab: seq<seq<nat>> := a + b;
        assert ArrangementsUpTo(design, patterns, k) == ab;
        forall i: nat, j: nat | i < j < |ab| ensures ab[i] != ab[j] {
          if j < |a| {
            assert ab[i] == a[i] && ab[j] == a[j];
          } else if i < |a| {
            assert ab[i][0] < k - 1 && ab[j][0] == k - 1;
          } else {
            var x, y := rest[i - |a|], rest[j - |a|];
            assert ab[i] == [k - 1] + x && ab[j] == [k - 1] + y && x != y;
            assert ([k - 1] + x)[1..] == x && ([k - 1] + y)[1..] == y;
          }
        }
      } else {
        assert ArrangementsUpTo(design, patterns, k) == a + [];
      }
    }
  }

  /** num is the number of distinct ways to spell the design with patterns. */
  lemma NumCountsArrangements(design: string, patterns: seq<string>) returns (all: seq<seq<nat>>)
    requires AllNonEmpty(patterns)
    ensures |all| == Num(design, patterns) && Distinct(all)
    ensures forall s :: s in all <==> IsArrangement(s, patterns, design)
  {
    all := Arrangements(design, patterns);
    ArrangementsLength(design, patterns);
    ArrangementsDistinct(design, patterns);
    ArrangementsSound(design, patterns);
    forall s | IsArrangement(s, patterns, design) ensures s in all {
      ArrangementsComplete(s, patterns, design);
    }
  }

  // ---------------------------------------------------------------------------
  // num_possible_towel_arrangements with the memo

  /** The `memo` HashMap, shared by the calls for all designs. */
  class Memo {
    var entries: map<string, nat>

    constructor()
      ensures entries == map[]
    {
      entries := map[];
    }
  }

  /** Every memo entry is the memo-free count for its key. */
  predicate MemoSound(entries: map<string, nat>, patterns: seq<string>)
    requires AllNonEmpty(patterns)
  {
    forall d :: d in entries ==> entries[d] == Num(d, patterns)
  }

  /** num_possible_towel_arrangements: the memo only ever holds true counts, so
      the result is the memo-free count. */
  method NumPossibleTowelArrangements(design: string, patterns: seq<string>, memo: Memo) returns (result: nat)
    requires AllNonEmpty(patterns) && MemoSound(memo.entries, patterns)
    modifies memo
    ensures result == Num(design, patterns)
    ensures MemoSound(memo.entries, patterns)
    ensures old(memo.entries).Keys <= memo.entries.Keys
    ensures design != [] ==> design in memo.entries
    decreases |design|
  {
    if design == [] {
      return 1;
    }
    if design in memo.entries {
      return memo.entries[design];
    }
    result := 0;
    for k := 0 to |patterns|
      invariant result == NumUpTo(design, patterns, k)
      invariant MemoSound(memo.entries, patterns)
      invariant old(memo.entries).Keys <= memo.entries.Keys
    {
      var p := patterns[k];
      if IsPrefix(p, design) {
        var r := NumPossibleTowelArrangements(design[|p|..], patterns, memo);
        result := result + r;
      }
    }
    memo.entries := memo.entries[design := result];
  }

  // ---------------------------------------------------------------------------
  // challenge_1 / challenge_2

  /** challenge_1: the number of possible designs. */
  function NumPossible(designs: seq<string>, patterns: seq<string>): (n: nat)
    requires AllNonEmpty(patterns)
    ensures n <= |designs|
  {
    if designs == [] then 0
    else NumPossible(designs[..|designs| - 1], patterns) + (if Has(designs[|designs| - 1], patterns) then 1 else 0)
  }

  /** The memo-free answer of challenge_2: the arrangements of all designs. */
  function TotalArrangements(designs: seq<string>, patterns: seq<string>): nat
    requires AllNonEmpty(patterns)
  {
    if designs == [] then 0
    else TotalArrangements(designs[..|designs| - 1], patterns) + Num(designs[|designs| - 1], patterns)
  }

  /** A possible design has at least one arrangement, so challenge_1 never exceeds challenge_2. */
  lemma {:induction false} PossibleAtMostArrangements(designs: seq<string>, patterns: seq<string>)
    requires AllNonEmpty(patterns)
    ensures NumPossible(designs, patterns) <= TotalArrangements(designs, patterns)
    decreases |designs|
  {
    if designs != [] {
      PossibleAtMostArrangements(designs[..|designs| - 1], patterns);
      HasIffNum(designs[|designs| - 1], patterns);
    }
  }

  /** challenge_2: one memo for all designs, as the program does. */
  method Challenge2(designs: seq<string>, patterns: seq<string>) returns (total: nat)
    requires AllNonEmpty(patterns)
    ensures total == TotalArrangements(designs, patterns)
  {
    var memo := new Memo();
    total := 0;
    for i := 0 to |designs|
      invariant MemoSound(memo.entries, patterns)
      invariant total == TotalArrangements(designs[..i], patterns)
    {
      assert designs[..i + 1][..i] == designs[..i];
      var n := NumPossibleTowelArrangements(designs[i], patterns, memo);
      total := total + n;
    }
    assert designs[..|designs|] == designs;
  }
}
