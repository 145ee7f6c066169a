// Reactor safety reports: a report is safe when its levels change
// monotonically by 1 to 3 per step, and dampened-safe when it is safe or
// becomes safe after dropping one level (2024/day_02/main.py).

module Reports {
  import opened Basics

  /** `[b - a for a, b in zip(report[:-1], report[1:])]` */
  function Diffs(report: seq<int>): (d: seq<int>)
    ensures |d| == if report == [] then 0 else |report| - 1
    ensures forall i :: 0 <= i < |d| ==> d[i] == report[i + 1] - report[i]
  {
    if |report| <= 1 then [] else [report[1] - report[0]] + Diffs(report[1..])
  }

  /** Every step rises by 1, 2 or 3. */
  predicate Increasing(report: seq<int>) {
    forall i :: 0 <= i < |report| - 1 ==> 1 <= report[i + 1] - report[i] <= 3
  }

  /** Every step falls by 1, 2 or 3. */
  predicate Decreasing(report: seq<int>) {
    forall i :: 0 <= i < |report| - 1 ==> -3 <= report[i + 1] - report[i] <= -1
  }

  /** is_safe: reject any step larger than 3, then accept all-rising or all-falling steps. */
  predicate IsSafe(report: seq<int>) {
    var d := Diffs(report);
    if exists i :: 0 <= i < |d| && (d[i] > 3 || d[i] < -3) then false
    else if forall i :: 0 <= i < |d| ==> d[i] > 0 then true
    else if forall i :: 0 <= i < |d| ==> d[i] < 0 then true
    else false
  }

  lemma IsSafeIff(report: seq<int>)
    ensures IsSafe(report) <==> Increasing(report) || Decreasing(report)
  {
    var d := Diffs(report);
    if exists i :: 0 <= i < |d| && (d[i] > 3 || d[i] < -3) {
      var i :| 0 <= i < |d| && (d[i] > 3 || d[i] < -3);
      assert report[i + 1] - report[i] == d[i];
    } else if !(forall i :: 0 <= i < |d| ==> d[i] > 0) && !(forall i :: 0 <= i < |d| ==> d[i] < 0) {
      var i :| 0 <= i < |d| && d[i] <= 0;
      var j :| 0 <= j < |d| && d[j] >= 0;
      assert report[i + 1] - report[i] == d[i] && report[j + 1] - report[j] == d[j];
    }
  }

  lemma ShortReportSafe(report: seq<int>)
    requires |report| <= 1
    ensures IsSafe(report)
  {
  }

  /** Two equal adjacent levels make a report unsafe. */
  lemma RepeatedLevelUnsafe(report: seq<int>, i: nat)
    requires i + 1 < |report| && report[i] == report[i + 1]
    ensures !IsSafe(report)
  {
    IsSafeIff(report);
    assert !Increasing(report) && !Decreasing(report) by {
      assert report[i + 1] - report[i] == 0;
    }
  }

  /** Drop the level at idx: `report[:idx] + report[idx + 1:]`. */
  function Without(report: seq<int>, idx: nat): (r: seq<int>)
    requires idx < |report|
    ensures |r| == |report| - 1
    ensures forall k :: 0 <= k < |r| ==> r[k] == if k < idx then report[k] else report[k + 1]
  {
    report[..idx] + report[idx + 1..]
  }

  /** The problem dampener: safe as it is, or safe once one level is dropped. */
  predicate DampenedSafe(report: seq<int>) {
    IsSafe(report) || exists idx :: 0 <= idx < |report| && IsSafe(Without(report, idx))
  }

  lemma SafeIsDampenedSafe(report: seq<int>)
    requires IsSafe(report)
    ensures DampenedSafe(report)
  {
  }

  /** Dropping the first or the last level of a safe report keeps it safe, so
      for a non-empty report the first disjunct of the dampener is subsumed by the second. */
  lemma SafeWithoutEnds(report: seq<int>)
    requires IsSafe(report) && report != []
    ensures IsSafe(Without(report, 0)) && IsSafe(Without(report, |report| - 1))
  {
    var a, b := Without(report, 0), Without(report, |report| - 1);
    IsSafeIff(report);
    IsSafeIff(a);
    IsSafeIff(b);
    if Increasing(report) {
      assert Increasing(a) by {
        forall i | 0 <= i < |a| - 1 ensures 1 <= a[i + 1] - a[i] <= 3 {
          assert a[i + 1] - a[i] == report[i + 2] - report[i + 1];
        }
      }
      assert Increasing(b) by {
        forall i | 0 <= i < |b| - 1 ensures 1 <= b[i + 1] - b[i] <= 3 {
          assert b[i + 1] - b[i] == report[i + 1] - report[i];
        }
      }
    } else {
      assert Decreasing(a) by {
        forall i | 0 <= i < |a| - 1 ensures -3 <= a[i + 1] - a[i] <= -1 {
          assert a[i + 1] - a[i] == report[i + 2] - report[i + 1];
        }
      }
      assert Decreasing(b) by {
        forall i | 0 <= i < |b| - 1 ensures -3 <= b[i + 1] - b[i] <= -1 {
          assert b[i + 1] - b[i] == report[i + 1] - report[i];
        }
      }
    }
  }

  /** A single bad level at the end can be dampened away. */
  lemma DampenLastLevel(report: seq<int>)
    requires report != [] && IsSafe(report[..|report| - 1])
    ensures DampenedSafe(report)
  {
    assert Without(report, |report| - 1) == report[..|report| - 1];
  }

  /** Dropping a middle level can break a safe report: [1, 3, 5] is safe, [1, 5] is not. */
  lemma DroppingMiddleCanBreak()
    ensures IsSafe([1, 3, 5]) && !IsSafe(Without([1, 3, 5], 1))
  {
    var s, t := [1, 3, 5], [1, 5];
    assert Without(s, 1) == t;
    assert Increasing(s) by {
      forall i | 0 <= i < |s| - 1 ensures 1 <= s[i + 1] - s[i] <= 3 {
        assert i == 0 || i == 1;
      }
    }
    assert t[1] - t[0] == 4;
    IsSafeIff(s);
    IsSafeIff(t);
  }

  // ---------------------------------------------------------------------------
  // The counting loop

  /** `list(map(int, line.split()))`; None where `int` raises. */
  function ParseReport(line: string): (r: Option<seq<int>>)
    ensures r.Some? <==> AllNumbers(Split(line))
    ensures r.Some? ==> |r.value| == |Split(line)|
    ensures r.Some? ==> forall k :: 0 <= k < |r.value| ==> r.value[k] == DecimalValue(Split(line)[k])
  {
    ParseWords(Split(line))
  }

  predicate AllNumbers(ws: seq<string>) {
    forall k :: 0 <= k < |ws| ==> AllDigits(ws[k])
  }

  function ParseWords(ws: seq<string>): (r: Option<seq<int>>)
    ensures r.Some? <==> AllNumbers(ws)
    ensures r.Some? ==> |r.value| == |ws| && forall k :: 0 <= k < |ws| ==> r.value[k] == DecimalValue(ws[k])
  {
    if ws == [] then Some([])
    else if !AllDigits(ws[0]) then None
    else
      var rest := ParseWords(ws[1..]);
      if rest.None? then
        assert exists k :: 0 <= k < |ws| - 1 && !AllDigits(ws[1..][k]);
        None
      else Some([DecimalValue(ws[0]) as int] + rest.value)
  }

  /** The number of non-empty reports satisfying the test (`if not report: continue`). */
  function NumNonEmpty(reports: seq<seq<int>>): nat {
    if reports == [] then 0
    else NumNonEmpty(reports[..|reports| - 1]) + (if reports[|reports| - 1] != [] then 1 else 0)
  }

  function NumSafe(reports: seq<seq<int>>): (n: nat)
    ensures n <= NumNonEmpty(reports)
  {
    if reports == [] then 0
    else
      var r := reports[|reports| - 1];
      NumSafe(reports[..|reports| - 1]) + (if r != [] && IsSafe(r) then 1 else 0)
  }

  function NumDampenedSafe(reports: seq<seq<int>>): (n: nat)
    ensures n <= NumNonEmpty(reports)
  {
    if reports == [] then 0
    else
      var r := reports[|reports| - 1];
      NumDampenedSafe(reports[..|reports| - 1]) + (if r != [] && DampenedSafe(r) then 1 else 0)
  }

  /** The dampener never turns a safe report unsafe. */
  lemma {:induction false} SafeAtMostDampened(reports: seq<seq<int>>)
    ensures NumSafe(reports) <= NumDampenedSafe(reports)
    decreases |reports|
  {
    if reports != [] {
      SafeAtMostDampened(reports[..|reports| - 1]);
    }
  }

  /** The search `any(is_safe(report[:idx] + report[idx + 1:]) for idx in range(len(report)))`,
      from idx onwards. */
  function SomeDeletionSafe(report: seq<int>, idx: nat): (b: bool)
    requires idx <= |report|
    ensures b <==> exists j :: idx <= j < |report| && IsSafe(Without(report, j))
    decreases |report| - idx
  {
    if idx == |report| then false
    else IsSafe(Without(report, idx)) || SomeDeletionSafe(report, idx + 1)
  }

  lemma TallyStep(reports: seq<seq<int>>, i: nat)
    requires i < |reports|
    ensures var r := reports[i];
      && NumNonEmpty(reports[..i + 1]) == NumNonEmpty(reports[..i]) + (if r != [] then 1 else 0)
      && NumSafe(reports[..i + 1]) == NumSafe(reports[..i]) + (if r != [] && IsSafe(r) then 1 else 0)
      && NumDampenedSafe(reports[..i + 1]) == NumDampenedSafe(reports[..i]) + (if r != [] && DampenedSafe(r) then 1 else 0)
  {
    assert reports[..i + 1][..i] == reports[..i];
  }

  /** The main loop: four counters, one pass over the reports. */
  method Tally(reports: seq<seq<int>>) returns (safe: nat, unsafe: nat, dampenedSafe: nat, dampenedUnsafe: nat)
    ensures safe == NumSafe(reports) && dampenedSafe == NumDampenedSafe(reports)
    ensures safe + unsafe == NumNonEmpty(reports)
    ensures dampenedSafe + dampenedUnsafe == NumNonEmpty(reports)
    ensures safe <= dampenedSafe
  {
    safe, unsafe, dampenedSafe, dampenedUnsafe := 0, 0, 0, 0;
    var i := 0;
    while i < |reports|
      invariant 0 <= i <= |reports|
      invariant safe == NumSafe(reports[..i]) && dampenedSafe == NumDampenedSafe(reports[..i])
      invariant safe + unsafe == NumNonEmpty(reports[..i])
      invariant dampenedSafe + dampenedUnsafe == NumNonEmpty(reports[..i])
    {
      var report := reports[i];
      TallyStep(reports, i);
      if report != [] {
        if IsSafe(report) {
          safe := safe + 1;
        } else {
          unsafe := unsafe + 1;
        }
        if IsSafe(report) || SomeDeletionSafe(report, 0) {
          dampenedSafe := dampenedSafe + 1;
        } else {
          dampenedUnsafe := dampenedUnsafe + 1;
        }
      }
      i := i + 1;
    }
    assert reports[..i] == reports;
    SafeAtMostDampened(reports);
  }
}
