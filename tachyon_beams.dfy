// A tachyon manifold: a beam enters at 'S' and moves down; a '.' lets it
// through and a splitter '^' sends it to the cells left and right of it.
// Part one marks the beams and counts the splits; part two counts the
// timelines, one per way down.

module TachyonBeams {
  import opened Basics

  type Grid = seq<seq<char>>

  predicate Rectangular<T>(g: seq<seq<T>>, w: nat) {
    forall i :: 0 <= i < |g| ==> |g[i]| == w
  }

  /** The width of a grid, read off its first row as the program does. */
  function Width(g: Grid): nat {
    if g == [] then 0 else |g[0]|
  }

  predicate IsGrid(g: Grid) {
    Rectangular(g, Width(g))
  }

  function RowOf(a: array2<char>, i: nat): (s: seq<char>)
    reads a
    requires i < a.Length0
    ensures |s| == a.Length1 && forall j :: 0 <= j < a.Length1 ==> s[j] == a[i, j]
  {
    seq(a.Length1, j reads a requires 0 <= j < a.Length1 => a[i, j])
  }

  /** The characters of the array, row by row. */
  function Contents(a: array2<char>): (g: Grid)
    reads a
    ensures |g| == a.Length0 && Rectangular(g, a.Length1)
    ensures forall i, j :: 0 <= i < a.Length0 && 0 <= j < a.Length1 ==> g[i][j] == a[i, j]
  {
    seq(a.Length0, i reads a requires 0 <= i < a.Length0 => RowOf(a, i))
  }

  lemma EqualGrids<T>(a: seq<seq<T>>, b: seq<seq<T>>, w: nat)
    requires |a| == |b| && Rectangular(a, w) && Rectangular(b, w)
    requires forall i, j :: 0 <= i < |a| && 0 <= j < w ==> a[i][j] == b[i][j]
    ensures a == b
  {
    forall i | 0 <= i < |a|
      ensures a[i] == b[i]
    {
      assert forall j :: 0 <= j < w ==> a[i][j] == b[i][j];
    }
  }

  /** Cell (x, y) comes before (row, col) in row-major order. */
  predicate Before(x: int, y: int, row: int, col: int) {
    x < row || (x == row && y < col)
  }

  // ---------------------------------------------------------------------------
  // task_1

  /** A beam is in the cell, or it is the beam's entry. */
  predicate Lit(c: char) {
    c == '|' || c == 'S'
  }

  function SetAt(g: Grid, r: nat, c: nat, ch: char): (h: Grid)
    requires r < |g| && c < |g[r]|
    ensures |h| == |g| && forall i :: 0 <= i < |g| ==> |h[i]| == |g[i]|
    ensures h[r][c] == ch
    ensures forall i, j :: 0 <= i < |g| && 0 <= j < |g[i]| && (i != r || j != c) ==> h[i][j] == g[i][j]
  {
    g[r := g[r][c := ch]]
  }

  /** The marked grid and the splits counted so far. */
  datatype Beams = Beams(grid: Grid, splits: nat)

  /** One visit of task_1's loop: a lit cell above a '.' lights it; above a
      splitter it lights the in-bounds cells on both sides and counts a split. */
  function Visit(b: Beams, w: nat, row: nat, col: nat): (r: Beams)
    requires Rectangular(b.grid, w) && 1 <= row < |b.grid| && col < w
    ensures |r.grid| == |b.grid| && Rectangular(r.grid, w)
  {
    var g := b.grid;
    if g[row][col] == '.' && Lit(g[row - 1][col]) then
      Beams(SetAt(g, row, col, '|'), b.splits)
    else if g[row][col] == '^' && Lit(g[row - 1][col]) then
      var left := if col > 0 then SetAt(g, row, col - 1, '|') else g;
      var right := if col < w - 1 then SetAt(left, row, col + 1, '|') else left;
      Beams(right, b.splits + 1)
    else b
  }

  predicate InTrace(g: Grid, row: nat, col: nat) {
    IsGrid(g) && 1 <= row <= |g| && col <= Width(g) && (row == |g| ==> col == 0)
  }

  /** The state after task_1 has visited the cells before (row, col), from row 1. */
  function Trace(g: Grid, row: nat, col: nat): (r: Beams)
    requires InTrace(g, row, col)
    ensures |r.grid| == |g| && Rectangular(r.grid, Width(g))
    decreases row, col
  {
    if col == 0 then (if row == 1 then Beams(g, 0) else Trace(g, row - 1, Width(g)))
    else Visit(Trace(g, row, col - 1), Width(g), row, col - 1)
  }

  /** What task_1 leaves in its copy of the grid, and the splits it returns. */
  function Marked(g: Grid): (r: Beams)
    requires IsGrid(g) && |g| >= 1
  {
    Trace(g, |g|, 0)
  }

  /** `b` is `a` with some cells turned into beams. */
  predicate Lights(a: Grid, b: Grid) {
    |a| == |b| && (forall i :: 0 <= i < |a| ==> |b[i]| == |a[i]|) &&
    forall i, j :: 0 <= i < |a| && 0 <= j < |a[i]| ==> b[i][j] == a[i][j] || b[i][j] == '|'
  }

  lemma LightsTransitive(a: Grid, b: Grid, c: Grid)
    requires Lights(a, b) && Lights(b, c)
    ensures Lights(a, c)
  {
  }

  /** A visit only writes beams, and only into its own row. */
  lemma VisitLights(b: Beams, w: nat, row: nat, col: nat)
    requires Rectangular(b.grid, w) && 1 <= row < |b.grid| && col < w
    ensures Lights(b.grid, Visit(b, w, row, col).grid)
    ensures forall i :: 0 <= i < |b.grid| && i != row ==> Visit(b, w, row, col).grid[i] == b.grid[i]
  {
  }

  /** The number of splitters among the cells of rows 1 on before (row, col). */
  function SplittersBefore(g: Grid, row: nat, col: nat): nat
    requires InTrace(g, row, col)
    decreases row, col
  {
    if col == 0 then (if row == 1 then 0 else SplittersBefore(g, row - 1, Width(g)))
    else SplittersBefore(g, row, col - 1) + (if g[row][col - 1] == '^' then 1 else 0)
  }

  /** task_1 only ever writes beams, and it counts at most one split per
      splitter it has passed. */
  lemma {:induction false} TraceBound(g: Grid, row: nat, col: nat)
    requires InTrace(g, row, col)
    ensures Lights(g, Trace(g, row, col).grid)
    ensures Trace(g, row, col).splits <= SplittersBefore(g, row, col)
    decreases row, col
  {
    if col == 0 {
      if row > 1 {
        TraceBound(g, row - 1, Width(g));
      }
    } else {
      var b := Trace(g, row, col - 1);
      TraceBound(g, row, col - 1);
      VisitLights(b, Width(g), row, col - 1);
      LightsTransitive(g, b.grid, Visit(b, Width(g), row, col - 1).grid);
    }
  }

  /** Every split task_1 counts is at a splitter of the input. */
  lemma SplitsAtMostSplitters(g: Grid)
    requires IsGrid(g) && |g| >= 1
    ensures Marked(g).splits <= SplittersBefore(g, |g|, 0)
    ensures Lights(g, Marked(g).grid)
  {
    TraceBound(g, |g|, 0);
  }

  lemma TraceStepLights(g: Grid, row: nat, col: nat)
    requires InTrace(g, row, col) && col > 0
    ensures Lights(Trace(g, row, col - 1).grid, Trace(g, row, col).grid)
  {
    VisitLights(Trace(g, row, col - 1), Width(g), row, col - 1);
  }

  lemma TraceStepRows(g: Grid, row: nat, col: nat)
    requires InTrace(g, row, col) && col > 0
    ensures forall i :: 0 <= i < row ==> Trace(g, row, col).grid[i] == Trace(g, row, col - 1).grid[i]
  {
    VisitLights(Trace(g, row, col - 1), Width(g), row, col - 1);
  }

  /** The state at (row2, col2) only adds beams to the state at (row, col). */
  lemma {:induction false} TraceSinceLights(g: Grid, row: nat, col: nat, row2: nat, col2: nat)
    requires InTrace(g, row, col) && InTrace(g, row2, col2)
    requires Before(row, col, row2, col2) || (row == row2 && col == col2)
    ensures Lights(Trace(g, row, col).grid, Trace(g, row2, col2).grid)
    decreases row2, col2
  {
    if row == row2 && col == col2 {
    } else if col2 == 0 {
      TraceSinceLights(g, row, col, row2 - 1, Width(g));
    } else {
      TraceSinceLights(g, row, col, row2, col2 - 1);
      TraceStepLights(g, row2, col2);
      LightsTransitive(Trace(g, row, col).grid, Trace(g, row2, col2 - 1).grid, Trace(g, row2, col2).grid);
    }
  }

  /** The rows above `row` are final once task_1 reaches (row, col). */
  lemma {:induction false} TraceSinceRows(g: Grid, row: nat, col: nat, row2: nat, col2: nat)
    requires InTrace(g, row, col) && InTrace(g, row2, col2)
    requires Before(row, col, row2, col2) || (row == row2 && col == col2)
    ensures forall i :: 0 <= i < row ==> Trace(g, row2, col2).grid[i] == Trace(g, row, col).grid[i]
    decreases row2, col2
  {
    if row == row2 && col == col2 {
    } else if col2 == 0 {
      TraceSinceRows(g, row, col, row2 - 1, Width(g));
    } else {
      TraceSinceRows(g, row, col, row2, col2 - 1);
      TraceStepRows(g, row2, col2);
    }
  }

  /** In the grid task_1 leaves, every '.' of the input below a beam or the
      entry carries a beam. */
  lemma BeamsPropagate(g: Grid, row: nat, col: nat)
    requires IsGrid(g) && 1 <= row < |g| && col < Width(g)
    requires g[row][col] == '.' && Lit(Marked(g).grid[row - 1][col])
    ensures Marked(g).grid[row][col] == '|'
  {
    var b := Trace(g, row, col);
    var after := Trace(g, row, col + 1);
    TraceBound(g, row, col);
    TraceSinceRows(g, row, col, |g|, 0);
    if col + 1 == Width(g) && row + 1 == |g| {
      assert after.grid == Trace(g, row + 1, 0).grid;
    }
    TraceSinceLights(g, row, col + 1, |g|, 0);
    assert b.grid[row - 1][col] == Marked(g).grid[row - 1][col];
  }

  /** Writes one cell of the array. */
  method SetCell(a: array2<char>, r: nat, c: nat, ch: char)
    requires r < a.Length0 && c < a.Length1
    modifies a
    ensures Contents(a) == SetAt(old(Contents(a)), r, c, ch)
  {
    ghost var g := Contents(a);
    a[r, c] := ch;
    EqualGrids(Contents(a), SetAt(g, r, c, ch), a.Length1);
  }

  /** One visit of task_1's loop on the copy; returns the splits it counts. */
  method VisitCell(copy: array2<char>, ghost b: Beams, row: nat, col: nat) returns (split: nat)
    requires 1 <= row < copy.Length0 && col < copy.Length1 && Contents(copy) == b.grid
    modifies copy
    ensures Contents(copy) == Visit(b, copy.Length1, row, col).grid
    ensures b.splits + split == Visit(b, copy.Length1, row, col).splits
  {
    var nCols := copy.Length1;
    split := 0;
    if copy[row, col] == '.' && (copy[row - 1, col] == '|' || copy[row - 1, col] == 'S') {
      SetCell(copy, row, col, '|');
    } else if copy[row, col] == '^' && (copy[row - 1, col] == '|' || copy[row - 1, col] == 'S') {
      if col > 0 {
        SetCell(copy, row, col - 1, '|');
      }
      if col < nCols - 1 {
        SetCell(copy, row, col + 1, '|');
      }
      split := 1;
    }
  }

  /** The copy and the count are task_1's state before (row, col). */
  predicate Traced(g: Grid, cur: Grid, splits: nat, row: nat, col: nat) {
    InTrace(g, row, col) && cur == Trace(g, row, col).grid && splits == Trace(g, row, col).splits
  }

  /** One row of task_1's loop. */
  method MarkRow(copy: array2<char>, ghost g: Grid, row: nat, splits: nat) returns (splitCount: nat)
    requires row < copy.Length0 && copy.Length1 == Width(g) && Traced(g, Contents(copy), splits, row, 0)
    modifies copy
    ensures Traced(g, Contents(copy), splitCount, row + 1, 0)
  {
    splitCount := splits;
    for col := 0 to copy.Length1
      invariant Traced(g, Contents(copy), splitCount, row, col)
    {
      ghost var b := Trace(g, row, col);
      var split := VisitCell(copy, b, row, col);
      splitCount := splitCount + split;
    }
  }

  /** task_1: marks the beams on a copy of the grid (the caller's grid is not
      changed) and returns the number of splits; None where the grid has no
      first row. */
  method Task1(grid: array2<char>) returns (r: Option<nat>)
    ensures r == if grid.Length0 == 0 then None else Some(Marked(Contents(grid)).splits)
  {
    if grid.Length0 == 0 {
      return None;
    }
    var nRows, nCols := grid.Length0, grid.Length1;
    var copy := new char[nRows, nCols]((i, j) reads grid requires 0 <= i < nRows && 0 <= j < nCols => grid[i, j]);
    ghost var g := Contents(grid);
    assert Contents(copy) == g by {
      EqualGrids(Contents(copy), g, nCols);
    }
    var splitCount := 0;
    for row := 1 to nRows
      invariant Traced(g, Contents(copy), splitCount, row, 0)
    {
      splitCount := MarkRow(copy, g, row, splitCount);
    }
    return Some(splitCount);
  }

  // ---------------------------------------------------------------------------
  // task_2

  /** Row 0 of the timeline counts: one at each entry. */
  function FirstRow(line: seq<char>): (r: seq<int>)
    ensures |r| == |line|
  {
    seq(|line|, c requires 0 <= c < |line| => if line[c] == 'S' then 1 else 0)
  }

  /** The timelines reaching cell c of a row: from straight above through a
      '.', and from above a splitter on either side. */
  function Arriving(prev: seq<int>, line: seq<char>, c: int): int
    requires |prev| == |line|
  {
    (if 0 <= c < |line| && line[c] == '.' then prev[c] else 0) +
    (if 0 < c <= |line| && line[c - 1] == '^' then prev[c - 1] else 0) +
    (if -1 <= c < |line| - 1 && line[c + 1] == '^' then prev[c + 1] else 0)
  }

  /** The next row of timeline counts. */
  function NextRow(prev: seq<int>, line: seq<char>): (r: seq<int>)
    requires |prev| == |line|
    ensures |r| == |line|
  {
    seq(|line|, c requires 0 <= c < |line| => Arriving(prev, line, c))
  }

  /** The timeline counts of row r. */
  function CountsRow(g: Grid, r: nat): (s: seq<int>)
    requires IsGrid(g) && r < |g|
    ensures |s| == Width(g)
  {
    if r == 0 then FirstRow(g[0]) else NextRow(CountsRow(g, r - 1), g[r])
  }

  /** What task_2 returns: the timelines that reach the last row. */
  function Timelines(g: Grid): int
    requires IsGrid(g) && |g| >= 1
  {
    Sum(CountsRow(g, |g| - 1))
  }

  lemma {:induction false} CountsNonNegative(g: Grid, r: nat)
    requires IsGrid(g) && r < |g|
    ensures forall c :: 0 <= c < Width(g) ==> CountsRow(g, r)[c] >= 0
  {
    if r > 0 {
      CountsNonNegative(g, r - 1);
    }
  }

  /** task_2's row loop after the columns before k: each column sends the
      count above it on. */
  function Scatter(prev: seq<int>, line: seq<char>, k: nat): (r: seq<int>)
    requires |prev| == |line| && k <= |line|
    ensures |r| == |line|
  {
    if k == 0 then seq(|line|, _ => 0)
    else
      var s := Scatter(prev, line, k - 1);
      var c := k - 1;
      if line[c] == '.' then s[c := s[c] + prev[c]]
      else if line[c] == '^' then
        var left := if c > 0 then s[c - 1 := s[c - 1] + prev[c]] else s;
        if c < |line| - 1 then left[c + 1 := left[c + 1] + prev[c]] else left
      else s
  }

  /** The scattered row holds the contributions of the columns before k. */
  lemma {:induction false} ScatterGathers(prev: seq<int>, line: seq<char>, k: nat, c: nat)
    requires |prev| == |line| && k <= |line| && c < |line|
    ensures Scatter(prev, line, k)[c] ==
      (if c < k && line[c] == '.' then prev[c] else 0) +
      (if 0 < c && c - 1 < k && line[c - 1] == '^' then prev[c - 1] else 0) +
      (if c + 1 < k && line[c + 1] == '^' then prev[c + 1] else 0)
  {
    if k > 0 {
      ScatterGathers(prev, line, k - 1, c);
    }
  }

  /** Sending each count on from its splitter gives the row NextRow gathers. */
  lemma ScatterIsNextRow(prev: seq<int>, line: seq<char>)
    requires |prev| == |line|
    ensures Scatter(prev, line, |line|) == NextRow(prev, line)
  {
    forall c | 0 <= c < |line|
      ensures Scatter(prev, line, |line|)[c] == NextRow(prev, line)[c]
    {
      ScatterGathers(prev, line, |line|, c);
    }
  }

  /** How many cells of the next row a timeline at column c feeds. */
  function Weight(line: seq<char>, c: nat): nat
    requires c < |line|
  {
    if line[c] == '.' then 1
    else if line[c] == '^' then (if c > 0 then 1 else 0) + (if c < |line| - 1 then 1 else 0)
    else 0
  }

  /** Σ prev[c] · Weight(line, c) over the columns before k. */
  function WeightedSum(prev: seq<int>, line: seq<char>, k: nat): int
    requires |prev| == |line| && k <= |line|
  {
    if k == 0 then 0 else WeightedSum(prev, line, k - 1) + prev[k - 1] * Weight(line, k - 1)
  }

  lemma {:induction false} SumAdd(s: seq<int>, i: nat, d: int)
    requires i < |s|
    ensures Sum(s[i := s[i] + d]) == Sum(s) + d
  {
    if i < |s| - 1 {
      assert s[i := s[i] + d][..|s| - 1] == s[..|s| - 1][i := s[i] + d];
      SumAdd(s[..|s| - 1], i, d);
    }
  }

  lemma {:induction false} SumZeros(n: nat)
    ensures Sum(seq(n, _ => 0)) == 0
  {
    if n > 0 {
      assert seq(n, _ => 0)[..n - 1] == seq(n - 1, _ => 0);
      SumZeros(n - 1);
    }
  }

  lemma ScatterStepSum(prev: seq<int>, line: seq<char>, k: nat)
    requires |prev| == |line| && 0 < k <= |line|
    ensures Sum(Scatter(prev, line, k)) == Sum(Scatter(prev, line, k - 1)) + prev[k - 1] * Weight(line, k - 1)
  {
    var s := Scatter(prev, line, k - 1);
    var c := k - 1;
    if line[c] == '.' {
      SumAdd(s, c, prev[c]);
    } else if line[c] == '^' {
      var left := if c > 0 then s[c - 1 := s[c - 1] + prev[c]] else s;
      if c > 0 {
        SumAdd(s, c - 1, prev[c]);
      }
      if c < |line| - 1 {
        SumAdd(left, c + 1, prev[c]);
      }
    }
  }

  /** Every timeline goes on into as many cells as its column feeds: straight
      down through a '.', into each in-bounds side at a splitter, and nowhere
      at any other cell. */
  lemma {:induction false} ScatterConserves(prev: seq<int>, line: seq<char>, k: nat)
    requires |prev| == |line| && k <= |line|
    ensures Sum(Scatter(prev, line, k)) == WeightedSum(prev, line, k)
  {
    if k == 0 {
      SumZeros(|line|);
    } else {
      ScatterConserves(prev, line, k - 1);
      ScatterStepSum(prev, line, k);
    }
  }

  /** The timelines of a row are those of the row above, each counted once
      per cell it goes on into. */
  lemma TimelinesStep(g: Grid, r: nat)
    requires IsGrid(g) && 0 < r < |g|
    ensures Sum(CountsRow(g, r)) == WeightedSum(CountsRow(g, r - 1), g[r], Width(g))
  {
    ScatterIsNextRow(CountsRow(g, r - 1), g[r]);
    ScatterConserves(CountsRow(g, r - 1), g[r], Width(g));
  }

  /** The rows before `row` hold their timeline counts, row `row` holds the
      columns before `col` scattered, and the rows below are still zero. */
  predicate Filled(g: Grid, p: seq<seq<int>>, row: nat, col: nat) {
    IsGrid(g) && 1 <= row < |g| && col <= Width(g) &&
    |p| == |g| && Rectangular(p, Width(g)) &&
    (forall r :: 0 <= r < row ==> p[r] == CountsRow(g, r)) &&
    p[row] == Scatter(p[row - 1], g[row], col) &&
    (forall r :: row < r < |g| ==> p[r] == seq(Width(g), _ => 0))
  }

  lemma FilledStart(g: Grid, p: seq<seq<int>>)
    requires IsGrid(g) && 1 < |g| && |p| == |g| && Rectangular(p, Width(g))
    requires p[0] == FirstRow(g[0]) && forall r :: 0 < r < |g| ==> p[r] == seq(Width(g), _ => 0)
    ensures Filled(g, p, 1, 0)
  {
  }

  lemma FilledNext(g: Grid, p: seq<seq<int>>, row: nat)
    requires Filled(g, p, row, Width(g)) && row + 1 < |g|
    ensures Filled(g, p, row + 1, 0)
  {
    ScatterIsNextRow(p[row - 1], g[row]);
  }

  lemma FilledLast(g: Grid, p: seq<seq<int>>)
    requires |g| >= 2 && Filled(g, p, |g| - 1, Width(g))
    ensures p[|g| - 1] == CountsRow(g, |g| - 1)
  {
    ScatterIsNextRow(p[|g| - 2], g[|g| - 1]);
  }

  /** One column of task_2's row loop. */
  lemma FilledStep(g: Grid, p: seq<seq<int>>, row: nat, col: nat, q: seq<int>)
    requires Filled(g, p, row, col) && col < Width(g)
    requires q == Scatter(p[row - 1], g[row], col + 1)
    ensures Filled(g, p[row := q], row + 0, col + 1)
  {
  }

  /** task_2's row 0: a one under every entry. */
  method StartRow(line: seq<char>) returns (r: seq<int>)
    ensures r == FirstRow(line)
  {
    r := seq(|line|, _ => 0);
    for col := 0 to |line|
      invariant |r| == |line|
      invariant forall c :: 0 <= c < |line| ==> r[c] == if c < col && line[c] == 'S' then 1 else 0
    {
      if line[col] == 'S' {
        r := r[col := 1];
      }
    }
  }

  /** One column of task_2's row loop: the count above goes on. */
  method ScatterColumn(cur: seq<int>, prev: seq<int>, line: seq<char>, col: nat) returns (r: seq<int>)
    requires |prev| == |line| && col < |line| && cur == Scatter(prev, line, col)
    ensures r == Scatter(prev, line, col + 1)
  {
    var nCols := |line|;
    var upperLevel := prev[col];
    r := cur;
    if line[col] == '.' {
      r := r[col := r[col] + upperLevel];
    } else if line[col] == '^' {
      if col > 0 {
        r := r[col - 1 := r[col - 1] + upperLevel];
      }
      if col < nCols - 1 {
        r := r[col + 1 := r[col + 1] + upperLevel];
      }
    }
  }

  /** The column loop of task_2 over one row. */
  method FillRow(grid: array2<char>, ghost g: Grid, p: seq<seq<int>>, row: nat) returns (q: seq<seq<int>>)
    requires g == Contents(grid) && row < grid.Length0 && Filled(g, p, row, 0)
    ensures Filled(g, q, row, Width(g))
  {
    assert g[row] == RowOf(grid, row);
    q := p;
    for col := 0 to grid.Length1
      invariant Filled(g, q, row, col)
    {
      var next := ScatterColumn(q[row], q[row - 1], RowOf(grid, row), col);
      FilledStep(g, q, row, col, next);
      q := q[row := next];
    }
  }

  /** task_2: the timeline counts row by row, then the sum of the last row;
      None where the grid has no first row. */
  method Task2(grid: array2<char>) returns (r: Option<int>)
    ensures r == if grid.Length0 == 0 then None else Some(Timelines(Contents(grid)))
  {
    if grid.Length0 == 0 {
      return None;
    }
    ghost var g := Contents(grid);
    var nRows, nCols := grid.Length0, grid.Length1;
    var possibilityGrid := seq(nRows, _ => seq(nCols, _ => 0));
    var top := StartRow(RowOf(grid, 0));
    possibilityGrid := possibilityGrid[0 := top];
    if nRows == 1 {
      return Some(Sum(possibilityGrid[0]));
    }
    FilledStart(g, possibilityGrid);
    for row := 1 to nRows
      invariant |possibilityGrid| == nRows
      invariant row < nRows ==> Filled(g, possibilityGrid, row, 0)
      invariant row == nRows ==> possibilityGrid[nRows - 1] == CountsRow(g, nRows - 1)
    {
      possibilityGrid := FillRow(grid, g, possibilityGrid, row);
      if row + 1 < nRows {
        FilledNext(g, possibilityGrid, row);
      } else {
        FilledLast(g, possibilityGrid);
      }
    }
    return Some(Sum(possibilityGrid[nRows - 1]));
  }
}
