// A grid of paper rolls ('@') and empty floor ('.'): the number of occupied
// cells around each cell, the rolls a forklift can reach (fewer than four
// occupied neighbours), and the repeated removal of reachable rolls until
// none is left.

module PaperRolls {
  import opened Basics

  type Grid = seq<seq<char>>

  predicate Rectangular<T>(g: seq<seq<T>>, w: nat) {
    forall i :: 0 <= i < |g| ==> |g[i]| == w
  }

  /** The width of a grid, read off its first row as the program does. */
  function Width(g: Grid): nat {
    if g == [] then 0 else |g[0]|
  }

  predicate IsGrid(g: Grid) {
    Rectangular(g, Width(g))
  }

  /** Row i of a two-dimensional array. */
  function RowOf(a: array2<char>, i: nat): (s: seq<char>)
    reads a
    requires i < a.Length0
    ensures |s| == a.Length1 && forall j :: 0 <= j < a.Length1 ==> s[j] == a[i, j]
  {
    seq(a.Length1, j reads a requires 0 <= j < a.Length1 => a[i, j])
  }

  /** The characters of the array, row by row. */
  function Contents(a: array2<char>): (g: Grid)
    reads a
    ensures |g| == a.Length0 && Rectangular(g, a.Length1)
    ensures forall i, j :: 0 <= i < a.Length0 && 0 <= j < a.Length1 ==> g[i][j] == a[i, j]
  {
    seq(a.Length0, i reads a requires 0 <= i < a.Length0 => RowOf(a, i))
  }

  lemma EqualGrids<T>(a: seq<seq<T>>, b: seq<seq<T>>, w: nat)
    requires |a| == |b| && Rectangular(a, w) && Rectangular(b, w)
    requires forall i, j :: 0 <= i < |a| && 0 <= j < w ==> a[i][j] == b[i][j]
    ensures a == b
  {
    forall i | 0 <= i < |a|
      ensures a[i] == b[i]
    {
      assert forall j :: 0 <= j < w ==> a[i][j] == b[i][j];
    }
  }

  // ---------------------------------------------------------------------------
  // Neighbour counts

  /** (x, y) is one of the eight cells around (i, j). */
  predicate Near(i: int, j: int, x: int, y: int) {
    i - 1 <= x <= i + 1 && j - 1 <= y <= j + 1 && (x != i || y != j)
  }

  /** 1 when (x, y) is on the grid and holds something other than '.'. */
  function Occ(g: Grid, x: int, y: int): nat {
    if 0 <= x < |g| && 0 <= y < |g[x]| && g[x][y] != '.' then 1 else 0
  }

  /** The number of occupied cells among the eight around (i, j). */
  function NeighborCount(g: Grid, i: int, j: int): nat {
    Occ(g, i - 1, j - 1) + Occ(g, i - 1, j) + Occ(g, i - 1, j + 1) +
    Occ(g, i, j - 1) + Occ(g, i, j + 1) +
    Occ(g, i + 1, j - 1) + Occ(g, i + 1, j) + Occ(g, i + 1, j + 1)
  }

  function NeighborRow(g: Grid, i: nat): (r: seq<int>)
    requires i < |g|
    ensures |r| == |g[i]| && forall j :: 0 <= j < |g[i]| ==> r[j] == NeighborCount(g, i, j)
  {
    seq(|g[i]|, j => NeighborCount(g, i, j))
  }

  /** The neighbour count of every cell. */
  function NeighborCounts(g: Grid): (r: seq<seq<int>>)
    ensures |r| == |g| && forall i :: 0 <= i < |g| ==> r[i] == NeighborRow(g, i)
  {
    seq(|g|, i requires 0 <= i < |g| => NeighborRow(g, i))
  }

  /** Cell (x, y) comes before (row, col) in row-major order. */
  predicate Before(x: int, y: int, row: int, col: int) {
    x < row || (x == row && y < col)
  }

  function OccBefore(g: Grid, x: int, y: int, row: int, col: int): nat {
    if Before(x, y, row, col) then Occ(g, x, y) else 0
  }

  /** The neighbour count of (i, j) contributed by the cells before (row, col). */
  function CountBefore(g: Grid, i: int, j: int, row: int, col: int): nat {
    OccBefore(g, i - 1, j - 1, row, col) + OccBefore(g, i - 1, j, row, col) +
    OccBefore(g, i - 1, j + 1, row, col) + OccBefore(g, i, j - 1, row, col) +
    OccBefore(g, i, j + 1, row, col) + OccBefore(g, i + 1, j - 1, row, col) +
    OccBefore(g, i + 1, j, row, col) + OccBefore(g, i + 1, j + 1, row, col)
  }

  lemma OccBeforeStep(g: Grid, x: int, y: int, row: int, col: int)
    ensures OccBefore(g, x, y, row, col + 1) ==
      OccBefore(g, x, y, row, col) + (if x == row && y == col then Occ(g, x, y) else 0)
  {
  }

  /** Visiting (row, col) adds its occupant to each of its eight neighbours. */
  lemma CountBeforeStep(g: Grid, i: int, j: int, row: int, col: int)
    ensures CountBefore(g, i, j, row, col + 1) ==
      CountBefore(g, i, j, row, col) + (if Near(i, j, row, col) then Occ(g, row, col) else 0)
  {
    OccBeforeStep(g, i - 1, j - 1, row, col);
    OccBeforeStep(g, i - 1, j, row, col);
    OccBeforeStep(g, i - 1, j + 1, row, col);
    OccBeforeStep(g, i, j - 1, row, col);
    OccBeforeStep(g, i, j + 1, row, col);
    OccBeforeStep(g, i + 1, j - 1, row, col);
    OccBeforeStep(g, i + 1, j, row, col);
    OccBeforeStep(g, i + 1, j + 1, row, col);
  }

  /** The end of a row is the start of the next one. */
  lemma CountBeforeRowEnd(g: Grid, i: int, j: int, row: int)
    requires IsGrid(g)
    ensures CountBefore(g, i, j, row, Width(g)) == CountBefore(g, i, j, row + 1, 0)
  {
  }

  /** Before the first cell nothing is counted; after the last, everything. */
  lemma CountBeforeEnds(g: Grid, i: int, j: int)
    ensures CountBefore(g, i, j, 0, 0) == 0
    ensures CountBefore(g, i, j, |g|, 0) == NeighborCount(g, i, j)
  {
  }

  // ---------------------------------------------------------------------------
  // The loop over the eight offsets

  /** counts with delta added around (row, col). */
  function BumpRow(counts: seq<seq<int>>, i: nat, row: int, col: int, delta: int): (r: seq<int>)
    requires i < |counts|
    ensures |r| == |counts[i]|
  {
    seq(|counts[i]|, j requires 0 <= j < |counts[i]| =>
      counts[i][j] + (if Near(i, j, row, col) then delta else 0))
  }

  function Bump(counts: seq<seq<int>>, row: int, col: int, delta: int): (r: seq<seq<int>>)
    ensures |r| == |counts| && forall i :: 0 <= i < |r| ==> r[i] == BumpRow(counts, i, row, col, delta)
  {
    seq(|counts|, i requires 0 <= i < |counts| => BumpRow(counts, i, row, col, delta))
  }

  /** The offset (dr, dc) is handled before (ro, co). */
  predicate Done(dr: int, dc: int, ro: int, co: int) {
    dr < ro || (dr == ro && dc < co)
  }

  /** The offset loops have added delta to the neighbours handled so far. */
  predicate Spreading(before: seq<seq<int>>, now: seq<seq<int>>, w: nat,
                      row: int, col: int, delta: int, ro: int, co: int) {
    |now| == |before| && Rectangular(before, w) && Rectangular(now, w) &&
    forall i, j :: 0 <= i < |now| && 0 <= j < w ==>
      now[i][j] == before[i][j] + (if Near(i, j, row, col) && Done(i - row, j - col, ro, co) then delta else 0)
  }

  lemma SpreadHit(before: seq<seq<int>>, now: seq<seq<int>>, w: nat,
                  row: int, col: int, delta: int, ro: int, co: int)
    requires Spreading(before, now, w, row, col, delta, ro, co)
    requires -1 <= ro <= 1 && -1 <= co <= 1 && (ro != 0 || co != 0)
    requires 0 <= row + ro < |now| && 0 <= col + co < w
    ensures Spreading(before, now[row + ro := now[row + ro][col + co := now[row + ro][col + co] + delta]],
                      w, row, col, delta, ro, co + 1)
  {
  }

  lemma SpreadMiss(before: seq<seq<int>>, now: seq<seq<int>>, w: nat,
                   row: int, col: int, delta: int, ro: int, co: int)
    requires Spreading(before, now, w, row, col, delta, ro, co)
    requires !(0 <= row + ro < |now| && 0 <= col + co < w) || (ro == 0 && co == 0)
    ensures Spreading(before, now, w, row, col, delta, ro, co + 1)
  {
  }

  lemma SpreadRowDone(before: seq<seq<int>>, now: seq<seq<int>>, w: nat,
                      row: int, col: int, delta: int, ro: int, co: int)
    requires Spreading(before, now, w, row, col, delta, ro, co)
    requires co == 2 || !(0 <= row + ro < |now|)
    ensures Spreading(before, now, w, row, col, delta, ro + 1, -1)
  {
  }

  /** Adds delta to the neighbour count of each in-bounds cell around (row, col). */
  method Spread(counts: seq<seq<int>>, nRows: nat, nCols: nat, row: nat, col: nat, delta: int)
    returns (r: seq<seq<int>>)
    requires |counts| == nRows && Rectangular(counts, nCols)
    ensures r == Bump(counts, row, col, delta)
  {
    r := counts;
    for rowOffset := -1 to 2
      invariant Spreading(counts, r, nCols, row, col, delta, rowOffset, -1)
    {
      if row + rowOffset < 0 || row + rowOffset >= nRows {
        SpreadRowDone(counts, r, nCols, row, col, delta, rowOffset, -1);
        continue;
      }
      for colOffset := -1 to 2
        invariant Spreading(counts, r, nCols, row, col, delta, rowOffset, colOffset)
      {
        if col + colOffset < 0 || col + colOffset >= nCols || (rowOffset == 0 && colOffset == 0) {
          SpreadMiss(counts, r, nCols, row, col, delta, rowOffset, colOffset);
          continue;
        }
        SpreadHit(counts, r, nCols, row, col, delta, rowOffset, colOffset);
        r := r[row + rowOffset := r[row + rowOffset][col + colOffset := r[row + rowOffset][col + colOffset] + delta]];
      }
      SpreadRowDone(counts, r, nCols, row, col, delta, rowOffset, 2);
    }
    EqualGrids(r, Bump(counts, row, col, delta), nCols);
  }

  // ---------------------------------------------------------------------------
  // get_neighbor_counts

  /** After the cells before (row, col), every count holds the contributions
      of exactly those cells. */
  predicate Counted(g: Grid, counts: seq<seq<int>>, row: int, col: int) {
    |counts| == |g| && Rectangular(counts, Width(g)) &&
    forall i, j :: 0 <= i < |g| && 0 <= j < Width(g) ==> counts[i][j] == CountBefore(g, i, j, row, col)
  }

  lemma CountedStart(g: Grid, counts: seq<seq<int>>)
    requires |counts| == |g| && Rectangular(counts, Width(g))
    requires forall i, j :: 0 <= i < |g| && 0 <= j < Width(g) ==> counts[i][j] == 0
    ensures Counted(g, counts, 0, 0)
  {
    forall i, j | 0 <= i < |g| && 0 <= j < Width(g)
      ensures counts[i][j] == CountBefore(g, i, j, 0, 0)
    {
      CountBeforeEnds(g, i, j);
    }
  }

  lemma CountedVisit(g: Grid, counts: seq<seq<int>>, row: int, col: int)
    requires Counted(g, counts, row, col)
    ensures Counted(g, Bump(counts, row, col, Occ(g, row, col)), row, col + 1)
  {
    var next := Bump(counts, row, col, Occ(g, row, col));
    forall i, j | 0 <= i < |g| && 0 <= j < Width(g)
      ensures next[i][j] == CountBefore(g, i, j, row, col + 1)
    {
      CountBeforeStep(g, i, j, row, col);
    }
  }

  lemma CountedBlank(g: Grid, counts: seq<seq<int>>, row: int, col: int)
    requires Counted(g, counts, row, col) && Occ(g, row, col) == 0
    ensures Counted(g, counts, row, col + 1)
  {
    forall i, j | 0 <= i < |g| && 0 <= j < Width(g)
      ensures counts[i][j] == CountBefore(g, i, j, row, col + 1)
    {
      CountBeforeStep(g, i, j, row, col);
    }
  }

  lemma CountedRowEnd(g: Grid, counts: seq<seq<int>>, row: int)
    requires IsGrid(g) && Counted(g, counts, row, Width(g))
    ensures Counted(g, counts, row + 1, 0)
  {
    forall i, j | 0 <= i < |g| && 0 <= j < Width(g)
      ensures counts[i][j] == CountBefore(g, i, j, row + 1, 0)
    {
      CountBeforeRowEnd(g, i, j, row);
    }
  }

  lemma CountedAll(g: Grid, counts: seq<seq<int>>)
    requires IsGrid(g) && Counted(g, counts, |g|, 0)
    ensures counts == NeighborCounts(g)
  {
    forall i, j | 0 <= i < |g| && 0 <= j < Width(g)
      ensures counts[i][j] == NeighborCounts(g)[i][j]
    {
      CountBeforeEnds(g, i, j);
    }
    EqualGrids(counts, NeighborCounts(g), Width(g));
  }

  /** get_neighbor_counts: every occupied cell adds one to each of its
      in-bounds neighbours; None where the grid has no first row. */
  method GetNeighborCounts(grid: array2<char>) returns (r: Option<seq<seq<int>>>)
    ensures r == if grid.Length0 == 0 then None else Some(NeighborCounts(Contents(grid)))
  {
    if grid.Length0 == 0 {
      return None;
    }
    ghost var g := Contents(grid);
    var nRows, nCols := grid.Length0, grid.Length1;
    var counts := seq(nRows, _ => seq(nCols, _ => 0));
    CountedStart(g, counts);
    for row := 0 to nRows
      invariant Counted(g, counts, row, 0)
    {
      for col := 0 to nCols
        invariant Counted(g, counts, row, col)
      {
        if grid[row, col] == '.' {
          CountedBlank(g, counts, row, col);
          continue;
        }
        CountedVisit(g, counts, row, col);
        counts := Spread(counts, nRows, nCols, row, col, 1);
      }
      CountedRowEnd(g, counts, row);
    }
    CountedAll(g, counts);
    return Some(counts);
  }

  // ---------------------------------------------------------------------------
  // task_1

  /** A roll the forklift can reach: fewer than four occupied neighbours. */
  predicate Accessible(g: Grid, i: nat, j: nat)
    requires i < |g| && j < |g[i]|
  {
    g[i][j] == '@' && NeighborCount(g, i, j) < 4
  }

  /** The reachable rolls among the cells before (row, col) in row-major order. */
  function Reachable(g: Grid, row: nat, col: nat): nat
    requires IsGrid(g) && row <= |g| && col <= Width(g) && (row == |g| ==> col == 0)
    decreases row, col
  {
    if col == 0 then (if row == 0 then 0 else Reachable(g, row - 1, Width(g)))
    else Reachable(g, row, col - 1) + (if Accessible(g, row, col - 1) then 1 else 0)
  }

  /** What task_1 returns: every reachable roll of the grid. */
  function ReachableRolls(g: Grid): nat
    requires IsGrid(g)
  {
    Reachable(g, |g|, 0)
  }

  /** The rolls among the cells before (row, col). */
  function RollsBefore(g: Grid, row: nat, col: nat): nat
    requires IsGrid(g) && row <= |g| && col <= Width(g) && (row == |g| ==> col == 0)
    decreases row, col
  {
    if col == 0 then (if row == 0 then 0 else RollsBefore(g, row - 1, Width(g)))
    else RollsBefore(g, row, col - 1) + (if g[row][col - 1] == '@' then 1 else 0)
  }

  function RollCount(g: Grid): nat
    requires IsGrid(g)
  {
    RollsBefore(g, |g|, 0)
  }

  lemma {:induction false} ReachableAreRolls(g: Grid, row: nat, col: nat)
    requires IsGrid(g) && row <= |g| && col <= Width(g) && (row == |g| ==> col == 0)
    ensures Reachable(g, row, col) <= RollsBefore(g, row, col)
    decreases row, col
  {
    if col == 0 {
      if row > 0 {
        ReachableAreRolls(g, row - 1, Width(g));
      }
    } else {
      ReachableAreRolls(g, row, col - 1);
    }
  }

  /** task_1 never counts more than the rolls on the grid. */
  lemma ReachableAtMostRolls(g: Grid)
    requires IsGrid(g)
    ensures ReachableRolls(g) <= RollCount(g)
  {
    ReachableAreRolls(g, |g|, 0);
  }

  /** No reachable roll is counted exactly when no cell before (row, col) is reachable. */
  lemma {:induction false} ReachableNone(g: Grid, row: nat, col: nat)
    requires IsGrid(g) && row <= |g| && col <= Width(g) && (row == |g| ==> col == 0)
    ensures Reachable(g, row, col) == 0 <==>
      forall i, j :: 0 <= i < |g| && 0 <= j < Width(g) && Before(i, j, row, col) ==> !Accessible(g, i, j)
    decreases row, col
  {
    if col == 0 {
      if row > 0 {
        ReachableNone(g, row - 1, Width(g));
      }
    } else {
      ReachableNone(g, row, col - 1);
    }
  }

  /** task_1 counts nothing exactly when no roll is reachable. */
  lemma ReachableRollsNone(g: Grid)
    requires IsGrid(g)
    ensures ReachableRolls(g) == 0 <==>
      forall i, j :: 0 <= i < |g| && 0 <= j < Width(g) ==> !Accessible(g, i, j)
  {
    ReachableNone(g, |g|, 0);
  }

  /** task_1 */
  method Task1(grid: array2<char>) returns (r: Option<nat>)
    ensures r == if grid.Length0 == 0 then None else Some(ReachableRolls(Contents(grid)))
  {
    var counts := GetNeighborCounts(grid);
    if counts.None? {
      return None;
    }
    var neighborCounts := counts.value;
    ghost var g := Contents(grid);
    var rollCounter := 0;
    for row := 0 to grid.Length0
      invariant rollCounter == Reachable(g, row, 0)
    {
      for col := 0 to grid.Length1
        invariant rollCounter == Reachable(g, row, col)
      {
        if grid[row, col] == '@' && neighborCounts[row][col] < 4 {
          rollCounter := rollCounter + 1;
        }
      }
    }
    return Some(rollCounter);
  }

  // ---------------------------------------------------------------------------
  // task_2

  function Remove(g: Grid, x: nat, y: nat): (r: Grid)
    requires x < |g| && y < |g[x]|
    ensures |r| == |g| && forall i :: 0 <= i < |g| ==> |r[i]| == |g[i]|
  {
    g[x := g[x][y := '.']]
  }

  /** One visit of the removal pass: a reachable roll is taken away. */
  function VisitCell(g: Grid, x: nat, y: nat): (r: Grid)
    requires x < |g| && y < |g[x]|
    ensures |r| == |g| && forall i :: 0 <= i < |g| ==> |r[i]| == |g[i]|
  {
    if Accessible(g, x, y) then Remove(g, x, y) else g
  }

  /** The grid after the pass has visited the cells before (row, col). */
  function Sweep(g: Grid, row: nat, col: nat): (r: Grid)
    requires IsGrid(g) && row <= |g| && col <= Width(g) && (row == |g| ==> col == 0)
    ensures |r| == |g| && Rectangular(r, Width(g)) && Width(r) == Width(g)
    decreases row, col
  {
    if col == 0 then (if row == 0 then g else Sweep(g, row - 1, Width(g)))
    else VisitCell(Sweep(g, row, col - 1), row, col - 1)
  }

  /** One pass of task_2's loop over the whole grid. */
  function Pass(g: Grid): (r: Grid)
    requires IsGrid(g)
    ensures |r| == |g| && IsGrid(r) && Width(r) == Width(g)
  {
    Sweep(g, |g|, 0)
  }

  /** Taking away a roll lowers the count before (row, col) when it lies there. */
  lemma {:induction false} RemoveRolls(g: Grid, x: nat, y: nat, row: nat, col: nat)
    requires IsGrid(g) && x < |g| && y < Width(g) && g[x][y] == '@'
    requires row <= |g| && col <= Width(g) && (row == |g| ==> col == 0)
    ensures IsGrid(Remove(g, x, y))
    ensures RollsBefore(Remove(g, x, y), row, col) ==
      RollsBefore(g, row, col) - (if Before(x, y, row, col) then 1 else 0)
    decreases row, col
  {
    var h := Remove(g, x, y);
    assert Width(h) == Width(g);
    if col == 0 {
      if row > 0 {
        RemoveRolls(g, x, y, row - 1, Width(g));
      }
    } else {
      RemoveRolls(g, x, y, row, col - 1);
    }
  }

  lemma VisitRolls(g: Grid, x: nat, y: nat)
    requires IsGrid(g) && x < |g| && y < Width(g)
    ensures IsGrid(VisitCell(g, x, y))
    ensures RollCount(VisitCell(g, x, y)) == RollCount(g) - (if Accessible(g, x, y) then 1 else 0)
  {
    if Accessible(g, x, y) {
      RemoveRolls(g, x, y, |g|, 0);
    }
  }

  lemma {:induction false} SweepRolls(g: Grid, row: nat, col: nat)
    requires IsGrid(g) && row <= |g| && col <= Width(g) && (row == |g| ==> col == 0)
    ensures RollCount(Sweep(g, row, col)) <= RollCount(g)
    decreases row, col
  {
    if col == 0 {
      if row > 0 {
        SweepRolls(g, row - 1, Width(g));
      }
    } else {
      SweepRolls(g, row, col - 1);
      VisitRolls(Sweep(g, row, col - 1), row, col - 1);
    }
  }

  /** Removing passes until one removes nothing; the grid task_2 leaves. */
  function Settle(g: Grid): (r: Grid)
    requires IsGrid(g)
    ensures IsGrid(r)
    decreases RollCount(g)
  {
    SweepRolls(g, |g|, 0);
    var p := Pass(g);
    if RollCount(p) == RollCount(g) then p else Settle(p)
  }

  /** What task_2 returns: the rolls taken away until the grid settles. */
  function RemovedRolls(g: Grid): nat
    requires IsGrid(g)
  {
    SettleRolls(g);
    RollCount(g) - RollCount(Settle(g))
  }

  lemma {:induction false} SettleRolls(g: Grid)
    requires IsGrid(g)
    ensures RollCount(Settle(g)) <= RollCount(g)
    decreases RollCount(g)
  {
    SweepRolls(g, |g|, 0);
    var p := Pass(g);
    if RollCount(p) != RollCount(g) {
      SettleRolls(p);
    }
  }

  /** A pass that removes nothing leaves the grid as it was, and then no cell
      it visited was reachable. */
  lemma {:induction false} SweepIdle(g: Grid, row: nat, col: nat)
    requires IsGrid(g) && row <= |g| && col <= Width(g) && (row == |g| ==> col == 0)
    requires RollCount(Sweep(g, row, col)) == RollCount(g)
    ensures Sweep(g, row, col) == g && Reachable(g, row, col) == 0
    decreases row, col
  {
    if col == 0 {
      if row > 0 {
        SweepIdle(g, row - 1, Width(g));
      }
    } else {
      SweepRolls(g, row, col - 1);
      VisitRolls(Sweep(g, row, col - 1), row, col - 1);
      SweepIdle(g, row, col - 1);
    }
  }

  lemma {:induction false} SweepUnreachable(g: Grid, row: nat, col: nat)
    requires IsGrid(g) && row <= |g| && col <= Width(g) && (row == |g| ==> col == 0)
    requires Reachable(g, row, col) == 0
    ensures Sweep(g, row, col) == g
    decreases row, col
  {
    if col == 0 {
      if row > 0 {
        SweepUnreachable(g, row - 1, Width(g));
      }
    } else {
      SweepUnreachable(g, row, col - 1);
    }
  }

  /** A pass removes nothing exactly when task_1 finds no reachable roll. */
  lemma PassIdleIffUnreachable(g: Grid)
    requires IsGrid(g)
    ensures RollCount(Pass(g)) == RollCount(g) <==> ReachableRolls(g) == 0
  {
    if RollCount(Pass(g)) == RollCount(g) {
      SweepIdle(g, |g|, 0);
    }
    if ReachableRolls(g) == 0 {
      SweepUnreachable(g, |g|, 0);
    }
  }

  /** When task_2 stops, no roll on the grid is reachable. */
  lemma {:induction false} SettleStable(g: Grid)
    requires IsGrid(g)
    ensures ReachableRolls(Settle(g)) == 0
    decreases RollCount(g)
  {
    SweepRolls(g, |g|, 0);
    var p := Pass(g);
    if RollCount(p) == RollCount(g) {
      SweepIdle(g, |g|, 0);
    } else {
      SettleStable(p);
    }
  }

  /** task_2 removes nothing exactly when task_1 counts nothing. */
  lemma RemovedNoneIffUnreachable(g: Grid)
    requires IsGrid(g)
    ensures RemovedRolls(g) == 0 <==> ReachableRolls(g) == 0
  {
    SweepRolls(g, |g|, 0);
    PassIdleIffUnreachable(g);
    var p := Pass(g);
    if RollCount(p) != RollCount(g) {
      SettleRolls(p);
    }
  }

  /** b is a with some rolls taken away and nothing else changed. */
  predicate Thinned(a: Grid, b: Grid) {
    |a| == |b| && (forall i :: 0 <= i < |a| ==> |b[i]| == |a[i]|) &&
    forall i, j :: 0 <= i < |a| && 0 <= j < |a[i]| ==> b[i][j] == a[i][j] || (a[i][j] == '@' && b[i][j] == '.')
  }

  lemma ThinnedTransitive(a: Grid, b: Grid, c: Grid)
    requires Thinned(a, b) && Thinned(b, c)
    ensures Thinned(a, c)
  {
    forall i, j | 0 <= i < |a| && 0 <= j < |a[i]|
      ensures c[i][j] == a[i][j] || (a[i][j] == '@' && c[i][j] == '.')
    {
      assert b[i][j] == a[i][j] || (a[i][j] == '@' && b[i][j] == '.');
      assert c[i][j] == b[i][j] || (b[i][j] == '@' && c[i][j] == '.');
    }
  }

  /** The pass only takes rolls away, and only from cells it has visited. */
  lemma {:induction false} SweepThins(g: Grid, row: nat, col: nat)
    requires IsGrid(g) && row <= |g| && col <= Width(g) && (row == |g| ==> col == 0)
    ensures Thinned(g, Sweep(g, row, col))
    ensures forall i, j :: 0 <= i < |g| && 0 <= j < Width(g) && !Before(i, j, row, col) ==>
      Sweep(g, row, col)[i][j] == g[i][j]
    decreases row, col
  {
    if col == 0 {
      if row > 0 {
        SweepThins(g, row - 1, Width(g));
      }
    } else {
      var s := Sweep(g, row, col - 1);
      SweepThins(g, row, col - 1);
      assert Thinned(s, VisitCell(s, row, col - 1));
      ThinnedTransitive(g, s, VisitCell(s, row, col - 1));
    }
  }

  /** task_2 turns only '@' cells into '.'. */
  lemma {:induction false} SettleThins(g: Grid)
    requires IsGrid(g)
    ensures Thinned(g, Settle(g))
    decreases RollCount(g)
  {
    SweepRolls(g, |g|, 0);
    SweepThins(g, |g|, 0);
    var p := Pass(g);
    if RollCount(p) != RollCount(g) {
      SettleThins(p);
      ThinnedTransitive(g, p, Settle(p));
    }
  }

  /** Taking rolls away never raises a neighbour count. */
  lemma ThinnedCount(a: Grid, b: Grid, i: int, j: int)
    requires Thinned(a, b)
    ensures NeighborCount(b, i, j) <= NeighborCount(a, i, j)
  {
    assert forall x, y :: Occ(b, x, y) <= Occ(a, x, y) by {
      forall x, y
        ensures Occ(b, x, y) <= Occ(a, x, y)
      {
        if 0 <= x < |a| && 0 <= y < |a[x]| {
          assert b[x][y] == a[x][y] || b[x][y] == '.';
        }
      }
    }
  }

  /** Every roll reachable at the start of a pass is gone once the pass has
      visited it: the counts around it only fall before it is reached. */
  lemma {:induction false} SweepClears(g: Grid, row: nat, col: nat)
    requires IsGrid(g) && row <= |g| && col <= Width(g) && (row == |g| ==> col == 0)
    ensures forall i, j :: 0 <= i < |g| && 0 <= j < Width(g) && Before(i, j, row, col) && Accessible(g, i, j) ==>
      Sweep(g, row, col)[i][j] == '.'
    decreases row, col
  {
    if col == 0 {
      if row > 0 {
        SweepClears(g, row - 1, Width(g));
      }
    } else {
      var s := Sweep(g, row, col - 1);
      var t := VisitCell(s, row, col - 1);
      SweepClears(g, row, col - 1);
      SweepThins(g, row, col - 1);
      forall i, j | 0 <= i < |g| && 0 <= j < Width(g) && Before(i, j, row, col) && Accessible(g, i, j)
        ensures t[i][j] == '.'
      {
        if i == row && j == col - 1 {
          StillAccessible(g, s, i, j);
        } else {
          assert Before(i, j, row, col - 1);
        }
      }
    }
  }

  /** A reachable roll that is still in place stays reachable after others go. */
  lemma StillAccessible(a: Grid, b: Grid, i: nat, j: nat)
    requires Thinned(a, b) && i < |a| && j < |a[i]| && b[i][j] == a[i][j]
    requires Accessible(a, i, j)
    ensures Accessible(b, i, j)
  {
    ThinnedCount(a, b, i, j);
  }

  /** The rolls left before (row, col) are at most those of a, less the ones
      reachable in a. */
  lemma {:induction false} ClearedRolls(a: Grid, b: Grid, row: nat, col: nat)
    requires IsGrid(a) && IsGrid(b) && Thinned(a, b) && Width(b) == Width(a)
    requires row <= |a| && col <= Width(a) && (row == |a| ==> col == 0)
    requires forall i, j :: 0 <= i < |a| && 0 <= j < Width(a) && Accessible(a, i, j) ==> b[i][j] == '.'
    ensures RollsBefore(b, row, col) + Reachable(a, row, col) <= RollsBefore(a, row, col)
    decreases row, col
  {
    if col == 0 {
      if row > 0 {
        ClearedRolls(a, b, row - 1, Width(a));
      }
    } else {
      ClearedRolls(a, b, row, col - 1);
    }
  }

  /** task_2 removes at least the rolls task_1 counts: the first pass alone
      takes every one of them. */
  lemma RemovedAtLeastReachable(g: Grid)
    requires IsGrid(g)
    ensures ReachableRolls(g) <= RemovedRolls(g)
  {
    var p := Pass(g);
    SweepThins(g, |g|, 0);
    SweepClears(g, |g|, 0);
    ClearedRolls(g, p, |g|, 0);
    SweepRolls(g, |g|, 0);
    if RollCount(p) != RollCount(g) {
      SettleRolls(p);
    }
  }

  /** The neighbour counts after taking away a roll at (x, y). */
  lemma RemoveNeighborCount(g: Grid, x: nat, y: nat, i: int, j: int)
    requires x < |g| && y < |g[x]| && g[x][y] != '.'
    ensures NeighborCount(Remove(g, x, y), i, j) == NeighborCount(g, i, j) - (if Near(i, j, x, y) then 1 else 0)
  {
    var h := Remove(g, x, y);
    assert forall a, b :: a != x || b != y ==> Occ(h, a, b) == Occ(g, a, b);
    assert Occ(h, x, y) == 0 && Occ(g, x, y) == 1;
  }

  lemma RemoveNeighborCounts(g: Grid, x: nat, y: nat)
    requires IsGrid(g) && x < |g| && y < Width(g) && g[x][y] != '.'
    ensures NeighborCounts(Remove(g, x, y)) == Bump(NeighborCounts(g), x, y, -1)
  {
    var h := Remove(g, x, y);
    forall i, j | 0 <= i < |g| && 0 <= j < Width(g)
      ensures NeighborCounts(h)[i][j] == Bump(NeighborCounts(g), x, y, -1)[i][j]
    {
      RemoveNeighborCount(g, x, y, i, j);
    }
    EqualGrids(NeighborCounts(h), Bump(NeighborCounts(g), x, y, -1), Width(g));
  }

  /** Takes the roll at (row, col) away and lowers the counts around it. */
  method TakeRoll(grid: array2<char>, counts: seq<seq<int>>, row: nat, col: nat) returns (newCounts: seq<seq<int>>)
    requires row < grid.Length0 && col < grid.Length1 && grid[row, col] == '@'
    requires counts == NeighborCounts(Contents(grid))
    modifies grid
    ensures Contents(grid) == Remove(old(Contents(grid)), row, col)
    ensures newCounts == NeighborCounts(Contents(grid))
    ensures RollCount(Contents(grid)) == RollCount(old(Contents(grid))) - 1
  {
    ghost var g := Contents(grid);
    grid[row, col] := '.';
    forall i, j | 0 <= i < grid.Length0 && 0 <= j < grid.Length1
      ensures Contents(grid)[i][j] == Remove(g, row, col)[i][j]
    {
    }
    EqualGrids(Contents(grid), Remove(g, row, col), grid.Length1);
    RemoveNeighborCounts(g, row, col);
    RemoveRolls(g, row, col, |g|, 0);
    newCounts := Spread(counts, grid.Length0, grid.Length1, row, col, -1);
  }

  /** The state of a pass after the cells before (row, col): the grid is
      Sweep of the grid it started from, the counts are those of the grid,
      and `removed` rolls have gone. */
  predicate Swept(g0: Grid, cur: Grid, counts: seq<seq<int>>, removed: int, row: nat, col: nat) {
    IsGrid(g0) && row <= |g0| && col <= Width(g0) && (row == |g0| ==> col == 0) &&
    cur == Sweep(g0, row, col) && counts == NeighborCounts(cur) &&
    removed == RollCount(g0) - RollCount(cur)
  }

  lemma SweptChecks(g0: Grid, cur: Grid, counts: seq<seq<int>>, removed: int, row: nat, col: nat)
    requires Swept(g0, cur, counts, removed, row, col) && row < |g0| && col < Width(g0)
    ensures Accessible(cur, row, col) <==> cur[row][col] == '@' && counts[row][col] < 4
  {
  }

  lemma SweptTake(g0: Grid, cur: Grid, counts: seq<seq<int>>, removed: int, row: nat, col: nat,
                  newCounts: seq<seq<int>>)
    requires Swept(g0, cur, counts, removed, row, col) && row < |g0| && col < Width(g0)
    requires Accessible(cur, row, col)
    requires newCounts == NeighborCounts(Remove(cur, row, col))
    ensures Swept(g0, Remove(cur, row, col), newCounts, removed + 1, row, col + 1)
  {
    VisitRolls(cur, row, col);
  }

  lemma SweptKeep(g0: Grid, cur: Grid, counts: seq<seq<int>>, removed: int, row: nat, col: nat)
    requires Swept(g0, cur, counts, removed, row, col) && row < |g0| && col < Width(g0)
    requires !Accessible(cur, row, col)
    ensures Swept(g0, cur, counts, removed, row, col + 1)
  {
  }

  /** One pass of task_2's outer loop: the grid becomes Pass of itself, the
      counts stay those of the current grid, and the rolls taken are counted. */
  method RemovalPass(grid: array2<char>, counts: seq<seq<int>>) returns (newCounts: seq<seq<int>>, removed: int)
    requires counts == NeighborCounts(Contents(grid))
    modifies grid
    ensures IsGrid(old(Contents(grid)))
    ensures Contents(grid) == Pass(old(Contents(grid)))
    ensures newCounts == NeighborCounts(Contents(grid))
    ensures removed == RollCount(old(Contents(grid))) - RollCount(Contents(grid))
  {
    ghost var g0 := Contents(grid);
    ghost var cur := g0;
    var nRows, nCols := grid.Length0, grid.Length1;
    newCounts, removed := counts, 0;
    for row := 0 to nRows
      invariant Contents(grid) == cur
      invariant Swept(g0, cur, newCounts, removed, row, 0)
    {
      for col := 0 to nCols
        invariant Contents(grid) == cur
        invariant Swept(g0, cur, newCounts, removed, row, col)
      {
        SweptChecks(g0, cur, newCounts, removed, row, col);
        if grid[row, col] == '@' && newCounts[row][col] < 4 {
          var taken := TakeRoll(grid, newCounts, row, col);
          SweptTake(g0, cur, newCounts, removed, row, col, taken);
          removed, newCounts := removed + 1, taken;
          cur := Contents(grid);
        } else {
          SweptKeep(g0, cur, newCounts, removed, row, col);
        }
      }
    }
  }

  /** task_2: passes until one removes nothing; returns the rolls removed and
      leaves the settled grid in place. */
  method Task2(grid: array2<char>) returns (r: Option<nat>)
    modifies grid
    ensures r == if grid.Length0 == 0 then None else Some(RemovedRolls(old(Contents(grid))))
    ensures grid.Length0 > 0 ==> Contents(grid) == Settle(old(Contents(grid)))
    ensures grid.Length0 == 0 ==> unchanged(grid)
  {
    var counts := GetNeighborCounts(grid);
    if counts.None? {
      return None;
    }
    var neighborCounts := counts.value;
    ghost var g0 := Contents(grid);
    var rollCounter := 0;
    while true
      invariant IsGrid(Contents(grid)) && Settle(Contents(grid)) == Settle(g0)
      invariant neighborCounts == NeighborCounts(Contents(grid))
      invariant rollCounter == RollCount(g0) - RollCount(Contents(grid))
      decreases RollCount(Contents(grid))
    {
      ghost var before := Contents(grid);
      var extraRollsRemoved;
      neighborCounts, extraRollsRemoved := RemovalPass(grid, neighborCounts);
      rollCounter := rollCounter + extraRollsRemoved;
      if extraRollsRemoved == 0 {
        break;
      }
      SweepRolls(before, |before|, 0);
    }
    SettleRolls(g0);
    return Some(rollCounter);
  }
}
