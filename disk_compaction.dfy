// 2024/day_09/main.py: compacting a disk map held as a Layout

module DiskCompaction {
  import opened Basics
  import opened DiskLayout

  // ---------------------------------------------------------------------------
  // The disk as a value: extents in order, and the cells they cover

  predicate IsFreeExtent(e: Extent) {
    e.id == FREE_ID
  }

  predicate IsFileExtent(e: Extent) {
    e.id != FREE_ID
  }

  /** n cells holding the same id. */
  function Repeat(id: int, n: nat): (r: seq<int>)
    ensures |r| == n
  {
    if n == 0 then [] else [id] + Repeat(id, n - 1)
  }

  lemma {:induction false} RepeatAdd(id: int, a: nat, b: nat)
    ensures Repeat(id, a) + Repeat(id, b) == Repeat(id, a + b)
  {
    if a > 0 {
      RepeatAdd(id, a - 1, b);
      assert Repeat(id, a) + Repeat(id, b) == [id] + (Repeat(id, a - 1) + Repeat(id, b));
    }
  }

  lemma {:induction false} RepeatCount(id: int, n: nat, x: int)
    ensures multiset(Repeat(id, n))[x] == if id == x then n else 0
  {
    if n > 0 {
      RepeatCount(id, n - 1, x);
      assert Repeat(id, n) == [id] + Repeat(id, n - 1);
    }
  }

  /** The disk cell by cell: each extent contributes `length` copies of its id. */
  function Cells(sh: seq<Extent>): seq<int>
  {
    if sh == [] then [] else Repeat(sh[0].id, sh[0].length) + Cells(sh[1..])
  }

  /** The number of cells of the disk, the sum of all lengths. */
  function Total(sh: seq<Extent>): nat
  {
    if sh == [] then 0 else sh[0].length + Total(sh[1..])
  }

  lemma {:induction false} CellsAppend(a: seq<Extent>, b: seq<Extent>)
    ensures Cells(a + b) == Cells(a) + Cells(b)
    decreases |a|
  {
    if a == [] {
      assert a + b == b;
    } else {
      assert (a + b)[1..] == a[1..] + b;
      CellsAppend(a[1..], b);
    }
  }

  /** The cells an extent holds with id x. */
  function ExtentCount(e: Extent, x: int): nat
  {
    if e.id == x then e.length else 0
  }

  /** How many cells carry id x. */
  function CellCount(sh: seq<Extent>, x: int): nat
  {
    if sh == [] then 0 else ExtentCount(sh[0], x) + CellCount(sh[1..], x)
  }

  /** The counts are those of the cells: CellCount is the multiplicity of x
      among them and Total their number. */
  lemma {:induction false} CellCountIsCells(sh: seq<Extent>, x: int)
    ensures CellCount(sh, x) == multiset(Cells(sh))[x] && Total(sh) == |Cells(sh)|
    decreases |sh|
  {
    if sh != [] {
      CellCountIsCells(sh[1..], x);
      RepeatCount(sh[0].id, sh[0].length, x);
      assert multiset(Cells(sh)) == multiset(Repeat(sh[0].id, sh[0].length)) + multiset(Cells(sh[1..]));
    }
  }

  /** Disks with the same cells have the same counts. */
  lemma SameCells(a: seq<Extent>, b: seq<Extent>)
    requires Cells(a) == Cells(b)
    ensures Total(a) == Total(b) && forall x :: CellCount(a, x) == CellCount(b, x)
  {
    CellCountIsCells(a, 0);
    CellCountIsCells(b, 0);
    forall x
      ensures CellCount(a, x) == CellCount(b, x)
    {
      CellCountIsCells(a, x);
      CellCountIsCells(b, x);
    }
  }

  lemma {:induction false} CountAppend(a: seq<Extent>, b: seq<Extent>, x: int)
    ensures CellCount(a + b, x) == CellCount(a, x) + CellCount(b, x)
    ensures Total(a + b) == Total(a) + Total(b)
    decreases |a|
  {
    if a == [] {
      assert a + b == b;
    } else {
      assert (a + b)[1..] == a[1..] + b;
      CountAppend(a[1..], b, x);
    }
  }

  /** The counts of a disk split around one extent e. */
  lemma CountSplit(a: seq<Extent>, e: Extent, b: seq<Extent>, x: int)
    ensures CellCount(a + [e] + b, x) == CellCount(a, x) + ExtentCount(e, x) + CellCount(b, x)
    ensures Total(a + [e] + b) == Total(a) + e.length + Total(b)
  {
    CountAppend(a + [e], b, x);
    CountAppend(a, [e], x);
    assert [e][1..] == [];
  }

  /** The number of free extents. */
  function FreeCount(sh: seq<Extent>): (n: nat)
    ensures n <= |sh|
  {
    if sh == [] then 0 else (if IsFreeExtent(sh[0]) then 1 else 0) + FreeCount(sh[1..])
  }

  lemma {:induction false} FreeCountAppend(a: seq<Extent>, b: seq<Extent>)
    ensures FreeCount(a + b) == FreeCount(a) + FreeCount(b)
    decreases |a|
  {
    if a == [] {
      assert a + b == b;
    } else {
      assert (a + b)[1..] == a[1..] + b;
      FreeCountAppend(a[1..], b);
    }
  }

  /** No two neighbouring extents carry the same id. */
  predicate NoAdjacentEqual(sh: seq<Extent>)
  {
    forall i {:trigger sh[i].id} :: 0 <= i < |sh| - 1 ==> sh[i].id != sh[i + 1].id
  }

  /** No extent has length zero. */
  predicate NoEmpty(sh: seq<Extent>)
  {
    forall i :: 0 <= i < |sh| ==> sh[i].length > 0
  }

  // ---------------------------------------------------------------------------
  // Searching

  /** The position of the first extent satisfying p, if any. */
  function FirstWhere(sh: seq<Extent>, p: Extent -> bool): (r: Option<nat>)
    ensures r.Some? ==> r.value < |sh| && p(sh[r.value]) && forall j :: 0 <= j < r.value ==> !p(sh[j])
    ensures r.None? ==> forall j :: 0 <= j < |sh| ==> !p(sh[j])
  {
    if sh == [] then None
    else if p(sh[0]) then Some(0)
    else match FirstWhere(sh[1..], p)
      case None => None
      case Some(j) => Some(j + 1)
  }

  /** The position of the last extent satisfying p, if any. */
  function LastWhere(sh: seq<Extent>, p: Extent -> bool): (r: Option<nat>)
    ensures r.Some? ==> r.value < |sh| && p(sh[r.value]) && forall j :: r.value < j < |sh| ==> !p(sh[j])
    ensures r.None? ==> forall j :: 0 <= j < |sh| ==> !p(sh[j])
  {
    if sh == [] then None
    else if p(sh[|sh| - 1]) then Some(|sh| - 1)
    else LastWhere(sh[..|sh| - 1], p)
  }

  // ---------------------------------------------------------------------------
  // clean_empty_blocks

  /** The disk without its zero-length extents. */
  function Cleaned(sh: seq<Extent>): (r: seq<Extent>)
    ensures |r| <= |sh|
  {
    if sh == [] then [] else (if sh[0].length == 0 then [] else [sh[0]]) + Cleaned(sh[1..])
  }

  lemma {:induction false} CleanedAppend(a: seq<Extent>, b: seq<Extent>)
    ensures Cleaned(a + b) == Cleaned(a) + Cleaned(b)
    decreases |a|
  {
    if a == [] {
      assert a + b == b;
    } else {
      assert (a + b)[1..] == a[1..] + b;
      CleanedAppend(a[1..], b);
    }
  }

  /** Dropping empty extents leaves the cells as they were and leaves no
      empty extent. */
  lemma {:induction false} CleanedCells(sh: seq<Extent>)
    ensures Cells(Cleaned(sh)) == Cells(sh) && NoEmpty(Cleaned(sh))
    decreases |sh|
  {
    if sh != [] {
      CleanedCells(sh[1..]);
      var head := if sh[0].length == 0 then [] else [sh[0]];
      CellsAppend(head, Cleaned(sh[1..]));
      assert Cells([sh[0]]) == Repeat(sh[0].id, sh[0].length) + Cells([]);
    }
  }

  /** A disk without empty extents is its own cleaning. */
  lemma {:induction false} CleanedNoEmpty(sh: seq<Extent>)
    requires NoEmpty(sh)
    ensures Cleaned(sh) == sh
    decreases |sh|
  {
    if sh != [] {
      CleanedNoEmpty(sh[1..]);
    }
  }

  /** Two empty extents at a < b make the cleaned disk at least two shorter. */
  lemma CleanedDropsTwo(sh: seq<Extent>, a: nat, b: nat)
    requires a < b < |sh| && sh[a].length == 0 && sh[b].length == 0
    ensures |Cleaned(sh)| + 2 <= |sh|
  {
    assert sh == sh[..a] + sh[a..b] + sh[b..];
    CleanedAppend(sh[..a] + sh[a..b], sh[b..]);
    CleanedAppend(sh[..a], sh[a..b]);
    assert sh[a..b][1..] == sh[a + 1..b];
    assert sh[b..][1..] == sh[b + 1..];
  }

  // ---------------------------------------------------------------------------
  // consolidate_space

  /** Extents k and k + 1 become one extent with the id of k and both
      lengths: k is lengthened, then k + 1 is removed. */
  function Merged(sh: seq<Extent>, k: nat): (r: seq<Extent>)
    requires k + 1 < |sh|
    ensures |r| == |sh| - 1
  {
    var s := sh[k := Extent(sh[k].id, sh[k].length + sh[k + 1].length)];
    s[..k + 1] + s[k + 2..]
  }

  lemma {:induction false} MergedCells(sh: seq<Extent>, k: nat)
    requires k + 1 < |sh| && sh[k].id == sh[k + 1].id
    ensures Cells(Merged(sh, k)) == Cells(sh)
    decreases k
  {
    var m := Merged(sh, k);
    if k == 0 {
      assert m[1..] == sh[2..] && sh[1..][1..] == sh[2..];
      RepeatAdd(sh[0].id, sh[0].length, sh[1].length);
    } else {
      assert m[0] == sh[0] && m[1..] == Merged(sh[1..], k - 1);
      MergedCells(sh[1..], k - 1);
    }
  }

  /** The merge loop as main.py:18-27 writes it, from the extent at i:
      after a merge the walk moves on to the extent after the merged one. */
  function ConsolidatedAsWrittenFrom(sh: seq<Extent>, i: nat): seq<Extent>
    decreases |sh| - i
  {
    if i + 1 >= |sh| then sh
    else if sh[i].id == sh[i + 1].id then ConsolidatedAsWrittenFrom(Merged(sh, i), i + 1)
    else ConsolidatedAsWrittenFrom(sh, i + 1)
  }

  function ConsolidatedAsWritten(sh: seq<Extent>): seq<Extent>
  {
    ConsolidatedAsWrittenFrom(sh, 0)
  }

  /** The merge loop as intended: after a merge the walk stays on the
      merged extent, so a run of any length becomes one extent. */
  function ConsolidatedFrom(sh: seq<Extent>, i: nat): seq<Extent>
    decreases |sh| - i
  {
    if i + 1 >= |sh| then sh
    else if sh[i].id == sh[i + 1].id then ConsolidatedFrom(Merged(sh, i), i)
    else ConsolidatedFrom(sh, i + 1)
  }

  function Consolidated(sh: seq<Extent>): seq<Extent>
  {
    ConsolidatedFrom(sh, 0)
  }

  /** Merging never changes the cells, never lengthens the disk, and keeps
      every extent non-empty if it was. */
  lemma {:induction false} ConsolidatedFromCells(sh: seq<Extent>, i: nat)
    ensures Cells(ConsolidatedFrom(sh, i)) == Cells(sh) && |ConsolidatedFrom(sh, i)| <= |sh|
    ensures NoEmpty(sh) ==> NoEmpty(ConsolidatedFrom(sh, i))
    decreases |sh| - i
  {
    if i + 1 < |sh| {
      if sh[i].id == sh[i + 1].id {
        MergedCells(sh, i);
        ConsolidatedFromCells(Merged(sh, i), i);
      } else {
        ConsolidatedFromCells(sh, i + 1);
      }
    }
  }

  lemma {:induction false} ConsolidatedAsWrittenFromCells(sh: seq<Extent>, i: nat)
    ensures Cells(ConsolidatedAsWrittenFrom(sh, i)) == Cells(sh) && |ConsolidatedAsWrittenFrom(sh, i)| <= |sh|
    decreases |sh| - i
  {
    if i + 1 < |sh| {
      if sh[i].id == sh[i + 1].id {
        MergedCells(sh, i);
        ConsolidatedAsWrittenFromCells(Merged(sh, i), i + 1);
      } else {
        ConsolidatedAsWrittenFromCells(sh, i + 1);
      }
    }
  }

  /** No neighbours below position i carry the same id. */
  predicate NoAdjacentEqualBelow(sh: seq<Extent>, i: nat)
  {
    forall j {:trigger sh[j].id} :: 0 <= j < i && j + 1 < |sh| ==> sh[j].id != sh[j + 1].id
  }

  lemma {:induction false} ConsolidatedFromSeparates(sh: seq<Extent>, i: nat)
    requires NoAdjacentEqualBelow(sh, i)
    ensures NoAdjacentEqual(ConsolidatedFrom(sh, i))
    decreases |sh| - i
  {
    if i + 1 >= |sh| {
      assert forall j {:trigger sh[j].id} :: 0 <= j < |sh| - 1 ==> j < i;
    } else if sh[i].id == sh[i + 1].id {
      var m := Merged(sh, i);
      assert forall j :: 0 <= j < i ==> m[j] == sh[j];
      assert m[i].id == sh[i].id;
      ConsolidatedFromSeparates(m, i);
    } else {
      ConsolidatedFromSeparates(sh, i + 1);
    }
  }

  /** The intended consolidation leaves the cells as they were, and no two
      neighbouring extents with the same id. */
  lemma ConsolidatedSeparates(sh: seq<Extent>)
    ensures Cells(Consolidated(sh)) == Cells(sh) && NoAdjacentEqual(Consolidated(sh))
    ensures NoEmpty(sh) ==> NoEmpty(Consolidated(sh))
  {
    ConsolidatedFromCells(sh, 0);
    ConsolidatedFromSeparates(sh, 0);
  }

  /** On a disk whose neighbours differ, consolidation changes nothing; so
      consolidating twice is consolidating once. */
  lemma {:induction false} ConsolidatedFromIdle(sh: seq<Extent>, i: nat)
    requires NoAdjacentEqual(sh)
    ensures ConsolidatedFrom(sh, i) == sh
    decreases |sh| - i
  {
    if i + 1 < |sh| {
      ConsolidatedFromIdle(sh, i + 1);
    }
  }

  lemma ConsolidatedIdempotent(sh: seq<Extent>)
    ensures Consolidated(Consolidated(sh)) == Consolidated(sh)
  {
    ConsolidatedSeparates(sh);
    ConsolidatedFromIdle(Consolidated(sh), 0);
  }

  /** As written, three free extents in a row end as two neighbouring free
      extents; the intended loop leaves one. */
  lemma AsWrittenLeavesAdjacentFree()
    ensures ConsolidatedAsWritten(ThreeFree()) == [Extent(FREE_ID, 3), Extent(FREE_ID, 3)]
    ensures !NoAdjacentEqual(ConsolidatedAsWritten(ThreeFree()))
    ensures Consolidated(ThreeFree()) == [Extent(FREE_ID, 6)]
  {
    var s := ThreeFree();
    assert Merged(s, 0) == [Extent(FREE_ID, 3), Extent(FREE_ID, 3)];
    var t := [Extent(FREE_ID, 3), Extent(FREE_ID, 3)];
    assert ConsolidatedAsWrittenFrom(t, 1) == t;
    assert Merged(t, 0) == [Extent(FREE_ID, 6)];
    assert ConsolidatedFrom([Extent(FREE_ID, 6)], 0) == [Extent(FREE_ID, 6)];
    assert (0 <= 0 < |t| - 1) && t[0].id == t[1].id;
  }

  function ThreeFree(): seq<Extent>
  {
    [Extent(FREE_ID, 1), Extent(FREE_ID, 2), Extent(FREE_ID, 3)]
  }

  // ---------------------------------------------------------------------------
  // Changing one extent, as the counts of cells see it

  /** Replacing the extent at k swaps its cells for those of e. */
  lemma CountUpdate(sh: seq<Extent>, k: nat, e: Extent, x: int)
    requires k < |sh|
    ensures CellCount(sh[k := e], x) + ExtentCount(sh[k], x) == CellCount(sh, x) + ExtentCount(e, x)
    ensures Total(sh[k := e]) + sh[k].length == Total(sh) + e.length
  {
    assert sh == sh[..k] + [sh[k]] + sh[k + 1..];
    assert sh[k := e] == sh[..k] + [e] + sh[k + 1..];
    CountSplit(sh[..k], sh[k], sh[k + 1..], x);
    CountSplit(sh[..k], e, sh[k + 1..], x);
  }

  /** Inserting e at k adds its cells. */
  lemma CountInsert(sh: seq<Extent>, k: nat, e: Extent, x: int)
    requires k <= |sh|
    ensures CellCount(sh[..k] + [e] + sh[k..], x) == CellCount(sh, x) + ExtentCount(e, x)
    ensures Total(sh[..k] + [e] + sh[k..]) == Total(sh) + e.length
  {
    assert sh == sh[..k] + sh[k..];
    CountAppend(sh[..k], sh[k..], x);
    CountSplit(sh[..k], e, sh[k..], x);
  }

  function Min(a: nat, b: nat): (m: nat)
    ensures m <= a && m <= b && (m == a || m == b)
  {
    if a <= b then a else b
  }

  // ---------------------------------------------------------------------------
  // move_file_step

  /** The disk after the edits of one move step, before it is cleaned and
      consolidated: min(free, file) cells of the file at g go into a new
      extent before the free extent at f, and both lose that many cells. */
  function MoveCells(sh: seq<Extent>, f: nat, g: nat): (r: seq<Extent>)
    requires f < |sh| && g < |sh| && f != g
    ensures |r| == |sh| + 1
  {
    var m := Min(sh[f].length, sh[g].length);
    var t := sh[..f] + [Extent(sh[g].id, m)] + sh[f..];
    var g1 := if g < f then g else g + 1;
    assert t[g1] == sh[g] && t[f + 1] == sh[f];
    var u := t[g1 := Extent(t[g1].id, t[g1].length - m)];
    u[f + 1 := Extent(u[f + 1].id, u[f + 1].length - m)]
  }

  /** One step of main.py:53-67: the leftmost free extent receives cells
      of the rightmost file extent. None where either is missing, where the
      source's `next()` raises StopIteration. */
  function MoveFileShape(sh: seq<Extent>): (r: Option<seq<Extent>>)
    ensures r.Some? <==> FirstWhere(sh, IsFreeExtent).Some? && LastWhere(sh, IsFileExtent).Some?
  {
    match (FirstWhere(sh, IsFreeExtent), LastWhere(sh, IsFileExtent))
    case (Some(f), Some(g)) => Some(Consolidated(Cleaned(MoveCells(sh, f, g))))
    case _ => None
  }

  /** The edits of a move step keep the cells of every file id and lose the
      moved cells from the free space; two extents are left empty when
      nothing moves. */
  lemma MoveCellsCounts(sh: seq<Extent>, f: nat, g: nat)
    requires f < |sh| && g < |sh| && IsFreeExtent(sh[f]) && IsFileExtent(sh[g])
    ensures var m := Min(sh[f].length, sh[g].length);
      && (forall x :: x != FREE_ID ==> CellCount(MoveCells(sh, f, g), x) == CellCount(sh, x))
      && Total(MoveCells(sh, f, g)) + m == Total(sh)
      && (m == 0 ==> |Cleaned(MoveCells(sh, f, g))| < |sh|)
  {
    forall x | x != FREE_ID
      ensures CellCount(MoveCells(sh, f, g), x) == CellCount(sh, x)
    {
      MoveCellsCount(sh, f, g, x);
    }
    MoveCellsCount(sh, f, g, FREE_ID);
    var m := Min(sh[f].length, sh[g].length);
    if m == 0 {
      var v := MoveCells(sh, f, g);
      var g1 := if g < f then g else g + 1;
      assert v[f].length == 0 && v[g1].length == sh[g].length && v[f + 1].length == sh[f].length;
      if sh[g].length != 0 {
        CleanedDropsTwo(v, f, f + 1);
      } else if f < g1 {
        CleanedDropsTwo(v, f, g1);
      } else {
        CleanedDropsTwo(v, g1, f);
      }
    }
  }

  lemma MoveCellsCount(sh: seq<Extent>, f: nat, g: nat, x: int)
    requires f < |sh| && g < |sh| && IsFreeExtent(sh[f]) && IsFileExtent(sh[g])
    ensures x != FREE_ID ==> CellCount(MoveCells(sh, f, g), x) == CellCount(sh, x)
    ensures Total(MoveCells(sh, f, g)) + Min(sh[f].length, sh[g].length) == Total(sh)
  {
    var m := Min(sh[f].length, sh[g].length);
    var e := Extent(sh[g].id, m);
    var t := sh[..f] + [e] + sh[f..];
    var g1 := if g < f then g else g + 1;
    assert t[g1] == sh[g] && t[f + 1] == sh[f];
    var eg := Extent(sh[g].id, sh[g].length - m);
    var u := t[g1 := eg];
    assert u[f + 1] == sh[f];
    var ef := Extent(FREE_ID, sh[f].length - m);
    assert u[f + 1 := ef] == MoveCells(sh, f, g);
    CountInsert(sh, f, e, x);
    CountUpdate(t, g1, eg, x);
    CountUpdate(u, f + 1, ef, x);
  }

  /** A move step keeps the cells of every file id, shortens the disk by the
      cells it moves, and either shortens it or, moving nothing, drops at
      least one extent; what it leaves has no empty extent and no equal
      neighbours. */
  lemma MoveFileShapeProgress(sh: seq<Extent>)
    requires MoveFileShape(sh).Some?
    ensures var r := MoveFileShape(sh).value;
      && (forall x :: x != FREE_ID ==> CellCount(r, x) == CellCount(sh, x))
      && (Total(r) < Total(sh) || (Total(r) == Total(sh) && |r| < |sh|))
      && NoEmpty(r) && NoAdjacentEqual(r)
  {
    var f, g := FirstWhere(sh, IsFreeExtent).value, LastWhere(sh, IsFileExtent).value;
    var v := MoveCells(sh, f, g);
    MoveCellsCounts(sh, f, g);
    CleanedCells(v);
    ConsolidatedSeparates(Cleaned(v));
    ConsolidatedFromCells(Cleaned(v), 0);
    SameCells(Consolidated(Cleaned(v)), v);
  }

  /** At least two free extents: there is one after the first. */
  lemma {:induction false} SecondFree(sh: seq<Extent>)
    requires FreeCount(sh) >= 2
    ensures FirstWhere(sh, IsFreeExtent).Some?
    ensures exists j :: FirstWhere(sh, IsFreeExtent).value < j < |sh| && IsFreeExtent(sh[j])
    decreases |sh|
  {
    if IsFreeExtent(sh[0]) {
      assert FreeCount(sh[1..]) >= 1;
      OneFree(sh[1..]);
      var j :| 0 <= j < |sh[1..]| && IsFreeExtent(sh[1..][j]);
      assert IsFreeExtent(sh[j + 1]);
    } else {
      SecondFree(sh[1..]);
      var j :| FirstWhere(sh[1..], IsFreeExtent).value < j < |sh[1..]| && IsFreeExtent(sh[1..][j]);
      assert IsFreeExtent(sh[j + 1]);
    }
  }

  lemma {:induction false} OneFree(sh: seq<Extent>)
    requires FreeCount(sh) >= 1
    ensures exists j :: 0 <= j < |sh| && IsFreeExtent(sh[j])
    decreases |sh|
  {
    if !IsFreeExtent(sh[0]) {
      OneFree(sh[1..]);
      var j :| 0 <= j < |sh[1..]| && IsFreeExtent(sh[1..][j]);
      assert IsFreeExtent(sh[j + 1]);
    }
  }

  /** With no equal neighbours and two free extents, a file extent follows
      the first free one, so a move step has both blocks it looks for and
      moves cells leftwards. */
  lemma MoveFileShapeDefined(sh: seq<Extent>)
    requires NoAdjacentEqual(sh) && FreeCount(sh) >= 2
    ensures MoveFileShape(sh).Some?
    ensures FirstWhere(sh, IsFreeExtent).value < LastWhere(sh, IsFileExtent).value
  {
    SecondFree(sh);
    var f := FirstWhere(sh, IsFreeExtent).value;
    assert f + 1 < |sh|;
    assert sh[f].id != sh[f + 1].id;
    assert IsFileExtent(sh[f + 1]);
  }

  // ---------------------------------------------------------------------------
  // compact_file

  /** main.py:88-91: move steps until at most one free extent is left; None
      where a step raises. */
  function CompactedShape(sh: seq<Extent>): Option<seq<Extent>>
    decreases Total(sh), |sh|
  {
    if FreeCount(sh) <= 1 then Some(sh)
    else match MoveFileShape(sh)
      case None => None
      case Some(t) => MoveFileShapeProgress(sh); CompactedShape(t)
  }

  /** compact_file ends with at most one free extent and the cells of every
      file id as they were; from a disk with no equal neighbours, as parsed,
      it never raises. */
  lemma {:induction false} CompactedShapeSpec(sh: seq<Extent>)
    ensures CompactedShape(sh).Some? ==> FreeCount(CompactedShape(sh).value) <= 1
    ensures CompactedShape(sh).Some? ==> forall x :: x != FREE_ID ==> CellCount(CompactedShape(sh).value, x) == CellCount(sh, x)
    ensures NoAdjacentEqual(sh) ==> CompactedShape(sh).Some?
    decreases Total(sh), |sh|
  {
    if FreeCount(sh) > 1 {
      if NoAdjacentEqual(sh) {
        MoveFileShapeDefined(sh);
      }
      if MoveFileShape(sh).Some? {
        MoveFileShapeProgress(sh);
        CompactedShapeSpec(MoveFileShape(sh).value);
      }
    }
  }

  /** The disk parse_file builds from the disk map "0102030": four empty
      files between free runs of 1, 2 and 3 cells, and the trailing empty
      free block. */
  function EmptyFilesDisk(): seq<Extent>
  {
    [Extent(0, 0), Extent(FREE_ID, 1), Extent(1, 0), Extent(FREE_ID, 2),
     Extent(2, 0), Extent(FREE_ID, 3), Extent(3, 0), Extent(FREE_ID, 0)]
  }

  /** The edits of the first move step on that disk: an empty copy of the
      last file goes before the first free extent. */
  function EmptyFilesEdited(): seq<Extent>
  {
    [Extent(0, 0), Extent(3, 0), Extent(FREE_ID, 1), Extent(1, 0), Extent(FREE_ID, 2),
     Extent(2, 0), Extent(FREE_ID, 3), Extent(3, 0), Extent(FREE_ID, 0)]
  }

  /** The first move step on that disk takes the free extent at 1 and the
      file extent at 6, and moves nothing. */
  lemma EmptyFilesDiskEnds()
    ensures FirstWhere(EmptyFilesDisk(), IsFreeExtent) == Some(1)
    ensures LastWhere(EmptyFilesDisk(), IsFileExtent) == Some(6)
    ensures MoveCells(EmptyFilesDisk(), 1, 6) == EmptyFilesEdited()
  {
  }

  /** Cleaning the edited disk leaves three free extents in a row. */
  lemma EmptyFilesCleaned()
    ensures Cleaned(EmptyFilesEdited()) == ThreeFree()
  {
    var v := EmptyFilesEdited();
    assert v == [v[0], v[1]] + ([v[2]] + [v[3]] + [v[4]] + [v[5]] + [v[6]]) + [v[7], v[8]];
    CleanedAppend([v[0], v[1]], [v[2]] + [v[3]] + [v[4]] + [v[5]] + [v[6]] + [v[7], v[8]]);
    assert [v[2]] + [v[3]] + [v[4]] + [v[5]] + [v[6]] + [v[7], v[8]] == [v[2], v[3], v[4], v[5], v[6], v[7], v[8]];
  }

  /** The consolidation as written then leaves two free extents and no
      file, so the next round of compact_file finds no file block and
      raises StopIteration; with the intended consolidation the step leaves
      a single free extent and compact_file stops there. */
  lemma EmptyFilesDiskRaises()
    ensures var r := ConsolidatedAsWritten(Cleaned(MoveCells(EmptyFilesDisk(), 1, 6)));
      FreeCount(r) == 2 && MoveFileShape(r).None?
    ensures MoveFileShape(EmptyFilesDisk()) == Some([Extent(FREE_ID, 6)])
  {
    EmptyFilesDiskEnds();
    EmptyFilesCleaned();
    AsWrittenLeavesAdjacentFree();
    var r := [Extent(FREE_ID, 3), Extent(FREE_ID, 3)];
    assert r[1..][1..] == [];
    assert forall j :: 0 <= j < |r| ==> !IsFileExtent(r[j]);
  }

  /** A disk whose move step leaves at most one free extent compacts in
      that one step. */
  lemma CompactsInOneStep(sh: seq<Extent>, r: seq<Extent>)
    requires FreeCount(sh) > 1 && MoveFileShape(sh) == Some(r) && FreeCount(r) <= 1
    ensures CompactedShape(sh) == Some(r)
  {
    CompactedStep(sh);
  }

  /** So from that disk compact_file stops after one step, with one free
      extent of 6 cells. */
  lemma EmptyFilesDiskCompacts()
    ensures CompactedShape(EmptyFilesDisk()) == Some([Extent(FREE_ID, 6)])
  {
    EmptyFilesDiskRaises();
    EmptyFilesDiskFree();
    CompactsInOneStep(EmptyFilesDisk(), [Extent(FREE_ID, 6)]);
  }

  /** The disk has four free extents, one of them empty. */
  lemma EmptyFilesDiskFree()
    ensures FreeCount(EmptyFilesDisk()) == 4
  {
    var d := EmptyFilesDisk();
    FreeCountAppend(d[..4], d[4..]);
    assert d[..4] + d[4..] == d;
  }

  // ---------------------------------------------------------------------------
  // try_move_whole_file_step and compact_file_without_fragmentation

  function HasId(id: int): Extent -> bool
  {
    (e: Extent) => e.id == id
  }

  /** A free extent with room for n cells. */
  function Fits(n: nat): Extent -> bool
  {
    (e: Extent) => IsFreeExtent(e) && e.length >= n
  }

  /** The edits of moving the whole file at k into the free extent at j:
      a new extent with the file's id and length goes before j, j shrinks
      by that length, and the old file extent becomes free. */
  function MoveWhole(sh: seq<Extent>, j: nat, k: nat): (r: seq<Extent>)
    requires j < k < |sh| && sh[j].length >= sh[k].length
    ensures |r| == |sh| + 1
  {
    var n := sh[k].length;
    var t := sh[..j] + [Extent(sh[k].id, n)] + sh[j..];
    assert t[j + 1] == sh[j] && t[k + 1] == sh[k];
    var u := t[j + 1 := Extent(t[j + 1].id, t[j + 1].length - n)];
    u[k + 1 := Extent(FREE_ID, u[k + 1].length)]
  }

  /** main.py:70-85: the first extent with the id, if it has a free extent
      before it with room, is moved into the first such one; otherwise the
      disk stays as it is. None where no extent has the id, where
      find_block_by_id raises ValueError. */
  function TryMoveShape(sh: seq<Extent>, id: int): (r: Option<seq<Extent>>)
    ensures r.Some? <==> FirstWhere(sh, HasId(id)).Some?
  {
    match FirstWhere(sh, HasId(id))
    case None => None
    case Some(k) =>
      match FirstWhere(sh[..k], Fits(sh[k].length))
      case None => Some(sh)
      case Some(j) => Some(Consolidated(Cleaned(MoveWhole(sh, j, k))))
  }

  lemma MoveWholeCount(sh: seq<Extent>, j: nat, k: nat, x: int)
    requires j < k < |sh| && sh[j].length >= sh[k].length && IsFreeExtent(sh[j])
    ensures CellCount(MoveWhole(sh, j, k), x) == CellCount(sh, x)
    ensures Total(MoveWhole(sh, j, k)) == Total(sh)
  {
    var n := sh[k].length;
    var e := Extent(sh[k].id, n);
    var t := sh[..j] + [e] + sh[j..];
    assert t[j + 1] == sh[j] && t[k + 1] == sh[k];
    var ej := Extent(FREE_ID, sh[j].length - n);
    var u := t[j + 1 := ej];
    assert u[k + 1] == sh[k];
    var ek := Extent(FREE_ID, n);
    assert u[k + 1 := ek] == MoveWhole(sh, j, k);
    CountInsert(sh, j, e, x);
    CountUpdate(t, j + 1, ej, x);
    CountUpdate(u, k + 1, ek, x);
  }

  /** A whole-file move keeps the cells of every id, free space included,
      and the length of the disk. */
  lemma TryMoveShapeCounts(sh: seq<Extent>, id: int)
    requires TryMoveShape(sh, id).Some?
    ensures forall x :: CellCount(TryMoveShape(sh, id).value, x) == CellCount(sh, x)
    ensures Total(TryMoveShape(sh, id).value) == Total(sh)
  {
    var k := FirstWhere(sh, HasId(id)).value;
    var j := FirstWhere(sh[..k], Fits(sh[k].length));
    if j.Some? {
      var v := MoveWhole(sh, j.value, k);
      forall x {
        MoveWholeCount(sh, j.value, k, x);
      }
      CleanedCells(v);
      ConsolidatedFromCells(Cleaned(v), 0);
      SameCells(Consolidated(Cleaned(v)), v);
    }
  }

  /** The largest id of a file extent, if there is one. */
  function MaxFileId(sh: seq<Extent>): (r: Option<int>)
    ensures r.Some? ==> exists i :: 0 <= i < |sh| && IsFileExtent(sh[i]) && sh[i].id == r.value
    ensures r.Some? ==> forall i :: 0 <= i < |sh| && IsFileExtent(sh[i]) ==> sh[i].id <= r.value
    ensures r.None? ==> forall i :: 0 <= i < |sh| ==> !IsFileExtent(sh[i])
  {
    if sh == [] then None
    else
      var rest := MaxFileId(sh[..|sh| - 1]);
      var last := sh[|sh| - 1];
      if !IsFileExtent(last) then rest
      else if rest.None? || rest.value < last.id then Some(last.id)
      else rest
  }

  /** Whole-file moves for id, id - 1, ..., 0 in turn; None where one raises. */
  function CompactWholeFrom(sh: seq<Extent>, id: int): Option<seq<Extent>>
    decreases id + 1
  {
    if id < 0 then Some(sh)
    else match TryMoveShape(sh, id)
      case None => None
      case Some(t) => CompactWholeFrom(t, id - 1)
  }

  /** main.py:94-99: every id from the largest file id down to 0, once
      each; None where there is no file (max() of nothing) or a move raises. */
  function CompactWholeShape(sh: seq<Extent>): Option<seq<Extent>>
  {
    match MaxFileId(sh)
    case None => None
    case Some(m) => CompactWholeFrom(sh, m)
  }

  lemma {:induction false} CompactWholeFromCounts(sh: seq<Extent>, id: int)
    requires CompactWholeFrom(sh, id).Some?
    ensures forall x :: CellCount(CompactWholeFrom(sh, id).value, x) == CellCount(sh, x)
    ensures Total(CompactWholeFrom(sh, id).value) == Total(sh)
    decreases id + 1
  {
    if id >= 0 {
      TryMoveShapeCounts(sh, id);
      CompactWholeFromCounts(TryMoveShape(sh, id).value, id - 1);
    }
  }

  /** compact_file_without_fragmentation keeps the cells of every id and
      the length of the disk. */
  lemma CompactWholeShapeCounts(sh: seq<Extent>)
    requires CompactWholeShape(sh).Some?
    ensures forall x :: CellCount(CompactWholeShape(sh).value, x) == CellCount(sh, x)
    ensures Total(CompactWholeShape(sh).value) == Total(sh)
  {
    CompactWholeFromCounts(sh, MaxFileId(sh).value);
  }

  // ---------------------------------------------------------------------------
  // calc_checksum

  /** Position times id over the file cells, the first cell at position start. */
  function CellSum(cells: seq<int>, start: int): int
  {
    if cells == [] then 0 else (if cells[0] == FREE_ID then 0 else start * cells[0]) + CellSum(cells[1..], start + 1)
  }

  /** The checksum of a disk: position times id, summed over its file cells. */
  function Checksum(sh: seq<Extent>): int
  {
    CellSum(Cells(sh), 0)
  }

  /** `sum(range(lo, lo + n))` */
  function RangeSum(lo: int, n: nat): (s: int)
    ensures 2 * s == n * (2 * lo + n - 1)
    decreases n
  {
    if n == 0 then 0 else lo + RangeSum(lo + 1, n - 1)
  }

  lemma {:induction false} CellSumAppend(a: seq<int>, b: seq<int>, start: int)
    ensures CellSum(a + b, start) == CellSum(a, start) + CellSum(b, start + |a|)
    decreases |a|
  {
    if a == [] {
      assert a + b == b;
    } else {
      assert (a + b)[1..] == a[1..] + b;
      CellSumAppend(a[1..], b, start + 1);
    }
  }

  /** A block's cells contribute its id times the sum of its positions. */
  lemma {:induction false} CellSumRepeat(id: int, n: nat, start: int)
    ensures CellSum(Repeat(id, n), start) == if id == FREE_ID then 0 else id * RangeSum(start, n)
    decreases n
  {
    if n > 0 {
      CellSumRepeat(id, n - 1, start + 1);
      assert Repeat(id, n)[1..] == Repeat(id, n - 1);
    }
  }

  // ---------------------------------------------------------------------------
  // The operations of main.py on a Layout

  /** The first block whose extent satisfies p, following next from head,
      as the generators over `layout` in main.py do. */
  method FindFirst(layout: Layout, p: Extent -> bool) returns (r: Option<Block>, ghost k: nat)
    requires layout.Valid()
    ensures r.Some? <==> FirstWhere(layout.shape, p).Some?
    ensures r.Some? ==> k == FirstWhere(layout.shape, p).value && k < |layout.blocks| && layout.blocks[k] == r.value
  {
    var current := layout.head;
    ghost var i: nat := 0;
    while current != null
      invariant i <= |layout.blocks| && current == if i < |layout.blocks| then layout.blocks[i] else null
      invariant forall j :: 0 <= j < i ==> !p(layout.shape[j])
      decreases |layout.blocks| - i
    {
      if p(Extent(current.id, current.length)) {
        return Some(current), i;
      }
      current := current.next;
      i := i + 1;
    }
    return None, 0;
  }

  /** The last block whose extent satisfies p, following prev from tail,
      as the generators over `reversed(layout)` do. */
  method FindLast(layout: Layout, p: Extent -> bool) returns (r: Option<Block>, ghost k: nat)
    requires layout.Valid()
    ensures r.Some? <==> LastWhere(layout.shape, p).Some?
    ensures r.Some? ==> k == LastWhere(layout.shape, p).value && k < |layout.blocks| && layout.blocks[k] == r.value
  {
    var current := layout.tail;
    ghost var i: nat := |layout.blocks|;
    while current != null
      invariant i <= |layout.blocks| && current == if 0 < i then layout.blocks[i - 1] else null
      invariant forall j :: i <= j < |layout.blocks| ==> !p(layout.shape[j])
      decreases i
    {
      if p(Extent(current.id, current.length)) {
        return Some(current), i - 1;
      }
      current := current.prev;
      i := i - 1;
    }
    return None, 0;
  }

  /** `find_block_by_id`: the first block with the id; None where the
      source raises ValueError. */
  method FindBlockById(layout: Layout, id: int) returns (r: Option<Block>, ghost k: nat)
    requires layout.Valid()
    ensures r.Some? <==> exists j :: 0 <= j < |layout.shape| && layout.shape[j].id == id
    ensures r.Some? ==> k < |layout.blocks| && layout.blocks[k] == r.value && r.value.id == id
    ensures r.Some? ==> forall j :: 0 <= j < k ==> layout.shape[j].id != id
    ensures r.Some? ==> k == FirstWhere(layout.shape, HasId(id)).value
  {
    r, k := FindFirst(layout, HasId(id));
  }

  /** `is_compacted`: at most one free block. */
  method IsCompacted(layout: Layout) returns (b: bool)
    requires layout.Valid()
    ensures b == (FreeCount(layout.shape) <= 1)
  {
    var count := 0;
    var current := layout.head;
    ghost var i: nat := 0;
    while current != null
      invariant i <= |layout.blocks| && current == if i < |layout.blocks| then layout.blocks[i] else null
      invariant count + FreeCount(layout.shape[i..]) == FreeCount(layout.shape)
      decreases |layout.blocks| - i
    {
      assert layout.shape[i..][1..] == layout.shape[i + 1..];
      if current.IsFree() {
        count := count + 1;
      }
      current := current.next;
      i := i + 1;
    }
    b := count <= 1;
  }

  /** `max(block.id for block in layout if not block.is_free())`; None
      where there is no file block and max() raises ValueError. */
  method FindMaxFileId(layout: Layout) returns (r: Option<int>)
    requires layout.Valid()
    ensures r == MaxFileId(layout.shape)
  {
    r := None;
    var current := layout.head;
    ghost var i: nat := 0;
    while current != null
      invariant i <= |layout.blocks| && current == if i < |layout.blocks| then layout.blocks[i] else null
      invariant r == MaxFileId(layout.shape[..i])
      decreases |layout.blocks| - i
    {
      assert layout.shape[..i + 1][..i] == layout.shape[..i];
      if !current.IsFree() && (r.None? || r.value < current.id) {
        r := Some(current.id);
      }
      current := current.next;
      i := i + 1;
    }
    assert layout.shape[..i] == layout.shape;
  }

  /** `calc_checksum`: each file block adds its id times the sum of the
      positions it covers. */
  method CalcChecksum(layout: Layout) returns (checksum: int)
    requires layout.Valid()
    ensures checksum == Checksum(layout.shape)
  {
    var idx := 0;
    checksum := 0;
    var current := layout.head;
    ghost var i: nat := 0;
    while current != null
      invariant i <= |layout.blocks| && current == if i < |layout.blocks| then layout.blocks[i] else null
      invariant checksum + CellSum(Cells(layout.shape[i..]), idx) == Checksum(layout.shape)
      decreases |layout.blocks| - i
    {
      assert layout.shape[i..][1..] == layout.shape[i + 1..];
      CellSumAppend(Repeat(current.id, current.length), Cells(layout.shape[i + 1..]), idx);
      CellSumRepeat(current.id, current.length, idx);
      if !current.IsFree() {
        checksum := checksum + current.id * RangeSum(idx, current.length);
      }
      idx := idx + current.length;
      current := current.next;
      i := i + 1;
    }
  }

  /** One step of the cleaning walk: the extent at j of the original disk
      sits at position i of the current one, and is dropped or kept. */
  lemma CleanStep(sh0: seq<Extent>, j: nat, sh: seq<Extent>)
    requires j < |sh0| && sh == Cleaned(sh0[..j]) + sh0[j..]
    ensures var i := |Cleaned(sh0[..j])|;
      && i < |sh| && sh[i] == sh0[j]
      && (sh0[j].length == 0 ==> sh[..i] + sh[i + 1..] == Cleaned(sh0[..j + 1]) + sh0[j + 1..] && |Cleaned(sh0[..j + 1])| == i)
      && (sh0[j].length != 0 ==> sh == Cleaned(sh0[..j + 1]) + sh0[j + 1..] && |Cleaned(sh0[..j + 1])| == i + 1)
  {
    var c := Cleaned(sh0[..j]);
    assert sh0[..j + 1] == sh0[..j] + [sh0[j]];
    CleanedAppend(sh0[..j], [sh0[j]]);
    assert [sh0[j]][1..] == [];
    assert sh0[j..] == [sh0[j]] + sh0[j + 1..];
    if sh0[j].length == 0 {
      assert sh[..|c|] == c && sh[|c| + 1..] == sh0[j + 1..];
    } else {
      assert Cleaned(sh0[..j + 1]) == c + [sh0[j]];
    }
  }

  /** What is left of a list after one block is removed was in it. */
  lemma RemovedMembers(b0: seq<Block>, k: nat, nb: seq<Block>)
    requires k < |b0| && nb == b0[..k] + b0[k + 1..]
    ensures k < |b0| - 1 ==> nb[k] == b0[k + 1]
    ensures forall j :: 0 <= j < |nb| ==> nb[j] in b0
  {
    forall j | 0 <= j < |nb| ensures nb[j] in b0 {
      if j < k { assert nb[j] == b0[j]; } else { assert nb[j] == b0[j + 1]; }
    }
  }

  /** One step of `clean_empty_blocks`, at the block for extent j of the
      original disk sh0: it leaves the list if it is empty, and the walk goes
      on with the block that followed it. */
  method DropIfEmpty(layout: Layout, current: Block, ghost sh0: seq<Extent>, ghost j: nat) returns (nextBlock: Block?)
    requires layout.Valid() && j < |sh0| && layout.shape == Cleaned(sh0[..j]) + sh0[j..]
    requires var i := |Cleaned(sh0[..j])|; i < |layout.blocks| && layout.blocks[i] == current
    modifies layout, layout.blocks
    ensures layout.Valid() && layout.shape == Cleaned(sh0[..j + 1]) + sh0[j + 1..]
    ensures var i := |Cleaned(sh0[..j + 1])|;
      nextBlock == if i < |layout.blocks| then layout.blocks[i] else null
    ensures forall k :: 0 <= k < |layout.blocks| ==> layout.blocks[k] in old(layout.blocks)
  {
    ghost var i := |Cleaned(sh0[..j])|;
    CleanStep(sh0, j, layout.shape);
    nextBlock := current.next;
    assert current.id == layout.shape[i].id && current.length == sh0[j].length;
    if current.length == 0 {
      ghost var b := layout.blocks;
      layout.Remove(current, i);
      RemovedMembers(b, i, layout.blocks);
    }
  }

  /** `clean_empty_blocks`: every block of length 0 is removed. */
  method CleanEmptyBlocks(layout: Layout)
    requires layout.Valid()
    modifies layout, layout.blocks
    ensures layout.Valid() && layout.shape == Cleaned(old(layout.shape))
    ensures forall j :: 0 <= j < |layout.blocks| ==> layout.blocks[j] in old(layout.blocks)
  {
    ghost var sh0 := layout.shape;
    var current := layout.head;
    ghost var j: nat := 0;
    while current != null
      invariant layout.Valid()
      invariant j <= |sh0| && layout.shape == Cleaned(sh0[..j]) + sh0[j..]
      invariant var i := |Cleaned(sh0[..j])|;
        current == if i < |layout.blocks| then layout.blocks[i] else null
      invariant forall k :: 0 <= k < |layout.blocks| ==> layout.blocks[k] in old(layout.blocks)
      decreases |sh0| - j
    {
      current := DropIfEmpty(layout, current, sh0, j);
      j := j + 1;
    }
    assert sh0[..j] == sh0;
  }

  /** The merge step of `consolidate_space`: the block at i takes over the
      length of the block after it, which leaves the list. */
  method MergeWithNext(layout: Layout, current: Block, ghost i: nat)
    requires layout.Valid() && i + 1 < |layout.blocks| && layout.blocks[i] == current
    modifies layout, layout.blocks
    ensures layout.Valid()
    ensures layout.blocks == old(layout.blocks[..i + 1] + layout.blocks[i + 2..])
    ensures layout.shape == Merged(old(layout.shape), i)
  {
    ghost var sh := layout.shape;
    var nextBlock := current.next;
    layout.SetLength(current, i, current.length + nextBlock.length);
    layout.Remove(nextBlock, i + 1);
    assert layout.shape == Merged(sh, i);
  }

  /** `consolidate_space` as intended: neighbouring blocks with one id are
      merged, and the walk stays on the merged block. */
  method ConsolidateSpace(layout: Layout)
    requires layout.Valid()
    modifies layout, layout.blocks
    ensures layout.Valid() && layout.shape == Consolidated(old(layout.shape))
    ensures forall j :: 0 <= j < |layout.blocks| ==> layout.blocks[j] in old(layout.blocks)
  {
    var current := layout.head;
    ghost var i: nat := 0;
    while current != null && current.next != null
      invariant layout.Valid()
      invariant i <= |layout.blocks| && current == if i < |layout.blocks| then layout.blocks[i] else null
      invariant ConsolidatedFrom(layout.shape, i) == Consolidated(old(layout.shape))
      invariant forall j :: 0 <= j < |layout.blocks| ==> layout.blocks[j] in old(layout.blocks)
      decreases |layout.blocks| - i
    {
      if current.id == current.next.id {
        MergeWithNext(layout, current, i);
      } else {
        current := current.next;
        i := i + 1;
      }
    }
  }

  /** `consolidate_space` as main.py:18-27 writes it: after a merge the walk
      moves on to the block after the merged one. */
  method ConsolidateSpaceAsWritten(layout: Layout)
    requires layout.Valid()
    modifies layout, layout.blocks
    ensures layout.Valid() && layout.shape == ConsolidatedAsWritten(old(layout.shape))
    ensures forall j :: 0 <= j < |layout.blocks| ==> layout.blocks[j] in old(layout.blocks)
  {
    var current := layout.head;
    ghost var i: nat := 0;
    while current != null && current.next != null
      invariant layout.Valid()
      invariant i <= |layout.blocks| && current == if i < |layout.blocks| then layout.blocks[i] else null
      invariant ConsolidatedAsWrittenFrom(layout.shape, i) == ConsolidatedAsWritten(old(layout.shape))
      invariant forall j :: 0 <= j < |layout.blocks| ==> layout.blocks[j] in old(layout.blocks)
      decreases |layout.blocks| - i
    {
      if current.id == current.next.id {
        MergeWithNext(layout, current, i);
        assert layout.blocks[i] == current;
        current := current.next;
        i := i + 1;
      } else {
        current := current.next;
        i := i + 1;
      }
    }
  }

  /** The three edits of a move step, one after the other, give MoveCells. */
  lemma MoveCellsByEdits(sh: seq<Extent>, f: nat, g: nat, m: nat, t: seq<Extent>, u: seq<Extent>, v: seq<Extent>)
    requires f < |sh| && g < |sh| && f != g && m == Min(sh[f].length, sh[g].length)
    requires t == sh[..f] + [Extent(sh[g].id, m)] + sh[f..]
    requires var g1 := if g < f then g else g + 1;
      u == t[g1 := Extent(t[g1].id, sh[g].length - m)]
    requires v == u[f + 1 := Extent(u[f + 1].id, sh[f].length - m)]
    ensures v == MoveCells(sh, f, g)
  {
    var g1 := if g < f then g else g + 1;
    assert t[g1] == sh[g] && t[f + 1] == sh[f] && u[f + 1] == sh[f];
  }

  /** Where the blocks of a list go when one is inserted at f. */
  lemma InsertedMembers(b0: seq<Block>, f: nat, x: Block, nb: seq<Block>, g: nat)
    requires f < |b0| && g < |b0| && nb == b0[..f] + [x] + b0[f..]
    ensures nb[f + 1] == b0[f] && nb[if g < f then g else g + 1] == b0[g]
    ensures forall j :: 0 <= j < |nb| ==> nb[j] in b0 || nb[j] == x
  {
    forall j | 0 <= j < |nb| ensures nb[j] in b0 || nb[j] == x {
      if j < f { assert nb[j] == b0[j]; } else if j > f { assert nb[j] == b0[j - 1]; }
    }
  }

  /** A new block (id, len) goes before the block at k; the blocks at k
      and at g move up by one where they come after it. */
  method InsertCopy(layout: Layout, ref: Block, ghost k: nat, id: int, len: nat, ghost g: nat)
    requires layout.Valid() && k < |layout.blocks| && g < |layout.blocks| && layout.blocks[k] == ref
    modifies layout, ref, ref.prev
    ensures layout.Valid()
    ensures layout.shape == old(layout.shape[..k] + [Extent(id, len)] + layout.shape[k..])
    ensures |layout.blocks| == old(|layout.blocks|) + 1
    ensures layout.blocks[k + 1] == old(layout.blocks[k])
    ensures layout.blocks[if g < k then g else g + 1] == old(layout.blocks[g])
    ensures forall j :: 0 <= j < |layout.blocks| ==> layout.blocks[j] in old(layout.blocks) || fresh(layout.blocks[j])
  {
    ghost var b0 := layout.blocks;
    var newBlock := new Block(id, len);
    layout.InsertBefore(ref, newBlock, k);
    InsertedMembers(b0, k, newBlock, layout.blocks, g);
  }

  /** Two blocks get new lengths, one after the other. */
  method SetLengths(layout: Layout, a: Block, ghost i: nat, la: nat, b: Block, ghost j: nat, lb: nat)
    requires layout.Valid() && i < |layout.blocks| && j < |layout.blocks|
    requires layout.blocks[i] == a && layout.blocks[j] == b
    modifies layout, a, b
    ensures layout.Valid() && layout.blocks == old(layout.blocks)
    ensures var u := old(layout.shape[i := Extent(layout.shape[i].id, la)]);
      layout.shape == u[j := Extent(u[j].id, lb)]
  {
    layout.SetLength(a, i, la);
    layout.SetLength(b, j, lb);
  }

  /** The edits of `move_file_step` before cleaning: the free block at f
      and the file block at g each give up min of their lengths to a new
      block with the file's id, inserted before the free block. */
  method MoveCellsStep(layout: Layout, fb: Block, ghost f: nat, gb: Block, ghost g: nat)
    requires layout.Valid() && f < |layout.blocks| && g < |layout.blocks| && f != g
    requires layout.blocks[f] == fb && layout.blocks[g] == gb
    modifies layout, layout.blocks
    ensures layout.Valid() && layout.shape == MoveCells(old(layout.shape), f, g)
    ensures forall j :: 0 <= j < |layout.blocks| ==> layout.blocks[j] in old(layout.blocks) || fresh(layout.blocks[j])
  {
    ghost var sh0 := layout.shape;
    var fl, gl, gid := fb.length, gb.length, gb.id;
    assert fb.id == sh0[f].id && fl == sh0[f].length;
    assert gid == sh0[g].id && gl == sh0[g].length;
    var m := Min(fl, gl);
    ghost var g1 := if g < f then g else g + 1;
    InsertCopy(layout, fb, f, gid, m, g);
    ghost var t := layout.shape;
    SetLengths(layout, gb, g1, gl - m, fb, f + 1, fl - m);
    MoveCellsByEdits(sh0, f, g, m, t, t[g1 := Extent(t[g1].id, gl - m)], layout.shape);
  }

  /** The edits of a move step followed by `clean_empty_blocks` and
      `consolidate_space`. */
  method MoveAndTidy(layout: Layout, fb: Block, ghost f: nat, gb: Block, ghost g: nat)
    requires layout.Valid() && f < |layout.blocks| && g < |layout.blocks| && f != g
    requires layout.blocks[f] == fb && layout.blocks[g] == gb
    modifies layout, layout.blocks
    ensures layout.Valid() && layout.shape == Consolidated(Cleaned(MoveCells(old(layout.shape), f, g)))
    ensures forall j :: 0 <= j < |layout.blocks| ==> layout.blocks[j] in old(layout.blocks) || fresh(layout.blocks[j])
  {
    MoveCellsStep(layout, fb, f, gb, g);
    CleanEmptyBlocks(layout);
    ConsolidateSpace(layout);
  }

  /** `move_file_step`: cells of the rightmost file block go into a new
      block before the leftmost free block, then the list is cleaned and
      consolidated. false where either block is missing and the source's
      `next()` raises StopIteration; the list is then untouched. */
  method MoveFileStep(layout: Layout) returns (ok: bool)
    requires layout.Valid()
    modifies layout, layout.blocks
    ensures layout.Valid()
    ensures ok == MoveFileShape(old(layout.shape)).Some?
    ensures ok ==> layout.shape == MoveFileShape(old(layout.shape)).value
    ensures !ok ==> layout.shape == old(layout.shape)
    ensures forall j :: 0 <= j < |layout.blocks| ==> layout.blocks[j] in old(layout.blocks) || fresh(layout.blocks[j])
  {
    ghost var sh0 := layout.shape;
    var freeBlock, f := FindFirst(layout, IsFreeExtent);
    var fileBlock, g := FindLast(layout, IsFileExtent);
    if freeBlock.None? || fileBlock.None? {
      return false;
    }
    assert f != g by {
      assert IsFreeExtent(sh0[f]) && IsFileExtent(sh0[g]);
    }
    MoveAndTidy(layout, freeBlock.value, f, fileBlock.value, g);
    return true;
  }

  /** The three edits of a whole-file move, one after the other, give
      MoveWhole. */
  lemma MoveWholeByEdits(sh: seq<Extent>, j: nat, k: nat, t: seq<Extent>, u: seq<Extent>, v: seq<Extent>)
    requires j < k < |sh| && sh[j].length >= sh[k].length
    requires t == sh[..j] + [Extent(sh[k].id, sh[k].length)] + sh[j..]
    requires u == t[j + 1 := Extent(t[j + 1].id, sh[j].length - sh[k].length)]
    requires v == u[k + 1 := Extent(FREE_ID, u[k + 1].length)]
    ensures v == MoveWhole(sh, j, k)
  {
    assert t[j + 1] == sh[j] && t[k + 1] == sh[k];
  }

  /** One block gets a new length, then another becomes free. */
  method ShrinkAndFree(layout: Layout, a: Block, ghost i: nat, la: nat, b: Block, ghost j: nat)
    requires layout.Valid() && i < |layout.blocks| && j < |layout.blocks|
    requires layout.blocks[i] == a && layout.blocks[j] == b
    modifies layout, a, b
    ensures layout.Valid() && layout.blocks == old(layout.blocks)
    ensures var u := old(layout.shape[i := Extent(layout.shape[i].id, la)]);
      layout.shape == u[j := Extent(FREE_ID, u[j].length)]
  {
    layout.SetLength(a, i, la);
    layout.Free(b, j);
  }

  /** The edits of `try_move_whole_file_step` before cleaning: a copy of
      the file block at k goes before the free block at j, which shrinks by
      its length, and the file block is freed. */
  method MoveWholeStep(layout: Layout, jb: Block, ghost j: nat, kb: Block, ghost k: nat)
    requires layout.Valid() && j < k < |layout.blocks|
    requires layout.blocks[j] == jb && layout.blocks[k] == kb
    requires layout.shape[j].length >= layout.shape[k].length
    modifies layout, layout.blocks
    ensures layout.Valid() && layout.shape == MoveWhole(old(layout.shape), j, k)
    ensures forall i :: 0 <= i < |layout.blocks| ==> layout.blocks[i] in old(layout.blocks) || fresh(layout.blocks[i])
  {
    ghost var sh0 := layout.shape;
    var jl, n, kid := jb.length, kb.length, kb.id;
    assert jb.id == sh0[j].id && jl == sh0[j].length;
    assert kid == sh0[k].id && n == sh0[k].length;
    InsertCopy(layout, jb, j, kid, n, k);
    ghost var t := layout.shape;
    ShrinkAndFree(layout, jb, j + 1, jl - n, kb, k + 1);
    MoveWholeByEdits(sh0, j, k, t, t[j + 1 := Extent(t[j + 1].id, jl - n)], layout.shape);
  }

  /** The edits of a whole-file move followed by `clean_empty_blocks` and
      `consolidate_space`. */
  method MoveWholeAndTidy(layout: Layout, jb: Block, ghost j: nat, kb: Block, ghost k: nat)
    requires layout.Valid() && j < k < |layout.blocks|
    requires layout.blocks[j] == jb && layout.blocks[k] == kb
    requires layout.shape[j].length >= layout.shape[k].length
    modifies layout, layout.blocks
    ensures layout.Valid() && layout.shape == Consolidated(Cleaned(MoveWhole(old(layout.shape), j, k)))
    ensures forall i :: 0 <= i < |layout.blocks| ==> layout.blocks[i] in old(layout.blocks) || fresh(layout.blocks[i])
  {
    MoveWholeStep(layout, jb, j, kb, k);
    CleanEmptyBlocks(layout);
    ConsolidateSpace(layout);
  }

  /** The walk of `try_move_whole_file_step` from head: it stops at the
      file block at k, or earlier at the first free block with room for it. */
  method FindFit(layout: Layout, fileBlock: Block, ghost k: nat) returns (r: Option<Block>, ghost i: nat)
    requires layout.Valid() && k < |layout.blocks| && layout.blocks[k] == fileBlock
    ensures r == None <==> FirstWhere(layout.shape[..k], Fits(layout.shape[k].length)).None?
    ensures r.Some? ==> (i == FirstWhere(layout.shape[..k], Fits(layout.shape[k].length)).value
      && i < k && layout.blocks[i] == r.value)
  {
    ghost var sh := layout.shape;
    assert fileBlock.id == sh[k].id && fileBlock.length == sh[k].length;
    var current := layout.head;
    i := 0;
    while current != fileBlock && !(current.IsFree() && current.length >= fileBlock.length)
      invariant i <= k && current == layout.blocks[i]
      invariant forall j :: 0 <= j < i ==> !Fits(sh[k].length)(sh[j])
      decreases k - i
    {
      assert current.id == sh[i].id && current.length == sh[i].length;
      current := current.next;
      i := i + 1;
    }
    if current != fileBlock {
      assert current.id == sh[i].id && current.length == sh[i].length;
      assert FirstWhere(sh[..k], Fits(sh[k].length)) == Some(i);
      r := Some(current);
    } else {
      assert i == k;
      assert FirstWhere(sh[..k], Fits(sh[k].length)).None?;
      r := None;
    }
  }

  /** `try_move_whole_file_step`: the file with the id moves into the first
      free block before it with room for it, if there is one. false where
      no block has the id and find_block_by_id raises ValueError; the list
      is then untouched. */
  method TryMoveWholeFileStep(layout: Layout, fileId: int) returns (ok: bool)
    requires layout.Valid()
    modifies layout, layout.blocks
    ensures layout.Valid()
    ensures ok == TryMoveShape(old(layout.shape), fileId).Some?
    ensures ok ==> layout.shape == TryMoveShape(old(layout.shape), fileId).value
    ensures !ok ==> layout.shape == old(layout.shape)
    ensures forall i :: 0 <= i < |layout.blocks| ==> layout.blocks[i] in old(layout.blocks) || fresh(layout.blocks[i])
  {
    var found, k := FindBlockById(layout, fileId);
    ok := found.Some?;
    if ok {
      var target, j := FindFit(layout, found.value, k);
      if target.Some? {
        MoveWholeAndTidy(layout, target.value, j, found.value, k);
      }
    }
  }

  /** One round of compact_file: a disk with two free extents compacts as
      the disk after its move step does, which is smaller. */
  lemma CompactedStep(sh: seq<Extent>)
    requires FreeCount(sh) > 1
    ensures MoveFileShape(sh).None? ==> CompactedShape(sh).None?
    ensures MoveFileShape(sh).Some? ==> var r := MoveFileShape(sh).value;
      && CompactedShape(sh) == CompactedShape(r)
      && (Total(r) < Total(sh) || (Total(r) == Total(sh) && |r| < |sh|))
  {
    if MoveFileShape(sh).Some? {
      MoveFileShapeProgress(sh);
    }
  }

  /** One round of the loop in `compact_file`, on a disk with two free
      blocks: a move step, then `is_compacted`. */
  method CompactRound(layout: Layout) returns (stepped: bool, done: bool)
    requires layout.Valid() && FreeCount(layout.shape) > 1
    modifies layout, layout.blocks
    ensures layout.Valid()
    ensures !stepped ==> CompactedShape(old(layout.shape)).None?
    ensures stepped ==> CompactedShape(layout.shape) == CompactedShape(old(layout.shape))
    ensures stepped ==> (Total(layout.shape) < old(Total(layout.shape))
      || (Total(layout.shape) == old(Total(layout.shape)) && |layout.shape| < old(|layout.shape|)))
    ensures done == (FreeCount(layout.shape) <= 1)
    ensures forall i :: 0 <= i < |layout.blocks| ==> layout.blocks[i] in old(layout.blocks) || fresh(layout.blocks[i])
  {
    CompactedStep(layout.shape);
    stepped := MoveFileStep(layout);
    done := IsCompacted(layout);
  }

  /** `compact_file`: move steps until at most one free block is left.
      false where a step raises StopIteration. */
  method CompactFile(layout: Layout) returns (ok: bool)
    requires layout.Valid()
    modifies layout, layout.blocks
    ensures layout.Valid()
    ensures ok == CompactedShape(old(layout.shape)).Some?
    ensures ok ==> layout.shape == CompactedShape(old(layout.shape)).value
  {
    ghost var sh0 := layout.shape;
    var done := IsCompacted(layout);
    ok := true;
    while ok && !done
      invariant layout.Valid()
      invariant ok ==> CompactedShape(layout.shape) == CompactedShape(sh0)
      invariant !ok ==> CompactedShape(sh0).None?
      invariant done == (FreeCount(layout.shape) <= 1)
      invariant forall i :: 0 <= i < |layout.blocks| ==> layout.blocks[i] in old(layout.blocks) || fresh(layout.blocks[i])
      decreases ok, Total(layout.shape), |layout.shape|
    {
      ok, done := CompactRound(layout);
    }
  }

  /** One round of compact_whole: the disk after the move for id goes on
      with id - 1. */
  lemma CompactWholeStep(sh: seq<Extent>, id: int)
    requires id >= 0
    ensures TryMoveShape(sh, id).None? ==> CompactWholeFrom(sh, id).None?
    ensures TryMoveShape(sh, id).Some? ==> CompactWholeFrom(sh, id) == CompactWholeFrom(TryMoveShape(sh, id).value, id - 1)
  {
  }

  /** One round of the loop in `compact_file_without_fragmentation`. */
  method WholeRound(layout: Layout, id: int) returns (ok: bool)
    requires layout.Valid() && id >= 0
    modifies layout, layout.blocks
    ensures layout.Valid()
    ensures !ok ==> CompactWholeFrom(old(layout.shape), id).None?
    ensures ok ==> CompactWholeFrom(layout.shape, id - 1) == CompactWholeFrom(old(layout.shape), id)
    ensures forall i :: 0 <= i < |layout.blocks| ==> layout.blocks[i] in old(layout.blocks) || fresh(layout.blocks[i])
  {
    CompactWholeStep(layout.shape, id);
    ok := TryMoveWholeFileStep(layout, id);
  }

  /** `compact_file_without_fragmentation`: a whole-file move for every id
      from the largest file id down to 0. false where there is no file
      block (max() raises ValueError) or a move raises. */
  method CompactFileWithoutFragmentation(layout: Layout) returns (ok: bool)
    requires layout.Valid()
    modifies layout, layout.blocks
    ensures layout.Valid()
    ensures ok == CompactWholeShape(old(layout.shape)).Some?
    ensures ok ==> layout.shape == CompactWholeShape(old(layout.shape)).value
  {
    ghost var sh0 := layout.shape;
    var maxId := FindMaxFileId(layout);
    ok := maxId.Some?;
    if ok {
      var id := maxId.value;
      while ok && id >= 0
        invariant layout.Valid()
        invariant ok ==> CompactWholeFrom(layout.shape, id) == CompactWholeShape(sh0)
        invariant !ok ==> CompactWholeShape(sh0).None?
        invariant forall i :: 0 <= i < |layout.blocks| ==> layout.blocks[i] in old(layout.blocks) || fresh(layout.blocks[i])
        decreases id + 1
      {
        ok := WholeRound(layout, id);
        id := id - 1;
      }
    }
  }
}
