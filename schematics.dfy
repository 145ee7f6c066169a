// Lock and key schematics: blocks of five-column lines separated by blank
// lines; a block whose first line is all '#' is a lock, one whose first line
// is all '.' a key, and its heights are the '#' counts per column minus one.
// A lock and a key fit when no column's heights add up to 6 or more
// (2024/day_25/src/main.rs).

module Schematics {
  import opened Basics

  const Columns := 5

  /** `[-1, -1, -1, -1, -1]` */
  const Unset: seq<int> := [-1, -1, -1, -1, -1]

  /** `s.chars().all(|x| x == c)`, true for the empty string. */
  predicate AllChar(s: string, c: char) {
    forall i :: 0 <= i < |s| ==> s[i] == c
  }

  /** next_row: 1 in every column whose character is '#'. */
  function Row(line: string): (r: seq<int>)
    requires |line| >= Columns
    ensures |r| == Columns
    ensures forall i :: 0 <= i < Columns ==> r[i] == if line[i] == '#' then 1 else 0
  {
    seq(Columns, i requires 0 <= i < Columns => if line[i] == '#' then 1 else 0)
  }

  function AddRow(current: seq<int>, row: seq<int>): (r: seq<int>)
    requires |current| == Columns && |row| == Columns
    ensures |r| == Columns && forall i :: 0 <= i < Columns ==> r[i] == current[i] + row[i]
  {
    seq(Columns, i requires 0 <= i < Columns => current[i] + row[i])
  }

  // ---------------------------------------------------------------------------
  // parse_file, as a fold over the lines

  /** The loop's state: the keys and locks pushed so far, current_data and the two flags. */
  datatype Scan = Scan(keys: seq<seq<int>>, locks: seq<seq<int>>, current: seq<int>, inKey: bool, inLock: bool)

  predicate WellFormed(st: Scan) {
    |st.current| == Columns && !(st.inKey && st.inLock)
  }

  const Start := Scan([], [], Unset, false, false)

  /** One iteration of the loop; None where `expect` panics on a short line. */
  function Step(st: Scan, line: string): (r: Option<Scan>)
    requires WellFormed(st)
    ensures r.Some? ==> WellFormed(r.value)
    ensures r.None? <==> Trim(line) != [] && |line| < Columns
  {
    var outside := !st.inKey && !st.inLock;
    var cur := if outside then Unset else st.current;
    var t := Trim(line);
    var inLock := st.inLock || (outside && AllChar(t, '#'));
    var inKey := st.inKey || (!st.inKey && !inLock && AllChar(t, '.'));
    if t == [] then
      var keys := if inKey then st.keys + [cur] else st.keys;
      var locks := if inLock then st.locks + [cur] else st.locks;
      Some(Scan(keys, locks, cur, false, false))
    else if |line| < Columns then None
    else Some(Scan(st.keys, st.locks, AddRow(cur, Row(line)), inKey, inLock))
  }

  function ParseFrom(st: Scan, lines: seq<string>): Option<Scan>
    requires WellFormed(st)
    decreases |lines|
  {
    if lines == [] then Some(st)
    else
      var next := Step(st, lines[0]);
      if next.None? then None else ParseFrom(next.value, lines[1..])
  }

  /** parse_file's result `(keys, locks)`. */
  function Output(r: Option<Scan>): Option<(seq<seq<int>>, seq<seq<int>>)> {
    if r.None? then None else Some((r.value.keys, r.value.locks))
  }

  /** parse_file over the lines of the file: `current_data` is a five-slot array
      updated in place. */
  method ParseFile(lines: seq<string>) returns (r: Option<(seq<seq<int>>, seq<seq<int>>)>)
    ensures r == Output(ParseFrom(Start, lines))
  {
    var keys: seq<seq<int>> := [];
    var locks: seq<seq<int>> := [];
    var current := new int[Columns](_ => -1);
    assert current[..] == Unset;
    var inKey, inLock := false, false;
    for n := 0 to |lines|
      invariant !(inKey && inLock)
      invariant ParseFrom(Scan(keys, locks, current[..], inKey, inLock), lines[n..]) == ParseFrom(Start, lines)
    {
      ghost var st := Scan(keys, locks, current[..], inKey, inLock);
      var ok;
      ok, keys, locks, inKey, inLock := FeedLine(lines[n], current, keys, locks, inKey, inLock);
      ParseFromStep(st, lines[n..]);
      assert lines[n..][0] == lines[n] && lines[n..][1..] == lines[n + 1..];
      if !ok {
        return None;
      }
    }
    assert lines[|lines|..] == [];
    r := Some((keys, locks));
  }

  /** next_row, or false where `expect` panics on a line shorter than five characters. */
  method NextRow(line: string) returns (ok: bool, nextRow: array<int>)
    ensures ok <==> |line| >= Columns
    ensures fresh(nextRow) && nextRow.Length == Columns
    ensures ok ==> nextRow[..] == Row(line)
  {
    nextRow := new int[Columns](_ => 0);
    for i := 0 to Columns
      invariant i <= |line|
      invariant forall j :: 0 <= j < i ==> nextRow[j] == if line[j] == '#' then 1 else 0
      invariant forall j :: i <= j < Columns ==> nextRow[j] == 0
    {
      if i >= |line| {
        return false, nextRow;
      }
      if line[i] == '#' {
        nextRow[i] := 1;
      }
    }
    ok := true;
  }

  /** `current_data[i] += next_row[i]` for every column. */
  method AddRowInto(current: array<int>, nextRow: array<int>)
    requires current.Length == Columns && nextRow.Length == Columns && current != nextRow
    modifies current
    ensures current[..] == AddRow(old(current[..]), nextRow[..])
  {
    for i := 0 to Columns
      invariant forall j :: 0 <= j < i ==> current[j] == old(current[j]) + nextRow[j]
      invariant forall j :: i <= j < Columns ==> current[j] == old(current[j])
    {
      current[i] := current[i] + nextRow[i];
    }
  }

  lemma ParseFromStep(st: Scan, lines: seq<string>)
    requires WellFormed(st) && lines != []
    ensures Step(st, lines[0]).None? ==> ParseFrom(st, lines).None?
    ensures Step(st, lines[0]).Some? ==> ParseFrom(st, lines) == ParseFrom(Step(st, lines[0]).value, lines[1..])
  {
  }

  /** The body of the loop for one line. */
  method FeedLine(line: string, current: array<int>, keys: seq<seq<int>>, locks: seq<seq<int>>, inKey: bool, inLock: bool)
    returns (ok: bool, keys': seq<seq<int>>, locks': seq<seq<int>>, inKey': bool, inLock': bool)
    requires current.Length == Columns && !(inKey && inLock)
    modifies current
    ensures ok <==> Step(Scan(keys, locks, old(current[..]), inKey, inLock), line).Some?
    ensures ok ==> Step(Scan(keys, locks, old(current[..]), inKey, inLock), line) == Some(Scan(keys', locks', current[..], inKey', inLock'))
  {
    ghost var st := Scan(keys, locks, current[..], inKey, inLock);
    keys', locks', inKey', inLock' := keys, locks, inKey, inLock;
    if !inKey' && !inLock' {
      current[0], current[1], current[2], current[3], current[4] := -1, -1, -1, -1, -1;
    }
    assert current[..] == if !inKey && !inLock then Unset else st.current;
    var t := Trim(line);
    if !inKey' && !inLock' && AllChar(t, '#') {
      inLock' := true;
    }
    if !inKey' && !inLock' && AllChar(t, '.') {
      inKey' := true;
    }
    if t == [] {
      if inKey' {
        keys' := keys' + [current[..]];
        inKey' := false;
      }
      if inLock' {
        locks' := locks' + [current[..]];
        inLock' := false;
      }
      return true, keys', locks', inKey', inLock';
    }
    var fits, nextRow := NextRow(line);
    if !fits {
      return false, keys', locks', inKey', inLock';
    }
    AddRowInto(current, nextRow);
    ok := true;
  }

  // ---------------------------------------------------------------------------
  // What parse_file computes for a well-formed file

  /** The number of lines with a '#' in column i. */
  function ColumnCount(block: seq<string>, i: nat): (n: nat)
    requires i < Columns && forall j :: 0 <= j < |block| ==> |block[j]| >= Columns
    ensures n <= |block|
  {
    if block == [] then 0 else (if block[0][i] == '#' then 1 else 0) + ColumnCount(block[1..], i)
  }

  /** The heights the program stores for a block: '#' count per column, minus one. */
  function Heights(block: seq<string>): (h: seq<int>)
    requires forall j :: 0 <= j < |block| ==> |block[j]| >= Columns
    ensures |h| == Columns
  {
    seq(Columns, i requires 0 <= i < Columns => ColumnCount(block, i) - 1)
  }

  /** A line inside a block: not blank, and at least five characters. */
  predicate BlockLine(line: string) {
    Trim(line) != [] && |line| >= Columns
  }

  predicate BlockLines(block: seq<string>) {
    forall j :: 0 <= j < |block| ==> BlockLine(block[j])
  }

  predicate IsLock(block: seq<string>) {
    block != [] && BlockLines(block) && AllChar(Trim(block[0]), '#')
  }

  predicate IsKey(block: seq<string>) {
    block != [] && BlockLines(block) && AllChar(Trim(block[0]), '.')
  }

  /** current_data after the lines of a block have been added to it. */
  function AddCounts(current: seq<int>, block: seq<string>): (r: seq<int>)
    requires |current| == Columns && BlockLines(block)
    ensures |r| == Columns
  {
    seq(Columns, i requires 0 <= i < Columns => current[i] + ColumnCount(block, i))
  }

  lemma AddCountsCons(current: seq<int>, block: seq<string>)
    requires |current| == Columns && BlockLines(block) && block != []
    ensures AddCounts(AddRow(current, Row(block[0])), block[1..]) == AddCounts(current, block)
  {
    var next := AddRow(current, Row(block[0]));
    forall i | 0 <= i < Columns
      ensures AddCounts(next, block[1..])[i] == AddCounts(current, block)[i]
    {
      assert ColumnCount(block, i) == Row(block[0])[i] + ColumnCount(block[1..], i);
    }
  }

  lemma AddCountsNone(current: seq<int>)
    requires |current| == Columns
    ensures AddCounts(current, []) == current
  {
  }

  lemma ParseFromCons(st: Scan, lines: seq<string>, next: Scan)
    requires WellFormed(st) && lines != [] && Step(st, lines[0]) == Some(next)
    ensures ParseFrom(st, lines) == ParseFrom(next, lines[1..])
  {
  }

  lemma StepInside(st: Scan, line: string)
    requires WellFormed(st) && (st.inKey || st.inLock) && BlockLine(line)
    ensures Step(st, line) == Some(st.(current := AddRow(st.current, Row(line))))
  {
  }

  lemma StepOpenLock(st: Scan, line: string)
    requires WellFormed(st) && !st.inKey && !st.inLock && BlockLine(line) && AllChar(Trim(line), '#')
    ensures Step(st, line) == Some(Scan(st.keys, st.locks, AddRow(Unset, Row(line)), false, true))
  {
  }

  lemma StepOpenKey(st: Scan, line: string)
    requires WellFormed(st) && !st.inKey && !st.inLock && BlockLine(line) && AllChar(Trim(line), '.')
    ensures Step(st, line) == Some(Scan(st.keys, st.locks, AddRow(Unset, Row(line)), true, false))
  {
    var t := Trim(line);
    assert !AllChar(t, '#') by {
      assert t[0] == '.';
    }
  }

  lemma StepClose(st: Scan)
    requires WellFormed(st)
    ensures st.inLock ==> Step(st, "") == Some(Scan(st.keys, st.locks + [st.current], st.current, false, false))
    ensures st.inKey ==> Step(st, "") == Some(Scan(st.keys + [st.current], st.locks, st.current, false, false))
  {
  }

  /** Inside a block, every line only adds its row. */
  lemma {:induction false} InsideBlock(st: Scan, block: seq<string>, rest: seq<string>)
    requires WellFormed(st) && (st.inKey || st.inLock) && BlockLines(block)
    ensures ParseFrom(st, block + rest) == ParseFrom(st.(current := AddCounts(st.current, block)), rest)
    decreases |block|
  {
    if block == [] {
      EmptyAppend(rest);
      AddCountsNone(st.current);
    } else {
      var line := block[0];
      var st' := st.(current := AddRow(st.current, Row(line)));
      StepInside(st, line);
      SplitHead(block, rest);
      ParseFromCons(st, block + rest, st');
      assert BlockLines(block[1..]) by {
        forall j | 0 <= j < |block| - 1 ensures BlockLine(block[1..][j]) {
          assert block[1..][j] == block[j + 1];
        }
      }
      InsideBlock(st', block[1..], rest);
      AddCountsCons(st.current, block);
      assert st'.(current := AddCounts(st'.current, block[1..])) == st.(current := AddCounts(st.current, block));
    }
  }

  /** Outside a block the loop starts from current_data reset, so what was there does not matter. */
  lemma OutsideIgnoresCurrent(st: Scan, c: seq<int>, lines: seq<string>)
    requires WellFormed(st) && !st.inKey && !st.inLock && |c| == Columns
    ensures Output(ParseFrom(st, lines)) == Output(ParseFrom(st.(current := c), lines))
  {
    if lines != [] {
      assert Step(st, lines[0]) == Step(st.(current := c), lines[0]);
    }
  }

  /** The block's lines, then the blank line that closes it. */
  lemma InsideThenClose(st: Scan, block: seq<string>, rest: seq<string>)
    requires WellFormed(st) && (st.inKey || st.inLock) && BlockLines(block)
    ensures var c := AddCounts(st.current, block);
      && (st.inLock ==> ParseFrom(st, block + [""] + rest) == ParseFrom(Scan(st.keys, st.locks + [c], c, false, false), rest))
      && (st.inKey ==> ParseFrom(st, block + [""] + rest) == ParseFrom(Scan(st.keys + [c], st.locks, c, false, false), rest))
  {
    assert block + [""] + rest == block + ([""] + rest);
    InsideBlock(st, block, [""] + rest);
    var st2 := st.(current := AddCounts(st.current, block));
    StepClose(st2);
    assert ([""] + rest)[0] == "" && ([""] + rest)[1..] == rest;
    if st.inLock {
      ParseFromCons(st2, [""] + rest, Scan(st.keys, st.locks + [st2.current], st2.current, false, false));
    } else {
      ParseFromCons(st2, [""] + rest, Scan(st.keys + [st2.current], st.locks, st2.current, false, false));
    }
  }

  lemma HeightsAreCounts(block: seq<string>)
    requires BlockLines(block)
    ensures AddCounts(Unset, block) == Heights(block)
  {
    forall i | 0 <= i < Columns ensures AddCounts(Unset, block)[i] == Heights(block)[i] {
      assert Unset[i] == -1;
    }
  }

  /** A lock block closed by a blank line is pushed onto locks with its heights. */
  lemma LockBlock(st: Scan, block: seq<string>, rest: seq<string>)
    requires WellFormed(st) && !st.inKey && !st.inLock && IsLock(block)
    ensures Output(ParseFrom(st, block + [""] + rest)) ==
      Output(ParseFrom(Scan(st.keys, st.locks + [Heights(block)], Unset, false, false), rest))
  {
    var first := Scan(st.keys, st.locks, AddRow(Unset, Row(block[0])), false, true);
    StepOpenLock(st, block[0]);
    OpenBlock(st, block, rest, first);
  }

  /** A key block closed by a blank line is pushed onto keys with its heights. */
  lemma KeyBlock(st: Scan, block: seq<string>, rest: seq<string>)
    requires WellFormed(st) && !st.inKey && !st.inLock && IsKey(block)
    ensures Output(ParseFrom(st, block + [""] + rest)) ==
      Output(ParseFrom(Scan(st.keys + [Heights(block)], st.locks, Unset, false, false), rest))
  {
    var first := Scan(st.keys, st.locks, AddRow(Unset, Row(block[0])), true, false);
    StepOpenKey(st, block[0]);
    OpenBlock(st, block, rest, first);
  }

  /** A block whose first line opens it, then its other lines, then the blank line. */
  lemma OpenBlock(st: Scan, block: seq<string>, rest: seq<string>, first: Scan)
    requires WellFormed(st) && block != [] && BlockLines(block)
    requires first.inKey != first.inLock && first.keys == st.keys && first.locks == st.locks
    requires first.current == AddRow(Unset, Row(block[0]))
    requires Step(st, block[0]) == Some(first)
    ensures first.inLock ==> (Output(ParseFrom(st, block + [""] + rest)) ==
      Output(ParseFrom(Scan(st.keys, st.locks + [Heights(block)], Unset, false, false), rest)))
    ensures first.inKey ==> (Output(ParseFrom(st, block + [""] + rest)) ==
      Output(ParseFrom(Scan(st.keys + [Heights(block)], st.locks, Unset, false, false), rest)))
  {
    var lines := block + [""] + rest;
    SplitFirst(block, [""], rest);
    ParseFromCons(st, lines, first);
    CloseOpened(first, block, rest);
  }

  /** After the opening line of a block: its other lines, then the blank line. */
  lemma CloseOpened(first: Scan, block: seq<string>, rest: seq<string>)
    requires block != [] && BlockLines(block) && first.inKey != first.inLock
    requires first.current == AddRow(Unset, Row(block[0]))
    ensures first.inLock ==> (Output(ParseFrom(first, block[1..] + [""] + rest)) ==
      Output(ParseFrom(Scan(first.keys, first.locks + [Heights(block)], Unset, false, false), rest)))
    ensures first.inKey ==> (Output(ParseFrom(first, block[1..] + [""] + rest)) ==
      Output(ParseFrom(Scan(first.keys + [Heights(block)], first.locks, Unset, false, false), rest)))
  {
    InsideThenClose(first, block[1..], rest);
    AddCountsCons(Unset, block);
    HeightsAreCounts(block);
    var h := Heights(block);
    if first.inLock {
      OutsideIgnoresCurrent(Scan(first.keys, first.locks + [h], Unset, false, false), h, rest);
    } else {
      OutsideIgnoresCurrent(Scan(first.keys + [h], first.locks, Unset, false, false), h, rest);
    }
  }

  /** The file laid out as blocks, each followed by a blank line. */
  function Render(blocks: seq<seq<string>>): seq<string> {
    if blocks == [] then [] else blocks[0] + [""] + Render(blocks[1..])
  }

  predicate Schematic(block: seq<string>) {
    IsLock(block) || IsKey(block)
  }

  function KeysOf(blocks: seq<seq<string>>): seq<seq<int>> {
    if blocks == [] then []
    else (if IsKey(blocks[0]) then [Heights(blocks[0])] else []) + KeysOf(blocks[1..])
  }

  function LocksOf(blocks: seq<seq<string>>): seq<seq<int>> {
    if blocks == [] then []
    else (if IsLock(blocks[0]) then [Heights(blocks[0])] else []) + LocksOf(blocks[1..])
  }

  /** The state after a block and its blank line: its heights pushed where they belong. */
  function After(st: Scan, block: seq<string>): Scan {
    if IsLock(block) then Scan(st.keys, st.locks + [Heights(block)], Unset, false, false)
    else if IsKey(block) then Scan(st.keys + [Heights(block)], st.locks, Unset, false, false)
    else st
  }

  lemma LockIsNotKey(block: seq<string>)
    requires IsLock(block)
    ensures !IsKey(block)
  {
    assert Trim(block[0])[0] == '#';
  }

  lemma BlockThen(st: Scan, block: seq<string>, rest: seq<string>)
    requires WellFormed(st) && !st.inKey && !st.inLock && Schematic(block)
    ensures Output(ParseFrom(st, block + [""] + rest)) == Output(ParseFrom(After(st, block), rest))
  {
    if IsLock(block) {
      LockBlock(st, block, rest);
    } else {
      KeyBlock(st, block, rest);
    }
  }

  lemma AfterCons(st: Scan, blocks: seq<seq<string>>)
    requires blocks != [] && Schematic(blocks[0])
    ensures After(st, blocks[0]).keys + KeysOf(blocks[1..]) == st.keys + KeysOf(blocks)
    ensures After(st, blocks[0]).locks + LocksOf(blocks[1..]) == st.locks + LocksOf(blocks)
  {
    var b := blocks[0];
    if IsLock(b) {
      LockIsNotKey(b);
      LockCons(st.locks, blocks);
      KeyCons(st.keys, blocks);
    } else {
      KeyIsNotLock(b);
      LockCons(st.locks, blocks);
      KeyCons(st.keys, blocks);
    }
  }

  lemma LockCons(locks: seq<seq<int>>, blocks: seq<seq<string>>)
    requires blocks != []
    ensures IsLock(blocks[0]) ==> locks + [Heights(blocks[0])] + LocksOf(blocks[1..]) == locks + LocksOf(blocks)
    ensures !IsLock(blocks[0]) ==> locks + LocksOf(blocks[1..]) == locks + LocksOf(blocks)
  {
    var rest := LocksOf(blocks[1..]);
    if IsLock(blocks[0]) {
      var h := Heights(blocks[0]);
      assert LocksOf(blocks) == [h] + rest;
      AppendAssoc(locks, [h], rest);
    } else {
      assert LocksOf(blocks) == [] + rest;
      EmptyAppend(rest);
    }
  }

  lemma KeyCons(keys: seq<seq<int>>, blocks: seq<seq<string>>)
    requires blocks != []
    ensures IsKey(blocks[0]) ==> keys + [Heights(blocks[0])] + KeysOf(blocks[1..]) == keys + KeysOf(blocks)
    ensures !IsKey(blocks[0]) ==> keys + KeysOf(blocks[1..]) == keys + KeysOf(blocks)
  {
    var rest := KeysOf(blocks[1..]);
    if IsKey(blocks[0]) {
      var h := Heights(blocks[0]);
      assert KeysOf(blocks) == [h] + rest;
      AppendAssoc(keys, [h], rest);
    } else {
      assert KeysOf(blocks) == [] + rest;
      EmptyAppend(rest);
    }
  }

  lemma {:induction false} ParseRenderedFrom(st: Scan, blocks: seq<seq<string>>)
    requires WellFormed(st) && !st.inKey && !st.inLock
    requires forall b :: 0 <= b < |blocks| ==> Schematic(blocks[b])
    ensures Output(ParseFrom(st, Render(blocks))) == Some((st.keys + KeysOf(blocks), st.locks + LocksOf(blocks)))
    decreases |blocks|
  {
    if blocks == [] {
      assert st.keys + [] == st.keys && st.locks + [] == st.locks;
    } else {
      var rest := Render(blocks[1..]);
      assert Render(blocks) == blocks[0] + [""] + rest;
      BlockThen(st, blocks[0], rest);
      ParseRenderedFrom(After(st, blocks[0]), blocks[1..]);
      AfterCons(st, blocks);
    }
  }

  /** A file of lock and key blocks, each closed by a blank line, yields their
      heights: keys and locks each in file order. */
  lemma ParseRendered(blocks: seq<seq<string>>)
    requires forall b :: 0 <= b < |blocks| ==> Schematic(blocks[b])
    ensures Output(ParseFrom(Start, Render(blocks))) == Some((KeysOf(blocks), LocksOf(blocks)))
  {
    ParseRenderedFrom(Start, blocks);
    assert [] + KeysOf(blocks) == KeysOf(blocks) && [] + LocksOf(blocks) == LocksOf(blocks);
  }

  /** A blank line outside a block passes the all-'#' test (the empty string
      has no other characters), so it pushes the reset array as a lock. */
  lemma BlankOutsideBlockIsLock(st: Scan)
    requires WellFormed(st) && !st.inKey && !st.inLock
    ensures Step(st, "") == Some(Scan(st.keys, st.locks + [Unset], Unset, false, false))
  {
  }

  /** Two blank lines between a lock and a key give a spurious lock
      [-1, -1, -1, -1, -1] between them. */
  lemma DoubleBlankLine(st: Scan, b1: seq<string>, b2: seq<string>)
    requires WellFormed(st) && !st.inKey && !st.inLock && IsLock(b1) && IsKey(b2)
    ensures Output(ParseFrom(st, b1 + [""] + [""] + b2 + [""])) ==
      Some((st.keys + [Heights(b2)], st.locks + [Heights(b1)] + [Unset]))
  {
    var tail := b2 + [""] + [];
    var rest := [""] + tail;
    Assoc5(b1, [""], [""], b2, [""]);
    BlockThen(st, b1, rest);
    var st1 := After(st, b1);
    BlankOutsideBlockIsLock(st1);
    var st2 := Scan(st1.keys, st1.locks + [Unset], Unset, false, false);
    ConsParts("", tail);
    ParseFromCons(st1, rest, st2);
    KeyIsNotLock(b2);
    BlockThen(st2, b2, []);
  }

  lemma KeyIsNotLock(block: seq<string>)
    requires IsKey(block)
    ensures !IsLock(block)
  {
    assert Trim(block[0])[0] == '.';
  }

  /** A block with no blank line after it is never pushed. */
  lemma {:induction false} UnclosedBlockDropped(st: Scan, block: seq<string>)
    requires WellFormed(st) && !st.inKey && !st.inLock && Schematic(block)
    ensures Output(ParseFrom(st, block)) == Some((st.keys, st.locks))
  {
    var first := Step(st, block[0]).value;
    assert first.keys == st.keys && first.locks == st.locks && (first.inKey || first.inLock);
    InsideBlock(first, block[1..], []);
    assert block[1..] + [] == block[1..];
  }

  // ---------------------------------------------------------------------------
  // check_fit and count_fitting_pairs

  /** check_fit: `lock.iter().zip(key.iter()).all(|(x, y)| x + y < 6)`. */
  function CheckFit(lock: seq<int>, key: seq<int>): bool {
    if lock == [] || key == [] then true else lock[0] + key[0] < 6 && CheckFit(lock[1..], key[1..])
  }

  /** A lock fits a key exactly when no column overlaps. */
  lemma {:induction false} CheckFitIff(lock: seq<int>, key: seq<int>)
    requires |lock| == |key|
    ensures CheckFit(lock, key) <==> forall i :: 0 <= i < |lock| ==> lock[i] + key[i] < 6
    decreases |lock|
  {
    if lock != [] {
      CheckFitIff(lock[1..], key[1..]);
      assert forall i :: 1 <= i < |lock| ==> lock[1..][i - 1] == lock[i] && key[1..][i - 1] == key[i];
    }
  }

  lemma CheckFitExamples()
    ensures !CheckFit([0, 5, 3, 4, 3], [5, 0, 2, 1, 3])
    ensures !CheckFit([0, 5, 3, 4, 3], [4, 3, 4, 0, 2])
    ensures CheckFit([0, 5, 3, 4, 3], [3, 0, 2, 0, 1])
    ensures !CheckFit([1, 2, 0, 5, 3], [5, 0, 2, 1, 3])
    ensures CheckFit([1, 2, 0, 5, 3], [4, 3, 4, 0, 2])
    ensures CheckFit([1, 2, 0, 5, 3], [3, 0, 2, 0, 1])
  {
    CheckFitIff([0, 5, 3, 4, 3], [5, 0, 2, 1, 3]);
    CheckFitIff([0, 5, 3, 4, 3], [4, 3, 4, 0, 2]);
    CheckFitIff([0, 5, 3, 4, 3], [3, 0, 2, 0, 1]);
    CheckFitIff([1, 2, 0, 5, 3], [5, 0, 2, 1, 3]);
    CheckFitIff([1, 2, 0, 5, 3], [4, 3, 4, 0, 2]);
    CheckFitIff([1, 2, 0, 5, 3], [3, 0, 2, 0, 1]);
  }

  /** The number of keys a lock fits (the inner sum). */
  function FitsOf(lock: seq<int>, keys: seq<seq<int>>): (n: nat)
    ensures n <= |keys|
  {
    if keys == [] then 0
    else FitsOf(lock, keys[..|keys| - 1]) + (if CheckFit(lock, keys[|keys| - 1]) then 1 else 0)
  }

  /** count_fitting_pairs: lock by lock, the keys each one fits. */
  function CountFittingPairs(locks: seq<seq<int>>, keys: seq<seq<int>>): nat {
    if locks == [] then 0
    else CountFittingPairs(locks[..|locks| - 1], keys) + FitsOf(locks[|locks| - 1], keys)
  }

  /** At most every pair fits. */
  lemma {:induction false} CountFittingPairsBound(locks: seq<seq<int>>, keys: seq<seq<int>>)
    ensures CountFittingPairs(locks, keys) <= |locks| * |keys|
    decreases |locks|
  {
    if locks != [] {
      CountFittingPairsBound(locks[..|locks| - 1], keys);
      assert |locks| * |keys| == (|locks| - 1) * |keys| + |keys|;
    }
  }

  /** The independent count: key by key, the locks each one fits. */
  function LocksFitting(locks: seq<seq<int>>, key: seq<int>): nat {
    if locks == [] then 0
    else LocksFitting(locks[..|locks| - 1], key) + (if CheckFit(locks[|locks| - 1], key) then 1 else 0)
  }

  function CountByKeys(locks: seq<seq<int>>, keys: seq<seq<int>>): nat {
    if keys == [] then 0
    else CountByKeys(locks, keys[..|keys| - 1]) + LocksFitting(locks, keys[|keys| - 1])
  }

  /** Adding a lock adds, in the key-by-key count, the keys it fits. */
  lemma {:induction false} CountByKeysAddLock(locks: seq<seq<int>>, lock: seq<int>, keys: seq<seq<int>>)
    ensures CountByKeys(locks + [lock], keys) == CountByKeys(locks, keys) + FitsOf(lock, keys)
    decreases |keys|
  {
    if keys != [] {
      CountByKeysAddLock(locks, lock, keys[..|keys| - 1]);
      assert (locks + [lock])[..|locks + [lock]| - 1] == locks;
    }
  }

  /** Counting lock by lock or key by key gives the same number of pairs. */
  lemma {:induction false} CountOrderIrrelevant(locks: seq<seq<int>>, keys: seq<seq<int>>)
    ensures CountFittingPairs(locks, keys) == CountByKeys(locks, keys)
    decreases |locks|
  {
    if locks == [] {
      CountByKeysNoLocks(keys);
    } else {
      var init := locks[..|locks| - 1];
      CountOrderIrrelevant(init, keys);
      CountByKeysAddLock(init, locks[|locks| - 1], keys);
      assert init + [locks[|locks| - 1]] == locks;
    }
  }

  lemma {:induction false} CountByKeysNoLocks(keys: seq<seq<int>>)
    ensures CountByKeys([], keys) == 0
    decreases |keys|
  {
    if keys != [] {
      CountByKeysNoLocks(keys[..|keys| - 1]);
    }
  }

  /** The spurious lock fits every key whose heights stay below 7, so each one
      adds |keys| to the count. */
  lemma {:induction false} UnsetFitsAll(keys: seq<seq<int>>)
    requires forall k :: 0 <= k < |keys| ==> |keys[k]| == Columns && forall i :: 0 <= i < Columns ==> keys[k][i] < 7
    ensures FitsOf(Unset, keys) == |keys|
    decreases |keys|
  {
    if keys != [] {
      UnsetFitsAll(keys[..|keys| - 1]);
      CheckFitIff(Unset, keys[|keys| - 1]);
    }
  }
}
