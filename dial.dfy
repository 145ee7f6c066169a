// A safe's dial numbered 0..99, turned by rotations "L<n>" / "R<n>" from 50:
// part 1 counts rotations that end on 0, part 2 counts every click that
// lands on 0 (2025/day_01/main.py).

module SafeDial {
  import opened Basics

  datatype Line = Rotation(delta: int) | Skipped

  /** part_1's reading of a line: "L" turns left, anything else turns right,
      and `int(line[1:])` must parse (None where Python raises). */
  function ParseRotation1(line: string): (r: Option<int>)
    ensures r.Some? <==> |line| >= 2 && AllDigits(line[1..])
    ensures r.Some? && line[0] == 'L' ==> r.value == 0 - DecimalValue(line[1..]) as int
    ensures r.Some? && line[0] != 'L' ==> r.value == DecimalValue(line[1..])
  {
    if |line| >= 2 && AllDigits(line[1..]) then
      var sign := if line[0] == 'L' then -1 else 1;
      Some(sign * DecimalValue(line[1..]))
    else None
  }

  /** part_2's reading: lines starting with neither "L" nor "R" are skipped. */
  function ParseRotation2(line: string): (r: Option<Line>)
    ensures (line == [] || (line[0] != 'L' && line[0] != 'R')) ==> r == Some(Skipped)
    ensures line != [] && (line[0] == 'L' || line[0] == 'R') ==> r == RotationOf(ParseRotation1(line))
  {
    if line == [] || (line[0] != 'L' && line[0] != 'R') then Some(Skipped)
    else RotationOf(ParseRotation1(line))
  }

  function RotationOf(d: Option<int>): Option<Line> {
    if d.Some? then Some(Rotation(d.value)) else None
  }

  /** The rotations of all lines as read by part_1, or None if one does not parse. */
  function ParseAll1(lines: seq<string>): (r: Option<seq<int>>)
    ensures r.Some? <==> forall k :: 0 <= k < |lines| ==> ParseRotation1(lines[k]).Some?
    ensures r.Some? ==> |r.value| == |lines|
    ensures r.Some? ==> forall k :: 0 <= k < |lines| ==> ParseRotation1(lines[k]) == Some(r.value[k])
  {
    if lines == [] then Some([])
    else
      var d := ParseRotation1(lines[0]);
      var rest := ParseAll1(lines[1..]);
      if d.Some? && rest.Some? then Some([d.value] + rest.value)
      else
        assert rest.None? ==> !ParseRotation1(lines[1..][0]).Some? || exists k :: 0 <= k < |lines| - 1 && ParseRotation1(lines[1..][k]).None?;
        None
  }

  /** The rotations of all lines as read by part_2, skipped lines dropped. */
  function ParseAll2(lines: seq<string>): (r: Option<seq<int>>)
    ensures r.Some? <==> forall k :: 0 <= k < |lines| ==> ParseRotation2(lines[k]).Some?
    ensures r.Some? ==> |r.value| <= |lines|
  {
    if lines == [] then Some([])
    else
      var d := ParseRotation2(lines[0]);
      var rest := ParseAll2(lines[1..]);
      if d.Some? && rest.Some? then
        Some(if d.value.Rotation? then [d.value.delta] + rest.value else rest.value)
      else
        assert rest.None? ==> exists k :: 0 <= k < |lines| - 1 && ParseRotation2(lines[1..][k]).None?;
        None
  }

  // ---------------------------------------------------------------------------
  // Part 1

  /** The number of rotations, starting from the unreduced position pos, after
      which the dial points at 0. */
  function Landings(pos: int, deltas: seq<int>): nat
    decreases |deltas|
  {
    if deltas == [] then 0
    else (if (pos + deltas[0]) % 100 == 0 then 1 else 0) + Landings(pos + deltas[0], deltas[1..])
  }

  /** part_1's loop over the parsed rotations. */
  method CountLandings(deltas: seq<int>) returns (count: nat)
    ensures count == Landings(50, deltas)
  {
    count := 0;
    var current := 50;
    ghost var pos := 50;
    var i := 0;
    while i < |deltas|
      invariant 0 <= i <= |deltas| && 0 <= current < 100
      invariant current == pos % 100
      invariant count + Landings(pos, deltas[i..]) == Landings(50, deltas)
    {
      assert deltas[i..][1..] == deltas[i + 1..];
      ModShift(current, pos, deltas[i]);
      current := (current + deltas[i]) % 100;
      pos := pos + deltas[i];
      count := count + (if current == 0 then 1 else 0);
      i := i + 1;
    }
  }

  /** part_1: the number of rotations after which the dial points at 0. */
  method Part1(lines: seq<string>) returns (r: Option<nat>)
    ensures ParseAll1(lines).None? ==> r.None?
    ensures ParseAll1(lines).Some? ==> r == Some(Landings(50, ParseAll1(lines).value))
  {
    var deltas := ParseAll1(lines);
    if deltas.None? {
      return None;
    }
    var c := CountLandings(deltas.value);
    r := Some(c);
  }

  /** Reducing the position first does not change where the dial ends up. */
  lemma ModShift(current: int, pos: int, d: int)
    requires current == pos % 100
    ensures (current + d) % 100 == (pos + d) % 100
  {
    var q := pos / 100;
    assert pos == 100 * q + current;
    assert pos + d == 100 * q + (current + d);
  }

  // ---------------------------------------------------------------------------
  // Part 2: clicks onto zero

  /** The reference meaning: turn the dial one click at a time from start to
      end and count the clicks after which it points at 0. */
  function ZeroClicks(start: int, end: int): nat
    decreases if start <= end then end - start else start - end
  {
    if start == end then 0
    else
      var next := if start < end then start + 1 else start - 1;
      (if next % 100 == 0 then 1 else 0) + ZeroClicks(next, end)
  }

  /** Turning right, the clicks onto 0 are the multiples of 100 in (start, end]. */
  lemma {:induction false} ZeroClicksRight(start: int, end: int)
    requires start <= end
    ensures ZeroClicks(start, end) == end / 100 - start / 100
    decreases end - start
  {
    if start < end {
      ZeroClicksRight(start + 1, end);
      var q := start / 100;
      assert start == 100 * q + start % 100;
      if (start + 1) % 100 == 0 {
        assert start + 1 == 100 * (q + 1);
      } else {
        assert start + 1 == 100 * q + (start % 100 + 1);
      }
    }
  }

  /** Turning left, the clicks onto 0 are the multiples of 100 in [end, start). */
  lemma {:induction false} ZeroClicksLeft(start: int, end: int)
    requires end <= start
    ensures ZeroClicks(start, end) == (start - 1) / 100 - (end - 1) / 100
    decreases start - end
  {
    if end < start {
      ZeroClicksLeft(start - 1, end);
      var q := (start - 2) / 100;
      assert start - 2 == 100 * q + (start - 2) % 100;
      if (start - 1) % 100 == 0 {
        assert start - 1 == 100 * (q + 1);
      } else {
        assert start - 1 == 100 * q + ((start - 2) % 100 + 1);
      }
    }
  }

  /** The dial has no memory of full turns: shifting start and end by the
      same multiple of 100 keeps the count. */
  lemma ZeroClicksShift(start: int, end: int, k: int)
    ensures ZeroClicks(start + 100 * k, end + 100 * k) == ZeroClicks(start, end)
  {
    if start <= end {
      ZeroClicksRight(start, end);
      ZeroClicksRight(start + 100 * k, end + 100 * k);
      DivShift(start, k);
      DivShift(end, k);
    } else {
      ZeroClicksLeft(start, end);
      ZeroClicksLeft(start + 100 * k, end + 100 * k);
      DivShift(start - 1, k);
      DivShift(end - 1, k);
    }
  }

  lemma DivShift(x: int, k: int)
    ensures (x + 100 * k) / 100 == x / 100 + k
  {
    var q := x / 100;
    assert x + 100 * k == 100 * (q + k) + x % 100;
  }

  /** times_zero_is_crossed, with its two loops. */
  method TimesZeroIsCrossed(start: int, end: int) returns (counter: int)
    requires 0 <= start < 100
    ensures counter == ZeroClicks(start, end)
  {
    var e := end;
    counter := 0;
    if e > start {
      while e > 99
        invariant e >= 0
        invariant counter + e / 100 == end / 100
        decreases e
      {
        DivShift(e - 100, 1);
        e := e - 100;
        counter := counter + 1;
      }
      ZeroClicksRight(start, end);
    } else if e < start {
      if start == 0 {
        counter := -1;
      }
      while e < 0
        invariant e < 100
        invariant counter == (start - 1) / 100 - (end - 1) / 100 + (e - 1) / 100
        decreases -e
      {
        DivShift(e - 1, 1);
        e := e + 100;
        counter := counter + 1;
      }
      if e == 0 {
        counter := counter + 1;
      }
      ZeroClicksLeft(start, end);
    }
  }

  // ---------------------------------------------------------------------------
  // The whole of part 2

  /** Clicks onto 0 over a sequence of rotations from the unreduced position pos. */
  function TotalZeroClicks(pos: int, deltas: seq<int>): nat
    decreases |deltas|
  {
    if deltas == [] then 0
    else ZeroClicks(pos, pos + deltas[0]) + TotalZeroClicks(pos + deltas[0], deltas[1..])
  }

  /** part_2's loop: `current` is kept in 0..99 between rotations. */
  method CountZeroClicks(deltas: seq<int>) returns (count: int)
    ensures count == TotalZeroClicks(50, deltas)
  {
    count := 0;
    var current := 50;
    ghost var pos := 50;
    var i := 0;
    while i < |deltas|
      invariant 0 <= i <= |deltas| && 0 <= current < 100
      invariant current == pos % 100
      invariant count + TotalZeroClicks(pos, deltas[i..]) == TotalZeroClicks(50, deltas)
    {
      assert deltas[i..][1..] == deltas[i + 1..];
      var next := current + deltas[i];
      var c := TimesZeroIsCrossed(current, next);
      var k := pos / 100;
      assert pos == current + 100 * k;
      ZeroClicksShift(current, next, k);
      count := count + c;
      current := next % 100;
      pos := pos + deltas[i];
      ModShift(next - deltas[i], pos - deltas[i], deltas[i]);
      i := i + 1;
    }
  }

  /** part_2: the number of clicks onto 0 over all rotations. */
  method Part2(lines: seq<string>) returns (r: Option<int>)
    ensures ParseAll2(lines).None? ==> r.None?
    ensures ParseAll2(lines).Some? ==> r == Some(TotalZeroClicks(50, ParseAll2(lines).value))
  {
    var deltas := ParseAll2(lines);
    if deltas.None? {
      return None;
    }
    var c := CountZeroClicks(deltas.value);
    r := Some(c);
  }

  /** Every rotation that ends on 0 also clicks onto 0 when it ends, so with
      no zero-length rotations part 2 is at least part 1. */
  lemma {:induction false} LandingsAtMostClicks(pos: int, deltas: seq<int>)
    requires forall k :: 0 <= k < |deltas| ==> deltas[k] != 0
    ensures Landings(pos, deltas) <= TotalZeroClicks(pos, deltas)
    decreases |deltas|
  {
    if deltas != [] {
      var e := pos + deltas[0];
      LandingsAtMostClicks(e, deltas[1..]);
      if e % 100 == 0 {
        var m := e / 100;
        assert e == 100 * m;
        if pos < e {
          ZeroClicksRight(pos, e);
          assert pos / 100 < m;
        } else {
          ZeroClicksLeft(pos, e);
          assert (e - 1) / 100 == m - 1;
          assert (pos - 1) / 100 >= m;
        }
      }
    }
  }

  /** A zero-length rotation at 0 counts in part 1 but clicks nothing in part 2. */
  lemma ZeroRotationCountsOnlyOnce()
    ensures Landings(0, [0]) == 1 && TotalZeroClicks(0, [0]) == 0
  {
  }
}
