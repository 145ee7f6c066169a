/** The keypads of the door and of the robots that relay button presses to
    it: where each key sits, the fixed table of moves between two keys, the
    presses a robot at one keypad needs from the keypad above it, and the
    complexity of a door code. */
module KeypadConundrum {
  import opened Basics

  // ---------------------------------------------------------------------------
  // Keys and where they sit

  /** A key of the door's numeric keypad: a digit, or A. A digit outside
      0..9 is representable, as in the source, and is not a key. */
  datatype NumKey = Num(n: int) | NumA

  /** A key of a directional keypad; Press is its A key. */
  datatype Dir = Up | Down | Left | Right | Press

  /** A cell of a keypad, counted from its top left corner. */
  datatype Pos = Pos(row: int, col: int)

  predicate IsNumKey(k: NumKey) {
    k.NumA? || 0 <= k.n <= 9
  }

  /** The cell of a numeric key; None for a value that is not a key. */
  function NumCoord(k: NumKey): (r: Option<Pos>)
    ensures r.Some? <==> IsNumKey(k)
  {
    match k
    case NumA => Some(Pos(3, 2))
    case Num(n) =>
      if n == 7 then Some(Pos(0, 0))
      else if n == 8 then Some(Pos(0, 1))
      else if n == 9 then Some(Pos(0, 2))
      else if n == 4 then Some(Pos(1, 0))
      else if n == 5 then Some(Pos(1, 1))
      else if n == 6 then Some(Pos(1, 2))
      else if n == 1 then Some(Pos(2, 0))
      else if n == 2 then Some(Pos(2, 1))
      else if n == 3 then Some(Pos(2, 2))
      else if n == 0 then Some(Pos(3, 1))
      else None
  }

  /** The numeric key at a cell; None off the keypad and at its gap (3, 0). */
  function NumAt(p: Pos): Option<NumKey> {
    if p == Pos(0, 0) then Some(Num(7))
    else if p == Pos(0, 1) then Some(Num(8))
    else if p == Pos(0, 2) then Some(Num(9))
    else if p == Pos(1, 0) then Some(Num(4))
    else if p == Pos(1, 1) then Some(Num(5))
    else if p == Pos(1, 2) then Some(Num(6))
    else if p == Pos(2, 0) then Some(Num(1))
    else if p == Pos(2, 1) then Some(Num(2))
    else if p == Pos(2, 2) then Some(Num(3))
    else if p == Pos(3, 1) then Some(Num(0))
    else if p == Pos(3, 2) then Some(NumA)
    else None
  }

  /** Reading the key back at its cell gives the key: distinct keys sit at
      distinct cells. */
  lemma NumCoordInverse(k: NumKey)
    requires IsNumKey(k)
    ensures NumAt(NumCoord(k).value) == Some(k)
  {
  }

  /** Every cell that holds a key is that key's cell. */
  lemma NumAtInverse(p: Pos)
    requires NumAt(p).Some?
    ensures IsNumKey(NumAt(p).value) && NumCoord(NumAt(p).value) == Some(p)
  {
  }

  function DirCoord(d: Dir): Pos {
    match d
    case Up => Pos(0, 1)
    case Press => Pos(0, 2)
    case Left => Pos(1, 0)
    case Down => Pos(1, 1)
    case Right => Pos(1, 2)
  }

  /** The directional key at a cell; None off the keypad and at its gap (0, 0). */
  function DirAt(p: Pos): Option<Dir> {
    if p == Pos(0, 1) then Some(Up)
    else if p == Pos(0, 2) then Some(Press)
    else if p == Pos(1, 0) then Some(Left)
    else if p == Pos(1, 1) then Some(Down)
    else if p == Pos(1, 2) then Some(Right)
    else None
  }

  lemma DirCoordInverse(d: Dir)
    ensures DirAt(DirCoord(d)) == Some(d)
  {
  }

  lemma DirAtInverse(p: Pos)
    requires DirAt(p).Some?
    ensures DirCoord(DirAt(p).value) == p
  {
  }

  // ---------------------------------------------------------------------------
  // Moving a robot arm

  function Step(p: Pos, d: Dir): Pos {
    match d
    case Up => Pos(p.row - 1, p.col)
    case Down => Pos(p.row + 1, p.col)
    case Left => Pos(p.row, p.col - 1)
    case Right => Pos(p.row, p.col + 1)
    case Press => p
  }

  datatype Pad = Numeric | Directional

  /** The cells of a pad: a block of three columns, four rows for the numeric
      pad and two for a directional one, less the corner nobody may point at. */
  predicate OnPad(pad: Pad, p: Pos) {
    match pad
    case Numeric => 0 <= p.row < 4 && 0 <= p.col < 3 && !(p.row == 3 && p.col == 0)
    case Directional => 0 <= p.row < 2 && 0 <= p.col < 3 && !(p.row == 0 && p.col == 0)
  }

  /** The cells of the numeric pad are exactly the cells that hold its keys. */
  lemma NumericCells(p: Pos)
    ensures OnPad(Numeric, p) <==> NumAt(p).Some?
  {
  }

  lemma DirectionalCells(p: Pos)
    ensures OnPad(Directional, p) <==> DirAt(p).Some?
  {
  }

  /** Where an arm at p ends after the moves of path, provided every cell it
      passes over holds a key of the pad; None when it would pass over the
      gap or leave the pad. */
  function Trail(pad: Pad, p: Pos, path: seq<Dir>): Option<Pos>
    decreases |path|
  {
    if path == [] then Some(p)
    else
      var q := Step(p, path[0]);
      if OnPad(pad, q) then Trail(pad, q, path[1..]) else None
  }

  function Dist(a: int, b: int): nat {
    if a <= b then b - a else a - b
  }

  function Manhattan(p: Pos, q: Pos): nat {
    Dist(p.row, q.row) + Dist(p.col, q.col)
  }

  /** No path is shorter than the distance it covers. */
  lemma {:induction false} TrailDistance(pad: Pad, p: Pos, path: seq<Dir>)
    requires Trail(pad, p, path).Some?
    ensures Manhattan(p, Trail(pad, p, path).value) <= |path|
    decreases |path|
  {
    if path != [] {
      TrailDistance(pad, Step(p, path[0]), path[1..]);
    }
  }

  lemma {:induction false} TrailAppend(pad: Pad, p: Pos, x: seq<Dir>, y: seq<Dir>)
    ensures Trail(pad, p, x + y) ==
      (if Trail(pad, p, x).Some? then Trail(pad, Trail(pad, p, x).value, y) else None)
    decreases |x|
  {
    if x == [] {
      assert x + y == y;
    } else {
      assert (x + y)[1..] == x[1..] + y;
      TrailAppend(pad, Step(p, x[0]), x[1..], y);
    }
  }

  /** A table entry that is fit for use: it leads from p to q, passes over
      keys only, never presses, and is as short as the grid allows. */
  predicate Fits(pad: Pad, p: Pos, path: seq<Dir>, q: Pos) {
    Trail(pad, p, path) == Some(q) && |path| == Manhattan(p, q) && Press !in path
  }

  /** A fitting entry is a shortest path between its keys. */
  lemma FitsShortest(pad: Pad, p: Pos, path: seq<Dir>, q: Pos, other: seq<Dir>)
    requires Fits(pad, p, path, q) && Trail(pad, p, other) == Some(q)
    ensures |path| <= |other|
  {
    TrailDistance(pad, p, other);
  }

  // ---------------------------------------------------------------------------
  // Table entries, written run by run

  /** n moves in direction d. */
  function Rep(d: Dir, n: nat): (r: seq<Dir>)
    ensures |r| == n && forall i :: 0 <= i < n ==> r[i] == d
  {
    seq(n, _ => d)
  }

  /** An entry of a table of moves: no move at all, one run of equal moves,
      or a run followed by a run in another direction (every entry of both
      tables has one of these shapes). */
  datatype Moves = Stay | Line(d: Dir, n: nat) | Turn(d1: Dir, n1: nat, d2: Dir, n2: nat)

  function Path(m: Moves): seq<Dir> {
    match m
    case Stay => []
    case Line(d, n) => Rep(d, n)
    case Turn(d1, n1, d2, n2) => Rep(d1, n1) + Rep(d2, n2)
  }

  /** The cell n moves in direction d away from p. */
  function Shift(p: Pos, d: Dir, n: nat): Pos {
    match d
    case Up => Pos(p.row - n, p.col)
    case Down => Pos(p.row + n, p.col)
    case Left => Pos(p.row, p.col - n)
    case Right => Pos(p.row, p.col + n)
    case Press => p
  }

  predicate Vertical(d: Dir) {
    d == Up || d == Down
  }

  /** What makes an entry fit, checked run by run: its runs are real moves,
      a turn goes off at a right angle from a corner on the pad, and the
      entry ends at q. */
  predicate Good(pad: Pad, p: Pos, m: Moves, q: Pos) {
    match m
    case Stay => p == q
    case Line(d, n) => d != Press && Shift(p, d, n) == q
    case Turn(d1, n1, d2, n2) =>
      d1 != Press && d2 != Press && Vertical(d1) != Vertical(d2)
      && OnPad(pad, Shift(p, d1, n1)) && Shift(Shift(p, d1, n1), d2, n2) == q
  }

  /** One move along a straight run lands on the pad when both ends of the
      run do: the gap sits in a corner, so it is the end of any run through it. */
  lemma Between(pad: Pad, p: Pos, d: Dir, n: nat)
    requires d != Press && 1 <= n
    requires OnPad(pad, p) && OnPad(pad, Shift(p, d, n))
    ensures OnPad(pad, Step(p, d)) && Shift(Step(p, d), d, n - 1) == Shift(p, d, n)
  {
  }

  lemma {:induction false} RunTrail(pad: Pad, p: Pos, d: Dir, n: nat)
    requires d != Press
    requires OnPad(pad, p) && OnPad(pad, Shift(p, d, n))
    ensures Trail(pad, p, Rep(d, n)) == Some(Shift(p, d, n))
    decreases n
  {
    if n > 0 {
      Between(pad, p, d, n);
      assert Rep(d, n)[1..] == Rep(d, n - 1);
      RunTrail(pad, Step(p, d), d, n - 1);
    }
  }

  lemma TurnDistance(p: Pos, d1: Dir, n1: nat, d2: Dir, n2: nat)
    requires d1 != Press && d2 != Press && Vertical(d1) != Vertical(d2)
    ensures Manhattan(p, Shift(Shift(p, d1, n1), d2, n2)) == n1 + n2
  {
  }

  lemma RepExcludes(d: Dir, n: nat, e: Dir)
    requires e != d
    ensures e !in Rep(d, n)
  {
    var r := Rep(d, n);
    assert forall i :: 0 <= i < |r| ==> r[i] != e;
  }

  lemma LineFits(pad: Pad, p: Pos, d: Dir, n: nat)
    requires d != Press && OnPad(pad, p) && OnPad(pad, Shift(p, d, n))
    ensures Fits(pad, p, Rep(d, n), Shift(p, d, n))
  {
    RunTrail(pad, p, d, n);
    RepExcludes(d, n, Press);
    assert Manhattan(p, Shift(p, d, n)) == n;
  }

  lemma TurnFits(pad: Pad, p: Pos, d1: Dir, n1: nat, d2: Dir, n2: nat)
    requires d1 != Press && d2 != Press && Vertical(d1) != Vertical(d2)
    requires OnPad(pad, p) && OnPad(pad, Shift(p, d1, n1)) && OnPad(pad, Shift(Shift(p, d1, n1), d2, n2))
    ensures Fits(pad, p, Rep(d1, n1) + Rep(d2, n2), Shift(Shift(p, d1, n1), d2, n2))
  {
    var c := Shift(p, d1, n1);
    RunTrail(pad, p, d1, n1);
    RunTrail(pad, c, d2, n2);
    TrailAppend(pad, p, Rep(d1, n1), Rep(d2, n2));
    TurnDistance(p, d1, n1, d2, n2);
    RepExcludes(d1, n1, Press);
    RepExcludes(d2, n2, Press);
  }

  lemma GoodFits(pad: Pad, p: Pos, m: Moves, q: Pos)
    requires OnPad(pad, p) && OnPad(pad, q) && Good(pad, p, m, q)
    ensures Fits(pad, p, Path(m), q)
  {
    match m
    case Stay =>
    case Line(d, n) => LineFits(pad, p, d, n);
    case Turn(d1, n1, d2, n2) => TurnFits(pad, p, d1, n1, d2, n2);
  }

  // ---------------------------------------------------------------------------
  // The table of moves on the numeric keypad

  /** The moves from A to each key of the numeric keypad. */
  function NumRowA(b: NumKey): Moves
    requires IsNumKey(b)
  {
    match b
    case NumA => Stay
    case Num(m) =>
      if m == 0 then Line(Left, 1)
      else if m == 1 then Turn(Up, 1, Left, 2)
      else if m == 2 then Turn(Left, 1, Up, 1)
      else if m == 3 then Line(Up, 1)
      else if m == 4 then Turn(Up, 2, Left, 2)
      else if m == 5 then Turn(Left, 1, Up, 2)
      else if m == 6 then Line(Up, 2)
      else if m == 7 then Turn(Up, 3, Left, 2)
      else if m == 8 then Turn(Left, 1, Up, 3)
      else Line(Up, 3)
  }

  /** The moves from 0 to each key of the numeric keypad. */
  function NumRow0(b: NumKey): Moves
    requires IsNumKey(b)
  {
    match b
    case NumA => Line(Right, 1)
    case Num(m) =>
      if m == 0 then Stay
      else if m == 1 then Turn(Up, 1, Left, 1)
      else if m == 2 then Line(Up, 1)
      else if m == 3 then Turn(Up, 1, Right, 1)
      else if m == 4 then Turn(Up, 2, Left, 1)
      else if m == 5 then Line(Up, 2)
      else if m == 6 then Turn(Up, 2, Right, 1)
      else if m == 7 then Turn(Up, 3, Left, 1)
      else if m == 8 then Line(Up, 3)
      else Turn(Up, 3, Right, 1)
  }

  /** The moves from 1 to each key of the numeric keypad. */
  function NumRow1(b: NumKey): Moves
    requires IsNumKey(b)
  {
    match b
    case NumA => Turn(Right, 2, Down, 1)
    case Num(m) =>
      if m == 0 then Turn(Right, 1, Down, 1)
      else if m == 1 then Stay
      else if m == 2 then Line(Right, 1)
      else if m == 3 then Line(Right, 2)
      else if m == 4 then Line(Up, 1)
      else if m == 5 then Turn(Up, 1, Right, 1)
      else if m == 6 then Turn(Up, 1, Right, 2)
      else if m == 7 then Line(Up, 2)
      else if m == 8 then Turn(Up, 2, Right, 1)
      else Turn(Up, 2, Right, 2)
  }

  /** The moves from 2 to each key of the numeric keypad. */
  function NumRow2(b: NumKey): Moves
    requires IsNumKey(b)
  {
    match b
    case NumA => Turn(Down, 1, Right, 1)
    case Num(m) =>
      if m == 0 then Line(Down, 1)
      else if m == 1 then Line(Left, 1)
      else if m == 2 then Stay
      else if m == 3 then Line(Right, 1)
      else if m == 4 then Turn(Left, 1, Up, 1)
      else if m == 5 then Line(Up, 1)
      else if m == 6 then Turn(Up, 1, Right, 1)
      else if m == 7 then Turn(Left, 1, Up, 2)
      else if m == 8 then Line(Up, 2)
      else Turn(Up, 2, Right, 1)
  }

  /** The moves from 3 to each key of the numeric keypad. */
  function NumRow3(b: NumKey): Moves
    requires IsNumKey(b)
  {
    match b
    case NumA => Line(Down, 1)
    case Num(m) =>
      if m == 0 then Turn(Left, 1, Down, 1)
      else if m == 1 then Line(Left, 2)
      else if m == 2 then Line(Left, 1)
      else if m == 3 then Stay
      else if m == 4 then Turn(Left, 2, Up, 1)
      else if m == 5 then Turn(Left, 1, Up, 1)
      else if m == 6 then Line(Up, 1)
      else if m == 7 then Turn(Left, 2, Up, 2)
      else if m == 8 then Turn(Left, 1, Up, 2)
      else Line(Up, 2)
  }

  /** The moves from 4 to each key of the numeric keypad. */
  function NumRow4(b: NumKey): Moves
    requires IsNumKey(b)
  {
    match b
    case NumA => Turn(Right, 2, Down, 2)
    case Num(m) =>
      if m == 0 then Turn(Right, 1, Down, 2)
      else if m == 1 then Line(Down, 1)
      else if m == 2 then Turn(Down, 1, Right, 1)
      else if m == 3 then Turn(Down, 1, Right, 2)
      else if m == 4 then Stay
      else if m == 5 then Line(Right, 1)
      else if m == 6 then Line(Right, 2)
      else if m == 7 then Line(Up, 1)
      else if m == 8 then Turn(Up, 1, Right, 1)
      else Turn(Up, 1, Right, 2)
  }

  /** The moves from 5 to each key of the numeric keypad. */
  function NumRow5(b: NumKey): Moves
    requires IsNumKey(b)
  {
    match b
    case NumA => Turn(Down, 2, Right, 1)
    case Num(m) =>
      if m == 0 then Line(Down, 2)
      else if m == 1 then Turn(Left, 1, Down, 1)
      else if m == 2 then Line(Down, 1)
      else if m == 3 then Turn(Down, 1, Right, 1)
      else if m == 4 then Line(Left, 1)
      else if m == 5 then Stay
      else if m == 6 then Line(Right, 1)
      else if m == 7 then Turn(Left, 1, Up, 1)
      else if m == 8 then Line(Up, 1)
      else Turn(Up, 1, Right, 1)
  }

  /** The moves from 6 to each key of the numeric keypad. */
  function NumRow6(b: NumKey): Moves
    requires IsNumKey(b)
  {
    match b
    case NumA => Line(Down, 2)
    case Num(m) =>
      if m == 0 then Turn(Left, 1, Down, 2)
      else if m == 1 then Turn(Left, 2, Down, 1)
      else if m == 2 then Turn(Left, 1, Down, 1)
      else if m == 3 then Line(Down, 1)
      else if m == 4 then Line(Left, 2)
      else if m == 5 then Line(Left, 1)
      else if m == 6 then Stay
      else if m == 7 then Turn(Left, 2, Up, 1)
      else if m == 8 then Turn(Left, 1, Up, 1)
      else Line(Up, 1)
  }

  /** The moves from 7 to each key of the numeric keypad. */
  function NumRow7(b: NumKey): Moves
    requires IsNumKey(b)
  {
    match b
    case NumA => Turn(Right, 2, Down, 3)
    case Num(m) =>
      if m == 0 then Turn(Right, 1, Down, 3)
      else if m == 1 then Line(Down, 2)
      else if m == 2 then Turn(Down, 2, Right, 1)
      else if m == 3 then Turn(Down, 2, Right, 2)
      else if m == 4 then Line(Down, 1)
      else if m == 5 then Turn(Down, 1, Right, 1)
      else if m == 6 then Turn(Down, 1, Right, 2)
      else if m == 7 then Stay
      else if m == 8 then Line(Right, 1)
      else Line(Right, 2)
  }

  /** The moves from 8 to each key of the numeric keypad. */
  function NumRow8(b: NumKey): Moves
    requires IsNumKey(b)
  {
    match b
    case NumA => Turn(Down, 3, Right, 1)
    case Num(m) =>
      if m == 0 then Line(Down, 3)
      else if m == 1 then Turn(Left, 1, Down, 2)
      else if m == 2 then Line(Down, 2)
      else if m == 3 then Turn(Down, 2, Right, 1)
      else if m == 4 then Turn(Left, 1, Down, 1)
      else if m == 5 then Line(Down, 1)
      else if m == 6 then Turn(Down, 1, Right, 1)
      else if m == 7 then Line(Left, 1)
      else if m == 8 then Stay
      else Line(Right, 1)
  }

  /** The moves from 9 to each key of the numeric keypad. */
  function NumRow9(b: NumKey): Moves
    requires IsNumKey(b)
  {
    match b
    case NumA => Line(Down, 3)
    case Num(m) =>
      if m == 0 then Turn(Left, 1, Down, 3)
      else if m == 1 then Turn(Left, 2, Down, 2)
      else if m == 2 then Turn(Left, 1, Down, 2)
      else if m == 3 then Line(Down, 2)
      else if m == 4 then Turn(Left, 2, Down, 1)
      else if m == 5 then Turn(Left, 1, Down, 1)
      else if m == 6 then Line(Down, 1)
      else if m == 7 then Line(Left, 2)
      else if m == 8 then Line(Left, 1)
      else Stay
  }

  function NumTable(a: NumKey, b: NumKey): Moves
    requires IsNumKey(a) && IsNumKey(b)
  {
    match a
    case NumA => NumRowA(b)
    case Num(n) =>
      if n == 0 then NumRow0(b)
      else if n == 1 then NumRow1(b)
      else if n == 2 then NumRow2(b)
      else if n == 3 then NumRow3(b)
      else if n == 4 then NumRow4(b)
      else if n == 5 then NumRow5(b)
      else if n == 6 then NumRow6(b)
      else if n == 7 then NumRow7(b)
      else if n == 8 then NumRow8(b)
      else NumRow9(b)
  }

  lemma NumEntryAToA(b: NumKey)
    requires b == NumA
    ensures Good(Numeric, Pos(3, 2), NumRowA(b), NumCoord(b).value)
  {
    assert NumRowA(b) == Stay && NumCoord(b).value == Pos(3, 2);
  }

  lemma NumEntryATo0(b: NumKey)
    requires b == Num(0)
    ensures Good(Numeric, Pos(3, 2), NumRowA(b), NumCoord(b).value)
  {
    assert NumRowA(b) == Line(Left, 1) && NumCoord(b).value == Pos(3, 1);
  }

  lemma NumEntryATo1(b: NumKey)
    requires b == Num(1)
    ensures Good(Numeric, Pos(3, 2), NumRowA(b), NumCoord(b).value)
  {
    assert NumRowA(b) == Turn(Up, 1, Left, 2) && NumCoord(b).value == Pos(2, 0);
  }

  lemma NumEntryATo2(b: NumKey)
    requires b == Num(2)
    ensures Good(Numeric, Pos(3, 2), NumRowA(b), NumCoord(b).value)
  {
    assert NumRowA(b) == Turn(Left, 1, Up, 1) && NumCoord(b).value == Pos(2, 1);
  }

  lemma NumEntryATo3(b: NumKey)
    requires b == Num(3)
    ensures Good(Numeric, Pos(3, 2), NumRowA(b), NumCoord(b).value)
  {
    assert NumRowA(b) == Line(Up, 1) && NumCoord(b).value == Pos(2, 2);
  }

  lemma NumEntryATo4(b: NumKey)
    requires b == Num(4)
    ensures Good(Numeric, Pos(3, 2), NumRowA(b), NumCoord(b).value)
  {
    assert NumRowA(b) == Turn(Up, 2, Left, 2) && NumCoord(b).value == Pos(1, 0);
  }

  lemma NumEntryATo5(b: NumKey)
    requires b == Num(5)
    ensures Good(Numeric, Pos(3, 2), NumRowA(b), NumCoord(b).value)
  {
    assert NumRowA(b) == Turn(Left, 1, Up, 2) && NumCoord(b).value == Pos(1, 1);
  }

  lemma NumEntryATo6(b: NumKey)
    requires b == Num(6)
    ensures Good(Numeric, Pos(3, 2), NumRowA(b), NumCoord(b).value)
  {
    assert NumRowA(b) == Line(Up, 2) && NumCoord(b).value == Pos(1, 2);
  }

  lemma NumEntryATo7(b: NumKey)
    requires b == Num(7)
    ensures Good(Numeric, Pos(3, 2), NumRowA(b), NumCoord(b).value)
  {
    assert NumRowA(b) == Turn(Up, 3, Left, 2) && NumCoord(b).value == Pos(0, 0);
  }

  lemma NumEntryATo8(b: NumKey)
    requires b == Num(8)
    ensures Good(Numeric, Pos(3, 2), NumRowA(b), NumCoord(b).value)
  {
    assert NumRowA(b) == Turn(Left, 1, Up, 3) && NumCoord(b).value == Pos(0, 1);
  }

  lemma NumEntryATo9(b: NumKey)
    requires b == Num(9)
    ensures Good(Numeric, Pos(3, 2), NumRowA(b), NumCoord(b).value)
  {
    assert NumRowA(b) == Line(Up, 3) && NumCoord(b).value == Pos(0, 2);
  }

  lemma NumRowAGood(b: NumKey)
    requires IsNumKey(b)
    ensures Good(Numeric, Pos(3, 2), NumRowA(b), NumCoord(b).value)
  {
    if b.NumA? {
      NumEntryAToA(b);
    } else if b.n == 0 {
      NumEntryATo0(b);
    } else if b.n == 1 {
      NumEntryATo1(b);
    } else if b.n == 2 {
      NumEntryATo2(b);
    } else if b.n == 3 {
      NumEntryATo3(b);
    } else if b.n == 4 {
      NumEntryATo4(b);
    } else if b.n == 5 {
      NumEntryATo5(b);
    } else if b.n == 6 {
      NumEntryATo6(b);
    } else if b.n == 7 {
      NumEntryATo7(b);
    } else if b.n == 8 {
      NumEntryATo8(b);
    } else {
      NumEntryATo9(b);
    }
  }

  lemma NumEntry0ToA(b: NumKey)
    requires b == NumA
    ensures Good(Numeric, Pos(3, 1), NumRow0(b), NumCoord(b).value)
  {
    assert NumRow0(b) == Line(Right, 1) && NumCoord(b).value == Pos(3, 2);
  }

  lemma NumEntry0To0(b: NumKey)
    requires b == Num(0)
    ensures Good(Numeric, Pos(3, 1), NumRow0(b), NumCoord(b).value)
  {
    assert NumRow0(b) == Stay && NumCoord(b).value == Pos(3, 1);
  }

  lemma NumEntry0To1(b: NumKey)
    requires b == Num(1)
    ensures Good(Numeric, Pos(3, 1), NumRow0(b), NumCoord(b).value)
  {
    assert NumRow0(b) == Turn(Up, 1, Left, 1) && NumCoord(b).value == Pos(2, 0);
  }

  lemma NumEntry0To2(b: NumKey)
    requires b == Num(2)
    ensures Good(Numeric, Pos(3, 1), NumRow0(b), NumCoord(b).value)
  {
    assert NumRow0(b) == Line(Up, 1) && NumCoord(b).value == Pos(2, 1);
  }

  lemma NumEntry0To3(b: NumKey)
    requires b == Num(3)
    ensures Good(Numeric, Pos(3, 1), NumRow0(b), NumCoord(b).value)
  {
    assert NumRow0(b) == Turn(Up, 1, Right, 1) && NumCoord(b).value == Pos(2, 2);
  }

  lemma NumEntry0To4(b: NumKey)
    requires b == Num(4)
    ensures Good(Numeric, Pos(3, 1), NumRow0(b), NumCoord(b).value)
  {
    assert NumRow0(b) == Turn(Up, 2, Left, 1) && NumCoord(b).value == Pos(1, 0);
  }

  lemma NumEntry0To5(b: NumKey)
    requires b == Num(5)
    ensures Good(Numeric, Pos(3, 1), NumRow0(b), NumCoord(b).value)
  {
    assert NumRow0(b) == Line(Up, 2) && NumCoord(b).value == Pos(1, 1);
  }

  lemma NumEntry0To6(b: NumKey)
    requires b == Num(6)
    ensures Good(Numeric, Pos(3, 1), NumRow0(b), NumCoord(b).value)
  {
    assert NumRow0(b) == Turn(Up, 2, Right, 1) && NumCoord(b).value == Pos(1, 2);
  }

  lemma NumEntry0To7(b: NumKey)
    requires b == Num(7)
    ensures Good(Numeric, Pos(3, 1), NumRow0(b), NumCoord(b).value)
  {
    assert NumRow0(b) == Turn(Up, 3, Left, 1) && NumCoord(b).value == Pos(0, 0);
  }

  lemma NumEntry0To8(b: NumKey)
    requires b == Num(8)
    ensures Good(Numeric, Pos(3, 1), NumRow0(b), NumCoord(b).value)
  {
    assert NumRow0(b) == Line(Up, 3) && NumCoord(b).value == Pos(0, 1);
  }

  lemma NumEntry0To9(b: NumKey)
    requires b == Num(9)
    ensures Good(Numeric, Pos(3, 1), NumRow0(b), NumCoord(b).value)
  {
    assert NumRow0(b) == Turn(Up, 3, Right, 1) && NumCoord(b).value == Pos(0, 2);
  }

  lemma NumRow0Good(b: NumKey)
    requires IsNumKey(b)
    ensures Good(Numeric, Pos(3, 1), NumRow0(b), NumCoord(b).value)
  {
    if b.NumA? {
      NumEntry0ToA(b);
    } else if b.n == 0 {
      NumEntry0To0(b);
    } else if b.n == 1 {
      NumEntry0To1(b);
    } else if b.n == 2 {
      NumEntry0To2(b);
    } else if b.n == 3 {
      NumEntry0To3(b);
    } else if b.n == 4 {
      NumEntry0To4(b);
    } else if b.n == 5 {
      NumEntry0To5(b);
    } else if b.n == 6 {
      NumEntry0To6(b);
    } else if b.n == 7 {
      NumEntry0To7(b);
    } else if b.n == 8 {
      NumEntry0To8(b);
    } else {
      NumEntry0To9(b);
    }
  }

  lemma NumEntry1ToA(b: NumKey)
    requires b == NumA
    ensures Good(Numeric, Pos(2, 0), NumRow1(b), NumCoord(b).value)
  {
    assert NumRow1(b) == Turn(Right, 2, Down, 1) && NumCoord(b).value == Pos(3, 2);
  }

  lemma NumEntry1To0(b: NumKey)
    requires b == Num(0)
    ensures Good(Numeric, Pos(2, 0), NumRow1(b), NumCoord(b).value)
  {
    assert NumRow1(b) == Turn(Right, 1, Down, 1) && NumCoord(b).value == Pos(3, 1);
  }

  lemma NumEntry1To1(b: NumKey)
    requires b == Num(1)
    ensures Good(Numeric, Pos(2, 0), NumRow1(b), NumCoord(b).value)
  {
    assert NumRow1(b) == Stay && NumCoord(b).value == Pos(2, 0);
  }

  lemma NumEntry1To2(b: NumKey)
    requires b == Num(2)
    ensures Good(Numeric, Pos(2, 0), NumRow1(b), NumCoord(b).value)
  {
    assert NumRow1(b) == Line(Right, 1) && NumCoord(b).value == Pos(2, 1);
  }

  lemma NumEntry1To3(b: NumKey)
    requires b == Num(3)
    ensures Good(Numeric, Pos(2, 0), NumRow1(b), NumCoord(b).value)
  {
    assert NumRow1(b) == Line(Right, 2) && NumCoord(b).value == Pos(2, 2);
  }

  lemma NumEntry1To4(b: NumKey)
    requires b == Num(4)
    ensures Good(Numeric, Pos(2, 0), NumRow1(b), NumCoord(b).value)
  {
    assert NumRow1(b) == Line(Up, 1) && NumCoord(b).value == Pos(1, 0);
  }

  lemma NumEntry1To5(b: NumKey)
    requires b == Num(5)
    ensures Good(Numeric, Pos(2, 0), NumRow1(b), NumCoord(b).value)
  {
    assert NumRow1(b) == Turn(Up, 1, Right, 1) && NumCoord(b).value == Pos(1, 1);
  }

  lemma NumEntry1To6(b: NumKey)
    requires b == Num(6)
    ensures Good(Numeric, Pos(2, 0), NumRow1(b), NumCoord(b).value)
  {
    assert NumRow1(b) == Turn(Up, 1, Right, 2) && NumCoord(b).value == Pos(1, 2);
  }

  lemma NumEntry1To7(b: NumKey)
    requires b == Num(7)
    ensures Good(Numeric, Pos(2, 0), NumRow1(b), NumCoord(b).value)
  {
    assert NumRow1(b) == Line(Up, 2) && NumCoord(b).value == Pos(0, 0);
  }

  lemma NumEntry1To8(b: NumKey)
    requires b == Num(8)
    ensures Good(Numeric, Pos(2, 0), NumRow1(b), NumCoord(b).value)
  {
    assert NumRow1(b) == Turn(Up, 2, Right, 1) && NumCoord(b).value == Pos(0, 1);
  }

  lemma NumEntry1To9(b: NumKey)
    requires b == Num(9)
    ensures Good(Numeric, Pos(2, 0), NumRow1(b), NumCoord(b).value)
  {
    assert NumRow1(b) == Turn(Up, 2, Right, 2) && NumCoord(b).value == Pos(0, 2);
  }

  lemma NumRow1Good(b: NumKey)
    requires IsNumKey(b)
    ensures Good(Numeric, Pos(2, 0), NumRow1(b), NumCoord(b).value)
  {
    if b.NumA? {
      NumEntry1ToA(b);
    } else if b.n == 0 {
      NumEntry1To0(b);
    } else if b.n == 1 {
      NumEntry1To1(b);
    } else if b.n == 2 {
      NumEntry1To2(b);
    } else if b.n == 3 {
      NumEntry1To3(b);
    } else if b.n == 4 {
      NumEntry1To4(b);
    } else if b.n == 5 {
      NumEntry1To5(b);
    } else if b.n == 6 {
      NumEntry1To6(b);
    } else if b.n == 7 {
      NumEntry1To7(b);
    } else if b.n == 8 {
      NumEntry1To8(b);
    } else {
      NumEntry1To9(b);
    }
  }

  lemma NumEntry2ToA(b: NumKey)
    requires b == NumA
    ensures Good(Numeric, Pos(2, 1), NumRow2(b), NumCoord(b).value)
  {
    assert NumRow2(b) == Turn(Down, 1, Right, 1) && NumCoord(b).value == Pos(3, 2);
  }

  lemma NumEntry2To0(b: NumKey)
    requires b == Num(0)
    ensures Good(Numeric, Pos(2, 1), NumRow2(b), NumCoord(b).value)
  {
    assert NumRow2(b) == Line(Down, 1) && NumCoord(b).value == Pos(3, 1);
  }

  lemma NumEntry2To1(b: NumKey)
    requires b == Num(1)
    ensures Good(Numeric, Pos(2, 1), NumRow2(b), NumCoord(b).value)
  {
    assert NumRow2(b) == Line(Left, 1) && NumCoord(b).value == Pos(2, 0);
  }

  lemma NumEntry2To2(b: NumKey)
    requires b == Num(2)
    ensures Good(Numeric, Pos(2, 1), NumRow2(b), NumCoord(b).value)
  {
    assert NumRow2(b) == Stay && NumCoord(b).value == Pos(2, 1);
  }

  lemma NumEntry2To3(b: NumKey)
    requires b == Num(3)
    ensures Good(Numeric, Pos(2, 1), NumRow2(b), NumCoord(b).value)
  {
    assert NumRow2(b) == Line(Right, 1) && NumCoord(b).value == Pos(2, 2);
  }

  lemma NumEntry2To4(b: NumKey)
    requires b == Num(4)
    ensures Good(Numeric, Pos(2, 1), NumRow2(b), NumCoord(b).value)
  {
    assert NumRow2(b) == Turn(Left, 1, Up, 1) && NumCoord(b).value == Pos(1, 0);
  }

  lemma NumEntry2To5(b: NumKey)
    requires b == Num(5)
    ensures Good(Numeric, Pos(2, 1), NumRow2(b), NumCoord(b).value)
  {
    assert NumRow2(b) == Line(Up, 1) && NumCoord(b).value == Pos(1, 1);
  }

  lemma NumEntry2To6(b: NumKey)
    requires b == Num(6)
    ensures Good(Numeric, Pos(2, 1), NumRow2(b), NumCoord(b).value)
  {
    assert NumRow2(b) == Turn(Up, 1, Right, 1) && NumCoord(b).value == Pos(1, 2);
  }

  lemma NumEntry2To7(b: NumKey)
    requires b == Num(7)
    ensures Good(Numeric, Pos(2, 1), NumRow2(b), NumCoord(b).value)
  {
    assert NumRow2(b) == Turn(Left, 1, Up, 2) && NumCoord(b).value == Pos(0, 0);
  }

  lemma NumEntry2To8(b: NumKey)
    requires b == Num(8)
    ensures Good(Numeric, Pos(2, 1), NumRow2(b), NumCoord(b).value)
  {
    assert NumRow2(b) == Line(Up, 2) && NumCoord(b).value == Pos(0, 1);
  }

  lemma NumEntry2To9(b: NumKey)
    requires b == Num(9)
    ensures Good(Numeric, Pos(2, 1), NumRow2(b), NumCoord(b).value)
  {
    assert NumRow2(b) == Turn(Up, 2, Right, 1) && NumCoord(b).value == Pos(0, 2);
  }

  lemma NumRow2Good(b: NumKey)
    requires IsNumKey(b)
    ensures Good(Numeric, Pos(2, 1), NumRow2(b), NumCoord(b).value)
  {
    if b.NumA? {
      NumEntry2ToA(b);
    } else if b.n == 0 {
      NumEntry2To0(b);
    } else if b.n == 1 {
      NumEntry2To1(b);
    } else if b.n == 2 {
      NumEntry2To2(b);
    } else if b.n == 3 {
      NumEntry2To3(b);
    } else if b.n == 4 {
      NumEntry2To4(b);
    } else if b.n == 5 {
      NumEntry2To5(b);
    } else if b.n == 6 {
      NumEntry2To6(b);
    } else if b.n == 7 {
      NumEntry2To7(b);
    } else if b.n == 8 {
      NumEntry2To8(b);
    } else {
      NumEntry2To9(b);
    }
  }

  lemma NumEntry3ToA(b: NumKey)
    requires b == NumA
    ensures Good(Numeric, Pos(2, 2), NumRow3(b), NumCoord(b).value)
  {
    assert NumRow3(b) == Line(Down, 1) && NumCoord(b).value == Pos(3, 2);
  }

  lemma NumEntry3To0(b: NumKey)
    requires b == Num(0)
    ensures Good(Numeric, Pos(2, 2), NumRow3(b), NumCoord(b).value)
  {
    assert NumRow3(b) == Turn(Left, 1, Down, 1) && NumCoord(b).value == Pos(3, 1);
  }

  lemma NumEntry3To1(b: NumKey)
    requires b == Num(1)
    ensures Good(Numeric, Pos(2, 2), NumRow3(b), NumCoord(b).value)
  {
    assert NumRow3(b) == Line(Left, 2) && NumCoord(b).value == Pos(2, 0);
  }

  lemma NumEntry3To2(b: NumKey)
    requires b == Num(2)
    ensures Good(Numeric, Pos(2, 2), NumRow3(b), NumCoord(b).value)
  {
    assert NumRow3(b) == Line(Left, 1) && NumCoord(b).value == Pos(2, 1);
  }

  lemma NumEntry3To3(b: NumKey)
    requires b == Num(3)
    ensures Good(Numeric, Pos(2, 2), NumRow3(b), NumCoord(b).value)
  {
    assert NumRow3(b) == Stay && NumCoord(b).value == Pos(2, 2);
  }

  lemma NumEntry3To4(b: NumKey)
    requires b == Num(4)
    ensures Good(Numeric, Pos(2, 2), NumRow3(b), NumCoord(b).value)
  {
    assert NumRow3(b) == Turn(Left, 2, Up, 1) && NumCoord(b).value == Pos(1, 0);
  }

  lemma NumEntry3To5(b: NumKey)
    requires b == Num(5)
    ensures Good(Numeric, Pos(2, 2), NumRow3(b), NumCoord(b).value)
  {
    assert NumRow3(b) == Turn(Left, 1, Up, 1) && NumCoord(b).value == Pos(1, 1);
  }

  lemma NumEntry3To6(b: NumKey)
    requires b == Num(6)
    ensures Good(Numeric, Pos(2, 2), NumRow3(b), NumCoord(b).value)
  {
    assert NumRow3(b) == Line(Up, 1) && NumCoord(b).value == Pos(1, 2);
  }

  lemma NumEntry3To7(b: NumKey)
    requires b == Num(7)
    ensures Good(Numeric, Pos(2, 2), NumRow3(b), NumCoord(b).value)
  {
    assert NumRow3(b) == Turn(Left, 2, Up, 2) && NumCoord(b).value == Pos(0, 0);
  }

  lemma NumEntry3To8(b: NumKey)
    requires b == Num(8)
    ensures Good(Numeric, Pos(2, 2), NumRow3(b), NumCoord(b).value)
  {
    assert NumRow3(b) == Turn(Left, 1, Up, 2) && NumCoord(b).value == Pos(0, 1);
  }

  lemma NumEntry3To9(b: NumKey)
    requires b == Num(9)
    ensures Good(Numeric, Pos(2, 2), NumRow3(b), NumCoord(b).value)
  {
    assert NumRow3(b) == Line(Up, 2) && NumCoord(b).value == Pos(0, 2);
  }

  lemma NumRow3Good(b: NumKey)
    requires IsNumKey(b)
    ensures Good(Numeric, Pos(2, 2), NumRow3(b), NumCoord(b).value)
  {
    if b.NumA? {
      NumEntry3ToA(b);
    } else if b.n == 0 {
      NumEntry3To0(b);
    } else if b.n == 1 {
      NumEntry3To1(b);
    } else if b.n == 2 {
      NumEntry3To2(b);
    } else if b.n == 3 {
      NumEntry3To3(b);
    } else if b.n == 4 {
      NumEntry3To4(b);
    } else if b.n == 5 {
      NumEntry3To5(b);
    } else if b.n == 6 {
      NumEntry3To6(b);
    } else if b.n == 7 {
      NumEntry3To7(b);
    } else if b.n == 8 {
      NumEntry3To8(b);
    } else {
      NumEntry3To9(b);
    }
  }

  lemma NumEntry4ToA(b: NumKey)
    requires b == NumA
    ensures Good(Numeric, Pos(1, 0), NumRow4(b), NumCoord(b).value)
  {
    assert NumRow4(b) == Turn(Right, 2, Down, 2) && NumCoord(b).value == Pos(3, 2);
  }

  lemma NumEntry4To0(b: NumKey)
    requires b == Num(0)
    ensures Good(Numeric, Pos(1, 0), NumRow4(b), NumCoord(b).value)
  {
    assert NumRow4(b) == Turn(Right, 1, Down, 2) && NumCoord(b).value == Pos(3, 1);
  }

  lemma NumEntry4To1(b: NumKey)
    requires b == Num(1)
    ensures Good(Numeric, Pos(1, 0), NumRow4(b), NumCoord(b).value)
  {
    assert NumRow4(b) == Line(Down, 1) && NumCoord(b).value == Pos(2, 0);
  }

  lemma NumEntry4To2(b: NumKey)
    requires b == Num(2)
    ensures Good(Numeric, Pos(1, 0), NumRow4(b), NumCoord(b).value)
  {
    assert NumRow4(b) == Turn(Down, 1, Right, 1) && NumCoord(b).value == Pos(2, 1);
  }

  lemma NumEntry4To3(b: NumKey)
    requires b == Num(3)
    ensures Good(Numeric, Pos(1, 0), NumRow4(b), NumCoord(b).value)
  {
    assert NumRow4(b) == Turn(Down, 1, Right, 2) && NumCoord(b).value == Pos(2, 2);
  }

  lemma NumEntry4To4(b: NumKey)
    requires b == Num(4)
    ensures Good(Numeric, Pos(1, 0), NumRow4(b), NumCoord(b).value)
  {
    assert NumRow4(b) == Stay && NumCoord(b).value == Pos(1, 0);
  }

  lemma NumEntry4To5(b: NumKey)
    requires b == Num(5)
    ensures Good(Numeric, Pos(1, 0), NumRow4(b), NumCoord(b).value)
  {
    assert NumRow4(b) == Line(Right, 1) && NumCoord(b).value == Pos(1, 1);
  }

  lemma NumEntry4To6(b: NumKey)
    requires b == Num(6)
    ensures Good(Numeric, Pos(1, 0), NumRow4(b), NumCoord(b).value)
  {
    assert NumRow4(b) == Line(Right, 2) && NumCoord(b).value == Pos(1, 2);
  }

  lemma NumEntry4To7(b: NumKey)
    requires b == Num(7)
    ensures Good(Numeric, Pos(1, 0), NumRow4(b), NumCoord(b).value)
  {
    assert NumRow4(b) == Line(Up, 1) && NumCoord(b).value == Pos(0, 0);
  }

  lemma NumEntry4To8(b: NumKey)
    requires b == Num(8)
    ensures Good(Numeric, Pos(1, 0), NumRow4(b), NumCoord(b).value)
  {
    assert NumRow4(b) == Turn(Up, 1, Right, 1) && NumCoord(b).value == Pos(0, 1);
  }

  lemma NumEntry4To9(b: NumKey)
    requires b == Num(9)
    ensures Good(Numeric, Pos(1, 0), NumRow4(b), NumCoord(b).value)
  {
    assert NumRow4(b) == Turn(Up, 1, Right, 2) && NumCoord(b).value == Pos(0, 2);
  }

  lemma NumRow4Good(b: NumKey)
    requires IsNumKey(b)
    ensures Good(Numeric, Pos(1, 0), NumRow4(b), NumCoord(b).value)
  {
    if b.NumA? {
      NumEntry4ToA(b);
    } else if b.n == 0 {
      NumEntry4To0(b);
    } else if b.n == 1 {
      NumEntry4To1(b);
    } else if b.n == 2 {
      NumEntry4To2(b);
    } else if b.n == 3 {
      NumEntry4To3(b);
    } else if b.n == 4 {
      NumEntry4To4(b);
    } else if b.n == 5 {
      NumEntry4To5(b);
    } else if b.n == 6 {
      NumEntry4To6(b);
    } else if b.n == 7 {
      NumEntry4To7(b);
    } else if b.n == 8 {
      NumEntry4To8(b);
    } else {
      NumEntry4To9(b);
    }
  }

  lemma NumEntry5ToA(b: NumKey)
    requires b == NumA
    ensures Good(Numeric, Pos(1, 1), NumRow5(b), NumCoord(b).value)
  {
    assert NumRow5(b) == Turn(Down, 2, Right, 1) && NumCoord(b).value == Pos(3, 2);
  }

  lemma NumEntry5To0(b: NumKey)
    requires b == Num(0)
    ensures Good(Numeric, Pos(1, 1), NumRow5(b), NumCoord(b).value)
  {
    assert NumRow5(b) == Line(Down, 2) && NumCoord(b).value == Pos(3, 1);
  }

  lemma NumEntry5To1(b: NumKey)
    requires b == Num(1)
    ensures Good(Numeric, Pos(1, 1), NumRow5(b), NumCoord(b).value)
  {
    assert NumRow5(b) == Turn(Left, 1, Down, 1) && NumCoord(b).value == Pos(2, 0);
  }

  lemma NumEntry5To2(b: NumKey)
    requires b == Num(2)
    ensures Good(Numeric, Pos(1, 1), NumRow5(b), NumCoord(b).value)
  {
    assert NumRow5(b) == Line(Down, 1) && NumCoord(b).value == Pos(2, 1);
  }

  lemma NumEntry5To3(b: NumKey)
    requires b == Num(3)
    ensures Good(Numeric, Pos(1, 1), NumRow5(b), NumCoord(b).value)
  {
    assert NumRow5(b) == Turn(Down, 1, Right, 1) && NumCoord(b).value == Pos(2, 2);
  }

  lemma NumEntry5To4(b: NumKey)
    requires b == Num(4)
    ensures Good(Numeric, Pos(1, 1), NumRow5(b), NumCoord(b).value)
  {
    assert NumRow5(b) == Line(Left, 1) && NumCoord(b).value == Pos(1, 0);
  }

  lemma NumEntry5To5(b: NumKey)
    requires b == Num(5)
    ensures Good(Numeric, Pos(1, 1), NumRow5(b), NumCoord(b).value)
  {
    assert NumRow5(b) == Stay && NumCoord(b).value == Pos(1, 1);
  }

  lemma NumEntry5To6(b: NumKey)
    requires b == Num(6)
    ensures Good(Numeric, Pos(1, 1), NumRow5(b), NumCoord(b).value)
  {
    assert NumRow5(b) == Line(Right, 1) && NumCoord(b).value == Pos(1, 2);
  }

  lemma NumEntry5To7(b: NumKey)
    requires b == Num(7)
    ensures Good(Numeric, Pos(1, 1), NumRow5(b), NumCoord(b).value)
  {
    assert NumRow5(b) == Turn(Left, 1, Up, 1) && NumCoord(b).value == Pos(0, 0);
  }

  lemma NumEntry5To8(b: NumKey)
    requires b == Num(8)
    ensures Good(Numeric, Pos(1, 1), NumRow5(b), NumCoord(b).value)
  {
    assert NumRow5(b) == Line(Up, 1) && NumCoord(b).value == Pos(0, 1);
  }

  lemma NumEntry5To9(b: NumKey)
    requires b == Num(9)
    ensures Good(Numeric, Pos(1, 1), NumRow5(b), NumCoord(b).value)
  {
    assert NumRow5(b) == Turn(Up, 1, Right, 1) && NumCoord(b).value == Pos(0, 2);
  }

  lemma NumRow5Good(b: NumKey)
    requires IsNumKey(b)
    ensures Good(Numeric, Pos(1, 1), NumRow5(b), NumCoord(b).value)
  {
    if b.NumA? {
      NumEntry5ToA(b);
    } else if b.n == 0 {
      NumEntry5To0(b);
    } else if b.n == 1 {
      NumEntry5To1(b);
    } else if b.n == 2 {
      NumEntry5To2(b);
    } else if b.n == 3 {
      NumEntry5To3(b);
    } else if b.n == 4 {
      NumEntry5To4(b);
    } else if b.n == 5 {
      NumEntry5To5(b);
    } else if b.n == 6 {
      NumEntry5To6(b);
    } else if b.n == 7 {
      NumEntry5To7(b);
    } else if b.n == 8 {
      NumEntry5To8(b);
    } else {
      NumEntry5To9(b);
    }
  }

  lemma NumEntry6ToA(b: NumKey)
    requires b == NumA
    ensures Good(Numeric, Pos(1, 2), NumRow6(b), NumCoord(b).value)
  {
    assert NumRow6(b) == Line(Down, 2) && NumCoord(b).value == Pos(3, 2);
  }

  lemma NumEntry6To0(b: NumKey)
    requires b == Num(0)
    ensures Good(Numeric, Pos(1, 2), NumRow6(b), NumCoord(b).value)
  {
    assert NumRow6(b) == Turn(Left, 1, Down, 2) && NumCoord(b).value == Pos(3, 1);
  }

  lemma NumEntry6To1(b: NumKey)
    requires b == Num(1)
    ensures Good(Numeric, Pos(1, 2), NumRow6(b), NumCoord(b).value)
  {
    assert NumRow6(b) == Turn(Left, 2, Down, 1) && NumCoord(b).value == Pos(2, 0);
  }

  lemma NumEntry6To2(b: NumKey)
    requires b == Num(2)
    ensures Good(Numeric, Pos(1, 2), NumRow6(b), NumCoord(b).value)
  {
    assert NumRow6(b) == Turn(Left, 1, Down, 1) && NumCoord(b).value == Pos(2, 1);
  }

  lemma NumEntry6To3(b: NumKey)
    requires b == Num(3)
    ensures Good(Numeric, Pos(1, 2), NumRow6(b), NumCoord(b).value)
  {
    assert NumRow6(b) == Line(Down, 1) && NumCoord(b).value == Pos(2, 2);
  }

  lemma NumEntry6To4(b: NumKey)
    requires b == Num(4)
    ensures Good(Numeric, Pos(1, 2), NumRow6(b), NumCoord(b).value)
  {
    assert NumRow6(b) == Line(Left, 2) && NumCoord(b).value == Pos(1, 0);
  }

  lemma NumEntry6To5(b: NumKey)
    requires b == Num(5)
    ensures Good(Numeric, Pos(1, 2), NumRow6(b), NumCoord(b).value)
  {
    assert NumRow6(b) == Line(Left, 1) && NumCoord(b).value == Pos(1, 1);
  }

  lemma NumEntry6To6(b: NumKey)
    requires b == Num(6)
    ensures Good(Numeric, Pos(1, 2), NumRow6(b), NumCoord(b).value)
  {
    assert NumRow6(b) == Stay && NumCoord(b).value == Pos(1, 2);
  }

  lemma NumEntry6To7(b: NumKey)
    requires b == Num(7)
    ensures Good(Numeric, Pos(1, 2), NumRow6(b), NumCoord(b).value)
  {
    assert NumRow6(b) == Turn(Left, 2, Up, 1) && NumCoord(b).value == Pos(0, 0);
  }

  lemma NumEntry6To8(b: NumKey)
    requires b == Num(8)
    ensures Good(Numeric, Pos(1, 2), NumRow6(b), NumCoord(b).value)
  {
    assert NumRow6(b) == Turn(Left, 1, Up, 1) && NumCoord(b).value == Pos(0, 1);
  }

  lemma NumEntry6To9(b: NumKey)
    requires b == Num(9)
    ensures Good(Numeric, Pos(1, 2), NumRow6(b), NumCoord(b).value)
  {
    assert NumRow6(b) == Line(Up, 1) && NumCoord(b).value == Pos(0, 2);
  }

  lemma NumRow6Good(b: NumKey)
    requires IsNumKey(b)
    ensures Good(Numeric, Pos(1, 2), NumRow6(b), NumCoord(b).value)
  {
    if b.NumA? {
      NumEntry6ToA(b);
    } else if b.n == 0 {
      NumEntry6To0(b);
    } else if b.n == 1 {
      NumEntry6To1(b);
    } else if b.n == 2 {
      NumEntry6To2(b);
    } else if b.n == 3 {
      NumEntry6To3(b);
    } else if b.n == 4 {
      NumEntry6To4(b);
    } else if b.n == 5 {
      NumEntry6To5(b);
    } else if b.n == 6 {
      NumEntry6To6(b);
    } else if b.n == 7 {
      NumEntry6To7(b);
    } else if b.n == 8 {
      NumEntry6To8(b);
    } else {
      NumEntry6To9(b);
    }
  }

  lemma NumEntry7ToA(b: NumKey)
    requires b == NumA
    ensures Good(Numeric, Pos(0, 0), NumRow7(b), NumCoord(b).value)
  {
    assert NumRow7(b) == Turn(Right, 2, Down, 3) && NumCoord(b).value == Pos(3, 2);
  }

  lemma NumEntry7To0(b: NumKey)
    requires b == Num(0)
    ensures Good(Numeric, Pos(0, 0), NumRow7(b), NumCoord(b).value)
  {
    assert NumRow7(b) == Turn(Right, 1, Down, 3) && NumCoord(b).value == Pos(3, 1);
  }

  lemma NumEntry7To1(b: NumKey)
    requires b == Num(1)
    ensures Good(Numeric, Pos(0, 0), NumRow7(b), NumCoord(b).value)
  {
    assert NumRow7(b) == Line(Down, 2) && NumCoord(b).value == Pos(2, 0);
  }

  lemma NumEntry7To2(b: NumKey)
    requires b == Num(2)
    ensures Good(Numeric, Pos(0, 0), NumRow7(b), NumCoord(b).value)
  {
    assert NumRow7(b) == Turn(Down, 2, Right, 1) && NumCoord(b).value == Pos(2, 1);
  }

  lemma NumEntry7To3(b: NumKey)
    requires b == Num(3)
    ensures Good(Numeric, Pos(0, 0), NumRow7(b), NumCoord(b).value)
  {
    assert NumRow7(b) == Turn(Down, 2, Right, 2) && NumCoord(b).value == Pos(2, 2);
  }

  lemma NumEntry7To4(b: NumKey)
    requires b == Num(4)
    ensures Good(Numeric, Pos(0, 0), NumRow7(b), NumCoord(b).value)
  {
    assert NumRow7(b) == Line(Down, 1) && NumCoord(b).value == Pos(1, 0);
  }

  lemma NumEntry7To5(b: NumKey)
    requires b == Num(5)
    ensures Good(Numeric, Pos(0, 0), NumRow7(b), NumCoord(b).value)
  {
    assert NumRow7(b) == Turn(Down, 1, Right, 1) && NumCoord(b).value == Pos(1, 1);
  }

  lemma NumEntry7To6(b: NumKey)
    requires b == Num(6)
    ensures Good(Numeric, Pos(0, 0), NumRow7(b), NumCoord(b).value)
  {
    assert NumRow7(b) == Turn(Down, 1, Right, 2) && NumCoord(b).value == Pos(1, 2);
  }

  lemma NumEntry7To7(b: NumKey)
    requires b == Num(7)
    ensures Good(Numeric, Pos(0, 0), NumRow7(b), NumCoord(b).value)
  {
    assert NumRow7(b) == Stay && NumCoord(b).value == Pos(0, 0);
  }

  lemma NumEntry7To8(b: NumKey)
    requires b == Num(8)
    ensures Good(Numeric, Pos(0, 0), NumRow7(b), NumCoord(b).value)
  {
    assert NumRow7(b) == Line(Right, 1) && NumCoord(b).value == Pos(0, 1);
  }

  lemma NumEntry7To9(b: NumKey)
    requires b == Num(9)
    ensures Good(Numeric, Pos(0, 0), NumRow7(b), NumCoord(b).value)
  {
    assert NumRow7(b) == Line(Right, 2) && NumCoord(b).value == Pos(0, 2);
  }

  lemma NumRow7Good(b: NumKey)
    requires IsNumKey(b)
    ensures Good(Numeric, Pos(0, 0), NumRow7(b), NumCoord(b).value)
  {
    if b.NumA? {
      NumEntry7ToA(b);
    } else if b.n == 0 {
      NumEntry7To0(b);
    } else if b.n == 1 {
      NumEntry7To1(b);
    } else if b.n == 2 {
      NumEntry7To2(b);
    } else if b.n == 3 {
      NumEntry7To3(b);
    } else if b.n == 4 {
      NumEntry7To4(b);
    } else if b.n == 5 {
      NumEntry7To5(b);
    } else if b.n == 6 {
      NumEntry7To6(b);
    } else if b.n == 7 {
      NumEntry7To7(b);
    } else if b.n == 8 {
      NumEntry7To8(b);
    } else {
      NumEntry7To9(b);
    }
  }

  lemma NumEntry8ToA(b: NumKey)
    requires b == NumA
    ensures Good(Numeric, Pos(0, 1), NumRow8(b), NumCoord(b).value)
  {
    assert NumRow8(b) == Turn(Down, 3, Right, 1) && NumCoord(b).value == Pos(3, 2);
  }

  lemma NumEntry8To0(b: NumKey)
    requires b == Num(0)
    ensures Good(Numeric, Pos(0, 1), NumRow8(b), NumCoord(b).value)
  {
    assert NumRow8(b) == Line(Down, 3) && NumCoord(b).value == Pos(3, 1);
  }

  lemma NumEntry8To1(b: NumKey)
    requires b == Num(1)
    ensures Good(Numeric, Pos(0, 1), NumRow8(b), NumCoord(b).value)
  {
    assert NumRow8(b) == Turn(Left, 1, Down, 2) && NumCoord(b).value == Pos(2, 0);
  }

  lemma NumEntry8To2(b: NumKey)
    requires b == Num(2)
    ensures Good(Numeric, Pos(0, 1), NumRow8(b), NumCoord(b).value)
  {
    assert NumRow8(b) == Line(Down, 2) && NumCoord(b).value == Pos(2, 1);
  }

  lemma NumEntry8To3(b: NumKey)
    requires b == Num(3)
    ensures Good(Numeric, Pos(0, 1), NumRow8(b), NumCoord(b).value)
  {
    assert NumRow8(b) == Turn(Down, 2, Right, 1) && NumCoord(b).value == Pos(2, 2);
  }

  lemma NumEntry8To4(b: NumKey)
    requires b == Num(4)
    ensures Good(Numeric, Pos(0, 1), NumRow8(b), NumCoord(b).value)
  {
    assert NumRow8(b) == Turn(Left, 1, Down, 1) && NumCoord(b).value == Pos(1, 0);
  }

  lemma NumEntry8To5(b: NumKey)
    requires b == Num(5)
    ensures Good(Numeric, Pos(0, 1), NumRow8(b), NumCoord(b).value)
  {
    assert NumRow8(b) == Line(Down, 1) && NumCoord(b).value == Pos(1, 1);
  }

  lemma NumEntry8To6(b: NumKey)
    requires b == Num(6)
    ensures Good(Numeric, Pos(0, 1), NumRow8(b), NumCoord(b).value)
  {
    assert NumRow8(b) == Turn(Down, 1, Right, 1) && NumCoord(b).value == Pos(1, 2);
  }

  lemma NumEntry8To7(b: NumKey)
    requires b == Num(7)
    ensures Good(Numeric, Pos(0, 1), NumRow8(b), NumCoord(b).value)
  {
    assert NumRow8(b) == Line(Left, 1) && NumCoord(b).value == Pos(0, 0);
  }

  lemma NumEntry8To8(b: NumKey)
    requires b == Num(8)
    ensures Good(Numeric, Pos(0, 1), NumRow8(b), NumCoord(b).value)
  {
    assert NumRow8(b) == Stay && NumCoord(b).value == Pos(0, 1);
  }

  lemma NumEntry8To9(b: NumKey)
    requires b == Num(9)
    ensures Good(Numeric, Pos(0, 1), NumRow8(b), NumCoord(b).value)
  {
    assert NumRow8(b) == Line(Right, 1) && NumCoord(b).value == Pos(0, 2);
  }

  lemma NumRow8Good(b: NumKey)
    requires IsNumKey(b)
    ensures Good(Numeric, Pos(0, 1), NumRow8(b), NumCoord(b).value)
  {
    if b.NumA? {
      NumEntry8ToA(b);
    } else if b.n == 0 {
      NumEntry8To0(b);
    } else if b.n == 1 {
      NumEntry8To1(b);
    } else if b.n == 2 {
      NumEntry8To2(b);
    } else if b.n == 3 {
      NumEntry8To3(b);
    } else if b.n == 4 {
      NumEntry8To4(b);
    } else if b.n == 5 {
      NumEntry8To5(b);
    } else if b.n == 6 {
      NumEntry8To6(b);
    } else if b.n == 7 {
      NumEntry8To7(b);
    } else if b.n == 8 {
      NumEntry8To8(b);
    } else {
      NumEntry8To9(b);
    }
  }

  lemma NumEntry9ToA(b: NumKey)
    requires b == NumA
    ensures Good(Numeric, Pos(0, 2), NumRow9(b), NumCoord(b).value)
  {
    assert NumRow9(b) == Line(Down, 3) && NumCoord(b).value == Pos(3, 2);
  }

  lemma NumEntry9To0(b: NumKey)
    requires b == Num(0)
    ensures Good(Numeric, Pos(0, 2), NumRow9(b), NumCoord(b).value)
  {
    assert NumRow9(b) == Turn(Left, 1, Down, 3) && NumCoord(b).value == Pos(3, 1);
  }

  lemma NumEntry9To1(b: NumKey)
    requires b == Num(1)
    ensures Good(Numeric, Pos(0, 2), NumRow9(b), NumCoord(b).value)
  {
    assert NumRow9(b) == Turn(Left, 2, Down, 2) && NumCoord(b).value == Pos(2, 0);
  }

  lemma NumEntry9To2(b: NumKey)
    requires b == Num(2)
    ensures Good(Numeric, Pos(0, 2), NumRow9(b), NumCoord(b).value)
  {
    assert NumRow9(b) == Turn(Left, 1, Down, 2) && NumCoord(b).value == Pos(2, 1);
  }

  lemma NumEntry9To3(b: NumKey)
    requires b == Num(3)
    ensures Good(Numeric, Pos(0, 2), NumRow9(b), NumCoord(b).value)
  {
    assert NumRow9(b) == Line(Down, 2) && NumCoord(b).value == Pos(2, 2);
  }

  lemma NumEntry9To4(b: NumKey)
    requires b == Num(4)
    ensures Good(Numeric, Pos(0, 2), NumRow9(b), NumCoord(b).value)
  {
    assert NumRow9(b) == Turn(Left, 2, Down, 1) && NumCoord(b).value == Pos(1, 0);
  }

  lemma NumEntry9To5(b: NumKey)
    requires b == Num(5)
    ensures Good(Numeric, Pos(0, 2), NumRow9(b), NumCoord(b).value)
  {
    assert NumRow9(b) == Turn(Left, 1, Down, 1) && NumCoord(b).value == Pos(1, 1);
  }

  lemma NumEntry9To6(b: NumKey)
    requires b == Num(6)
    ensures Good(Numeric, Pos(0, 2), NumRow9(b), NumCoord(b).value)
  {
    assert NumRow9(b) == Line(Down, 1) && NumCoord(b).value == Pos(1, 2);
  }

  lemma NumEntry9To7(b: NumKey)
    requires b == Num(7)
    ensures Good(Numeric, Pos(0, 2), NumRow9(b), NumCoord(b).value)
  {
    assert NumRow9(b) == Line(Left, 2) && NumCoord(b).value == Pos(0, 0);
  }

  lemma NumEntry9To8(b: NumKey)
    requires b == Num(8)
    ensures Good(Numeric, Pos(0, 2), NumRow9(b), NumCoord(b).value)
  {
    assert NumRow9(b) == Line(Left, 1) && NumCoord(b).value == Pos(0, 1);
  }

  lemma NumEntry9To9(b: NumKey)
    requires b == Num(9)
    ensures Good(Numeric, Pos(0, 2), NumRow9(b), NumCoord(b).value)
  {
    assert NumRow9(b) == Stay && NumCoord(b).value == Pos(0, 2);
  }

  lemma NumRow9Good(b: NumKey)
    requires IsNumKey(b)
    ensures Good(Numeric, Pos(0, 2), NumRow9(b), NumCoord(b).value)
  {
    if b.NumA? {
      NumEntry9ToA(b);
    } else if b.n == 0 {
      NumEntry9To0(b);
    } else if b.n == 1 {
      NumEntry9To1(b);
    } else if b.n == 2 {
      NumEntry9To2(b);
    } else if b.n == 3 {
      NumEntry9To3(b);
    } else if b.n == 4 {
      NumEntry9To4(b);
    } else if b.n == 5 {
      NumEntry9To5(b);
    } else if b.n == 6 {
      NumEntry9To6(b);
    } else if b.n == 7 {
      NumEntry9To7(b);
    } else if b.n == 8 {
      NumEntry9To8(b);
    } else {
      NumEntry9To9(b);
    }
  }

  lemma NumTableGood(a: NumKey, b: NumKey)
    requires IsNumKey(a) && IsNumKey(b)
    ensures Good(Numeric, NumCoord(a).value, NumTable(a, b), NumCoord(b).value)
  {
    match a
    case NumA => NumRowAGood(b);
    case Num(n) =>
      if n == 0 { NumRow0Good(b); }
      else if n == 1 { NumRow1Good(b); }
      else if n == 2 { NumRow2Good(b); }
      else if n == 3 { NumRow3Good(b); }
      else if n == 4 { NumRow4Good(b); }
      else if n == 5 { NumRow5Good(b); }
      else if n == 6 { NumRow6Good(b); }
      else if n == 7 { NumRow7Good(b); }
      else if n == 8 { NumRow8Good(b); }
      else { NumRow9Good(b); }
  }

  /** The moves between two keys of a directional keypad. */
  function DirMoves(a: Dir, b: Dir): Moves {
    match a
    case Press =>
      (match b
      case Press => Stay
      case Up => Line(Left, 1)
      case Left => Turn(Down, 1, Left, 2)
      case Down => Turn(Left, 1, Down, 1)
      case Right => Line(Down, 1))
    case Up =>
      (match b
      case Press => Line(Right, 1)
      case Up => Stay
      case Left => Turn(Down, 1, Left, 1)
      case Down => Line(Down, 1)
      case Right => Turn(Down, 1, Right, 1))
    case Left =>
      (match b
      case Press => Turn(Right, 2, Up, 1)
      case Up => Turn(Right, 1, Up, 1)
      case Left => Stay
      case Down => Line(Right, 1)
      case Right => Line(Right, 2))
    case Down =>
      (match b
      case Press => Turn(Up, 1, Right, 1)
      case Up => Line(Up, 1)
      case Left => Line(Left, 1)
      case Down => Stay
      case Right => Line(Right, 1))
    case Right =>
      (match b
      case Press => Line(Up, 1)
      case Up => Turn(Left, 1, Up, 1)
      case Left => Line(Left, 2)
      case Down => Line(Left, 1)
      case Right => Stay)
  }

  lemma DirEntryPressToPress(a: Dir, b: Dir)
    requires a == Press && b == Press
    ensures Good(Directional, DirCoord(a), DirMoves(a, b), DirCoord(b))
  {
  }

  lemma DirEntryPressToUp(a: Dir, b: Dir)
    requires a == Press && b == Up
    ensures Good(Directional, DirCoord(a), DirMoves(a, b), DirCoord(b))
  {
  }

  lemma DirEntryPressToLeft(a: Dir, b: Dir)
    requires a == Press && b == Left
    ensures Good(Directional, DirCoord(a), DirMoves(a, b), DirCoord(b))
  {
  }

  lemma DirEntryPressToDown(a: Dir, b: Dir)
    requires a == Press && b == Down
    ensures Good(Directional, DirCoord(a), DirMoves(a, b), DirCoord(b))
  {
  }

  lemma DirEntryPressToRight(a: Dir, b: Dir)
    requires a == Press && b == Right
    ensures Good(Directional, DirCoord(a), DirMoves(a, b), DirCoord(b))
  {
  }

  lemma DirEntryUpToPress(a: Dir, b: Dir)
    requires a == Up && b == Press
    ensures Good(Directional, DirCoord(a), DirMoves(a, b), DirCoord(b))
  {
  }

  lemma DirEntryUpToUp(a: Dir, b: Dir)
    requires a == Up && b == Up
    ensures Good(Directional, DirCoord(a), DirMoves(a, b), DirCoord(b))
  {
  }

  lemma DirEntryUpToLeft(a: Dir, b: Dir)
    requires a == Up && b == Left
    ensures Good(Directional, DirCoord(a), DirMoves(a, b), DirCoord(b))
  {
  }

  lemma DirEntryUpToDown(a: Dir, b: Dir)
    requires a == Up && b == Down
    ensures Good(Directional, DirCoord(a), DirMoves(a, b), DirCoord(b))
  {
  }

  lemma DirEntryUpToRight(a: Dir, b: Dir)
    requires a == Up && b == Right
    ensures Good(Directional, DirCoord(a), DirMoves(a, b), DirCoord(b))
  {
  }

  lemma DirEntryLeftToPress(a: Dir, b: Dir)
    requires a == Left && b == Press
    ensures Good(Directional, DirCoord(a), DirMoves(a, b), DirCoord(b))
  {
  }

  lemma DirEntryLeftToUp(a: Dir, b: Dir)
    requires a == Left && b == Up
    ensures Good(Directional, DirCoord(a), DirMoves(a, b), DirCoord(b))
  {
  }

  lemma DirEntryLeftToLeft(a: Dir, b: Dir)
    requires a == Left && b == Left
    ensures Good(Directional, DirCoord(a), DirMoves(a, b), DirCoord(b))
  {
  }

  lemma DirEntryLeftToDown(a: Dir, b: Dir)
    requires a == Left && b == Down
    ensures Good(Directional, DirCoord(a), DirMoves(a, b), DirCoord(b))
  {
  }

  lemma DirEntryLeftToRight(a: Dir, b: Dir)
    requires a == Left && b == Right
    ensures Good(Directional, DirCoord(a), DirMoves(a, b), DirCoord(b))
  {
  }

  lemma DirEntryDownToPress(a: Dir, b: Dir)
    requires a == Down && b == Press
    ensures Good(Directional, DirCoord(a), DirMoves(a, b), DirCoord(b))
  {
  }

  lemma DirEntryDownToUp(a: Dir, b: Dir)
    requires a == Down && b == Up
    ensures Good(Directional, DirCoord(a), DirMoves(a, b), DirCoord(b))
  {
  }

  lemma DirEntryDownToLeft(a: Dir, b: Dir)
    requires a == Down && b == Left
    ensures Good(Directional, DirCoord(a), DirMoves(a, b), DirCoord(b))
  {
  }

  lemma DirEntryDownToDown(a: Dir, b: Dir)
    requires a == Down && b == Down
    ensures Good(Directional, DirCoord(a), DirMoves(a, b), DirCoord(b))
  {
  }

  lemma DirEntryDownToRight(a: Dir, b: Dir)
    requires a == Down && b == Right
    ensures Good(Directional, DirCoord(a), DirMoves(a, b), DirCoord(b))
  {
  }

  lemma DirEntryRightToPress(a: Dir, b: Dir)
    requires a == Right && b == Press
    ensures Good(Directional, DirCoord(a), DirMoves(a, b), DirCoord(b))
  {
  }

  lemma DirEntryRightToUp(a: Dir, b: Dir)
    requires a == Right && b == Up
    ensures Good(Directional, DirCoord(a), DirMoves(a, b), DirCoord(b))
  {
  }

  lemma DirEntryRightToLeft(a: Dir, b: Dir)
    requires a == Right && b == Left
    ensures Good(Directional, DirCoord(a), DirMoves(a, b), DirCoord(b))
  {
  }

  lemma DirEntryRightToDown(a: Dir, b: Dir)
    requires a == Right && b == Down
    ensures Good(Directional, DirCoord(a), DirMoves(a, b), DirCoord(b))
  {
  }

  lemma DirEntryRightToRight(a: Dir, b: Dir)
    requires a == Right && b == Right
    ensures Good(Directional, DirCoord(a), DirMoves(a, b), DirCoord(b))
  {
  }

  lemma DirMovesGood(a: Dir, b: Dir)
    ensures Good(Directional, DirCoord(a), DirMoves(a, b), DirCoord(b))
  {
    match a {
      case Press =>
        match b {
          case Press => DirEntryPressToPress(a, b);
          case Up => DirEntryPressToUp(a, b);
          case Left => DirEntryPressToLeft(a, b);
          case Down => DirEntryPressToDown(a, b);
          case Right => DirEntryPressToRight(a, b);
        }
      case Up =>
        match b {
          case Press => DirEntryUpToPress(a, b);
          case Up => DirEntryUpToUp(a, b);
          case Left => DirEntryUpToLeft(a, b);
          case Down => DirEntryUpToDown(a, b);
          case Right => DirEntryUpToRight(a, b);
        }
      case Left =>
        match b {
          case Press => DirEntryLeftToPress(a, b);
          case Up => DirEntryLeftToUp(a, b);
          case Left => DirEntryLeftToLeft(a, b);
          case Down => DirEntryLeftToDown(a, b);
          case Right => DirEntryLeftToRight(a, b);
        }
      case Down =>
        match b {
          case Press => DirEntryDownToPress(a, b);
          case Up => DirEntryDownToUp(a, b);
          case Left => DirEntryDownToLeft(a, b);
          case Down => DirEntryDownToDown(a, b);
          case Right => DirEntryDownToRight(a, b);
        }
      case Right =>
        match b {
          case Press => DirEntryRightToPress(a, b);
          case Up => DirEntryRightToUp(a, b);
          case Left => DirEntryRightToLeft(a, b);
          case Down => DirEntryRightToDown(a, b);
          case Right => DirEntryRightToRight(a, b);
        }
    }
  }


  // ---------------------------------------------------------------------------
  // Looking paths up

  /** Every entry of the numeric table leads from its first key to its
      second along a shortest path that stays on the keys. */
  lemma NumTableFits(a: NumKey, b: NumKey)
    requires IsNumKey(a) && IsNumKey(b)
    ensures Fits(Numeric, NumCoord(a).value, Path(NumTable(a, b)), NumCoord(b).value)
  {
    NumCoordInverse(a);
    NumCoordInverse(b);
    NumericCells(NumCoord(a).value);
    NumericCells(NumCoord(b).value);
    NumTableGood(a, b);
    GoodFits(Numeric, NumCoord(a).value, NumTable(a, b), NumCoord(b).value);
  }

  /** get_shortest_numerical_key_path: the table entry, or None where the
      dictionary lookup fails because a key is not on the numeric keypad. */
  function NumPath(a: NumKey, b: NumKey): (r: Option<seq<Dir>>)
    ensures r.Some? <==> IsNumKey(a) && IsNumKey(b)
    ensures r.Some? ==> Fits(Numeric, NumCoord(a).value, r.value, NumCoord(b).value)
  {
    if IsNumKey(a) && IsNumKey(b) then
      NumTableFits(a, b);
      Some(Path(NumTable(a, b)))
    else None
  }

  /** No path between two numeric keys over the keypad is shorter than the
      table's. */
  lemma NumPathShortest(a: NumKey, b: NumKey, other: seq<Dir>)
    requires IsNumKey(a) && IsNumKey(b)
    requires Trail(Numeric, NumCoord(a).value, other) == Some(NumCoord(b).value)
    ensures |NumPath(a, b).value| <= |other|
  {
    FitsShortest(Numeric, NumCoord(a).value, NumPath(a, b).value, NumCoord(b).value, other);
  }

  /** get_shortest_directional_key_path: the table entry, which leads from a
      to b along a shortest path that stays on the keys. */
  function DirPath(a: Dir, b: Dir): (r: seq<Dir>)
    ensures Fits(Directional, DirCoord(a), r, DirCoord(b))
  {
    DirCoordInverse(a);
    DirCoordInverse(b);
    DirectionalCells(DirCoord(a));
    DirectionalCells(DirCoord(b));
    DirMovesGood(a, b);
    GoodFits(Directional, DirCoord(a), DirMoves(a, b), DirCoord(b));
    Path(DirMoves(a, b))
  }

  lemma DirPathShortest(a: Dir, b: Dir, other: seq<Dir>)
    requires Trail(Directional, DirCoord(a), other) == Some(DirCoord(b))
    ensures |DirPath(a, b)| <= |other|
  {
    FitsShortest(Directional, DirCoord(a), DirPath(a, b), DirCoord(b), other);
  }

  // ---------------------------------------------------------------------------
  // A robot typing on a keypad

  /** Where a robot's arm rests, and the cells it has pressed so far. */
  datatype Arm = Arm(pos: Pos, pressed: seq<Pos>)

  /** A robot whose arm is at p carries out presses in turn; None once the
      arm would point at a cell without a key. */
  function Run(pad: Pad, p: Pos, presses: seq<Dir>): Option<Arm>
    decreases |presses|
  {
    if presses == [] then Some(Arm(p, []))
    else
      var q := Step(p, presses[0]);
      if !OnPad(pad, q) then None
      else
        var rest := Run(pad, q, presses[1..]);
        if rest.None? then None
        else if presses[0] == Press then Some(Arm(rest.value.pos, [q] + rest.value.pressed))
        else rest
  }

  /** Carrying on with y from where an earlier run left the arm. */
  function Then(pad: Pad, r: Option<Arm>, y: seq<Dir>): Option<Arm> {
    if r.None? then None
    else
      var s := Run(pad, r.value.pos, y);
      if s.None? then None else Some(Arm(s.value.pos, r.value.pressed + s.value.pressed))
  }

  lemma {:induction false} RunAppend(pad: Pad, p: Pos, x: seq<Dir>, y: seq<Dir>)
    ensures Run(pad, p, x + y) == Then(pad, Run(pad, p, x), y)
    decreases |x|
  {
    if x == [] {
      assert x + y == y;
      var s := Run(pad, p, y);
      if s.Some? {
        assert [] + s.value.pressed == s.value.pressed;
      }
    } else {
      var xy := x + y;
      assert xy[0] == x[0] && xy[1..] == x[1..] + y;
      var q := Step(p, x[0]);
      RunAppend(pad, q, x[1..], y);
      if OnPad(pad, q) {
        var r := Run(pad, q, x[1..]);
        if r.Some? {
          var t := Run(pad, r.value.pos, y);
          if t.Some? && x[0] == Press {
            AppendAssoc([q], r.value.pressed, t.value.pressed);
          }
        }
      }
    }
  }

  /** Moving without pressing presses nothing and ends where the trail does. */
  lemma {:induction false} RunMoves(pad: Pad, p: Pos, path: seq<Dir>)
    requires Trail(pad, p, path).Some? && Press !in path
    ensures Run(pad, p, path) == Some(Arm(Trail(pad, p, path).value, []))
    decreases |path|
  {
    if path != [] {
      assert path[0] != Press;
      assert forall i :: 0 <= i < |path| - 1 ==> path[1..][i] == path[i + 1];
      RunMoves(pad, Step(p, path[0]), path[1..]);
    }
  }

  /** A fitting entry followed by a press types exactly the key at its end. */
  lemma RunEntry(pad: Pad, p: Pos, path: seq<Dir>, q: Pos)
    requires OnPad(pad, q) && Fits(pad, p, path, q)
    ensures Run(pad, p, path + [Press]) == Some(Arm(q, [q]))
  {
    RunMoves(pad, p, path);
    RunAppend(pad, p, path, [Press]);
    assert [Press][1..] == [];
    assert [q] + [] == [q] && [] + [q] == [q];
    assert Run(pad, q, [Press]) == Some(Arm(q, [q]));
  }

  // ---------------------------------------------------------------------------
  // The door robot (expand_numerical_sequence)

  predicate AllNumKeys(keys: seq<NumKey>) {
    forall i :: 0 <= i < |keys| ==> IsNumKey(keys[i])
  }

  /** The key the door robot's arm rests on after typing keys from A. */
  function LastNum(keys: seq<NumKey>): NumKey {
    if keys == [] then NumA else keys[|keys| - 1]
  }

  lemma AllNumKeysInit(keys: seq<NumKey>)
    requires keys != []
    ensures AllNumKeys(keys) <==> AllNumKeys(keys[..|keys| - 1]) && IsNumKey(keys[|keys| - 1])
  {
    if AllNumKeys(keys[..|keys| - 1]) && IsNumKey(keys[|keys| - 1]) {
      forall i | 0 <= i < |keys| ensures IsNumKey(keys[i]) {
        if i < |keys| - 1 {
          assert keys[i] == keys[..|keys| - 1][i];
        }
      }
    }
  }

  /** The presses on the first directional keypad that make the door robot
      type keys: each key's table path from the key before it, then a press.
      None when a key is not on the numeric keypad. */
  function DoorSequence(keys: seq<NumKey>): (r: Option<seq<Dir>>)
    ensures r.Some? <==> AllNumKeys(keys)
    ensures r.Some? ==> multiset(r.value)[Press] == |keys|
    ensures r.Some? && keys != [] ==> r.value != [] && r.value[|r.value| - 1] == Press
    decreases |keys|
  {
    if keys == [] then Some([])
    else
      var init := keys[..|keys| - 1];
      var head := DoorSequence(init);
      var path := NumPath(LastNum(init), keys[|keys| - 1]);
      AllNumKeysInit(keys);
      if head.None? || path.None? then None else Some(head.value + path.value + [Press])
  }

  /** The distance the door robot's arm travels to type keys. */
  function Travel(keys: seq<NumKey>): nat
    requires AllNumKeys(keys)
  {
    if keys == [] then 0
    else
      var init := keys[..|keys| - 1];
      AllNumKeysInit(keys);
      Travel(init) + Manhattan(NumCoord(LastNum(init)).value, NumCoord(keys[|keys| - 1]).value)
  }

  /** One press per key and otherwise nothing but the grid distance travelled. */
  lemma {:induction false} DoorSequenceLength(keys: seq<NumKey>)
    requires AllNumKeys(keys)
    ensures |DoorSequence(keys).value| == Travel(keys) + |keys|
    decreases |keys|
  {
    if keys != [] {
      AllNumKeysInit(keys);
      DoorSequenceLength(keys[..|keys| - 1]);
    }
  }

  /** The cells of keys, in order. */
  function Cells(keys: seq<NumKey>): (r: seq<Pos>)
    requires AllNumKeys(keys)
    ensures |r| == |keys|
    ensures forall i :: 0 <= i < |keys| ==> NumAt(r[i]) == Some(keys[i])
  {
    if keys == [] then []
    else
      AllNumKeysInit(keys);
      NumCoordInverse(keys[|keys| - 1]);
      Cells(keys[..|keys| - 1]) + [NumCoord(keys[|keys| - 1]).value]
  }

  /** The entry from a to b followed by a press types b. */
  lemma NumEntryTypes(a: NumKey, b: NumKey)
    requires IsNumKey(a) && IsNumKey(b)
    ensures Run(Numeric, NumCoord(a).value, NumPath(a, b).value + [Press])
      == Some(Arm(NumCoord(b).value, [NumCoord(b).value]))
  {
    NumCoordInverse(b);
    NumericCells(NumCoord(b).value);
    RunEntry(Numeric, NumCoord(a).value, NumPath(a, b).value, NumCoord(b).value);
  }

  /** Performed by the door robot from A, the sequence presses the cells of
      keys in order and never points at the gap: it types the code. */
  lemma DoorSequenceStep(keys: seq<NumKey>)
    requires keys != [] && AllNumKeys(keys)
    ensures AllNumKeys(keys[..|keys| - 1])
    ensures DoorSequence(keys).value ==
      DoorSequence(keys[..|keys| - 1]).value + (NumPath(LastNum(keys[..|keys| - 1]), keys[|keys| - 1]).value + [Press])
  {
    AllNumKeysInit(keys);
    var init := keys[..|keys| - 1];
    AppendAssoc(DoorSequence(init).value, NumPath(LastNum(init), keys[|keys| - 1]).value, [Press]);
  }

  lemma {:induction false} DoorSequenceTypes(keys: seq<NumKey>)
    requires AllNumKeys(keys)
    ensures Run(Numeric, Pos(3, 2), DoorSequence(keys).value) ==
      Some(Arm(NumCoord(LastNum(keys)).value, Cells(keys)))
    decreases |keys|
  {
    if keys != [] {
      var init := keys[..|keys| - 1];
      var k := keys[|keys| - 1];
      DoorSequenceStep(keys);
      DoorSequenceTypes(init);
      var head := DoorSequence(init).value;
      var tail := NumPath(LastNum(init), k).value + [Press];
      NumEntryTypes(LastNum(init), k);
      RunAppend(Numeric, Pos(3, 2), head, tail);
    }
  }

  /** expand_numerical_sequence. */
  method ExpandNumericalSequence(keys: seq<NumKey>) returns (r: Option<seq<Dir>>)
    ensures r == DoorSequence(keys)
  {
    var best: seq<Dir> := [];
    var previous := NumA;
    for i := 0 to |keys|
      invariant DoorSequence(keys[..i]) == Some(best)
      invariant previous == LastNum(keys[..i])
    {
      assert keys[..i + 1][..i] == keys[..i];
      var path := NumPath(previous, keys[i]);
      if path.None? {
        assert !IsNumKey(keys[i]);
        return None;
      }
      best := best + path.value + [Press];
      previous := keys[i];
    }
    assert keys[..|keys|] == keys;
    r := Some(best);
  }

  // ---------------------------------------------------------------------------
  // A robot at a directional keypad

  /** The key a robot's arm rests on after typing s from A. */
  function LastDir(s: seq<Dir>): Dir {
    if s == [] then Press else s[|s| - 1]
  }

  /** The presses on the keypad above that make a robot type s on its
      directional keypad. */
  function RobotSequence(s: seq<Dir>): (r: seq<Dir>)
    ensures multiset(r)[Press] == |s|
    ensures s != [] ==> r != [] && r[|r| - 1] == Press
  {
    if s == [] then []
    else
      var init := s[..|s| - 1];
      RobotSequence(init) + DirPath(LastDir(init), s[|s| - 1]) + [Press]
  }

  lemma RobotSequenceStep(s: seq<Dir>)
    requires s != []
    ensures RobotSequence(s) ==
      RobotSequence(s[..|s| - 1]) + (DirPath(LastDir(s[..|s| - 1]), s[|s| - 1]) + [Press])
  {
    var init := s[..|s| - 1];
    AppendAssoc(RobotSequence(init), DirPath(LastDir(init), s[|s| - 1]), [Press]);
  }

  function DirCells(s: seq<Dir>): (r: seq<Pos>)
    ensures |r| == |s|
    ensures forall i :: 0 <= i < |s| ==> DirAt(r[i]) == Some(s[i])
  {
    if s == [] then []
    else
      DirCoordInverse(s[|s| - 1]);
      DirCells(s[..|s| - 1]) + [DirCoord(s[|s| - 1])]
  }

  /** The entry from a to b followed by a press types b. */
  lemma DirEntryTypes(a: Dir, b: Dir)
    ensures Run(Directional, DirCoord(a), DirPath(a, b) + [Press]) == Some(Arm(DirCoord(b), [DirCoord(b)]))
  {
    DirectionalCells(DirCoord(b));
    DirCoordInverse(b);
    RunEntry(Directional, DirCoord(a), DirPath(a, b), DirCoord(b));
  }

  /** Performed by a robot from A, the sequence presses the keys of s in
      order and never points at the gap. */
  lemma {:induction false} RobotSequenceTypes(s: seq<Dir>)
    ensures Run(Directional, Pos(0, 2), RobotSequence(s)) == Some(Arm(DirCoord(LastDir(s)), DirCells(s)))
    decreases |s|
  {
    if s != [] {
      var init := s[..|s| - 1];
      var k := s[|s| - 1];
      RobotSequenceTypes(init);
      var head := RobotSequence(init);
      var tail := DirPath(LastDir(init), k) + [Press];
      DirEntryTypes(LastDir(init), k);
      RobotSequenceStep(s);
      RunAppend(Directional, Pos(0, 2), head, tail);
    }
  }

  /** The presses on the keypad n robots above the one that types s. */
  function Relay(s: seq<Dir>, n: nat): seq<Dir>
    decreases n
  {
    if n == 0 then s else Relay(RobotSequence(s), n - 1)
  }

  /** One unfolding of Relay, as a call: cheaper for the solver than letting the
      callers unfold it (a proof helper). */
  lemma RelayStep(s: seq<Dir>, n: nat)
    ensures Relay(s, n + 1) == Relay(RobotSequence(s), n)
  {
  }

  /** Each keypad of the chain types the keypad below it. */
  lemma {:induction false} RelayOuter(s: seq<Dir>, n: nat)
    ensures Relay(s, n + 1) == RobotSequence(Relay(s, n))
    decreases n
  {
    if n == 0 {
      RelayStep(s, 0);
    } else {
      var m := n - 1;
      RelayOuter(RobotSequence(s), m);
      RelayStep(s, n);
      RelayStep(s, m);
    }
  }

  // ---------------------------------------------------------------------------
  // Counting presses (cost)

  /** cost(a, b, n): the presses on the outermost keypad that make the robot
      n keypads below it move from a to b and press b. */
  function Presses(a: Dir, b: Dir, n: nat): (r: nat)
    ensures r >= 1
    decreases n, 0
  {
    if n == 0 then 1 else PressesAlong(DirPath(a, b) + [Press], n - 1)
  }

  /** The presses on the outermost keypad that make the robot n keypads below
      it type s from A: the sum of the costs of its steps. */
  function PressesAlong(s: seq<Dir>, n: nat): (r: nat)
    ensures s != [] ==> r >= 1
    decreases n, 1, |s|
  {
    if s == [] then 0
    else
      var init := s[..|s| - 1];
      PressesAlong(init, n) + Presses(LastDir(init), s[|s| - 1], n)
  }

  lemma PressesAlongLast(s: seq<Dir>, n: nat)
    requires s != []
    ensures PressesAlong(s, n) == PressesAlong(s[..|s| - 1], n) + Presses(LastDir(s[..|s| - 1]), s[|s| - 1], n)
  {
  }

  /** A sequence that ends back on A costs the same whatever follows it. */
  lemma {:induction false} PressesAlongAppend(x: seq<Dir>, y: seq<Dir>, n: nat)
    requires LastDir(x) == Press
    ensures PressesAlong(x + y, n) == PressesAlong(x, n) + PressesAlong(y, n)
    decreases |y|
  {
    if y == [] {
      assert x + y == x;
    } else {
      var init := y[..|y| - 1];
      assert (x + y)[..|x + y| - 1] == x + init;
      PressesAlongAppend(x, init, n);
      assert LastDir(x + init) == LastDir(init);
    }
  }

  lemma {:induction false} PressesAlongZero(s: seq<Dir>)
    ensures PressesAlong(s, 0) == |s|
    decreases |s|
  {
    if s != [] {
      PressesAlongZero(s[..|s| - 1]);
    }
  }

  /** The cost of typing s through n + 1 keypads is the cost of typing, through
      n keypads, the sequence that types s. */
  lemma {:induction false} PressesAlongRobot(s: seq<Dir>, n: nat)
    ensures PressesAlong(s, n + 1) == PressesAlong(RobotSequence(s), n)
    decreases |s|
  {
    if s != [] {
      var init := s[..|s| - 1];
      var k := s[|s| - 1];
      PressesAlongRobot(init, n);
      var head := RobotSequence(init);
      var tail := DirPath(LastDir(init), k) + [Press];
      PressesAlongLast(s, n + 1);
      PressesEntry(LastDir(init), k, n);
      RobotSequenceStep(s);
      PressesAlongAppend(head, tail, n);
    }
  }

  /** The cost is the length of the sequence pressed on the outermost keypad. */
  lemma {:induction false} PressesAlongIsLength(s: seq<Dir>, n: nat)
    ensures PressesAlong(s, n) == |Relay(s, n)|
    decreases n
  {
    if n == 0 {
      PressesAlongZero(s);
    } else {
      var m := n - 1;
      PressesAlongRobot(s, m);
      PressesAlongIsLength(RobotSequence(s), m);
      RelayStep(s, m);
    }
  }

  lemma PressesIsLength(a: Dir, b: Dir, n: nat)
    ensures Presses(a, b, n + 1) == |Relay(DirPath(a, b) + [Press], n)|
  {
    PressesAlongIsLength(DirPath(a, b) + [Press], n);
  }

  /** cost, with the same recursion and loop as the source (its cache is left
      out: it changes how often a value is computed, not the value). */
  method Cost(fromKey: Dir, toKey: Dir, remainingExpansions: nat) returns (r: nat)
    ensures r == Presses(fromKey, toKey, remainingExpansions)
    decreases remainingExpansions, 0
  {
    if remainingExpansions == 0 {
      return 1;
    }
    var m := remainingExpansions - 1;
    PressesEntry(fromKey, toKey, m);
    r := CostAlong(DirPath(fromKey, toKey) + [Press], m);
  }

  lemma PressesEntry(a: Dir, b: Dir, n: nat)
    ensures Presses(a, b, n + 1) == PressesAlong(DirPath(a, b) + [Press], n)
  {
  }

  /** The loop of cost and of complexity: starting from A, the costs of the
      steps of s through n keypads, added up in order. */
  method CostAlong(s: seq<Dir>, n: nat) returns (r: nat)
    ensures r == PressesAlong(s, n)
    decreases n, 1
  {
    var totalCost := 0;
    var previous := Press;
    for i := 0 to |s|
      invariant totalCost == PressesAlong(s[..i], n)
      invariant previous == LastDir(s[..i])
    {
      assert s[..i + 1][..i] == s[..i];
      var c := Cost(previous, s[i], n);
      totalCost := totalCost + c;
      previous := s[i];
    }
    assert s[..|s|] == s;
    r := totalCost;
  }

  // ---------------------------------------------------------------------------
  // Complexity

  function KeyChar(k: NumKey): char
    requires IsNumKey(k)
  {
    if k.NumA? then 'A' else DigitChar(k.n)
  }

  /** `"".join(map(str, keys))` for keys of the numeric keypad. */
  function KeyText(keys: seq<NumKey>): (t: string)
    requires AllNumKeys(keys)
    ensures |t| == |keys|
  {
    if keys == [] then []
    else
      AllNumKeysInit(keys);
      KeyText(keys[..|keys| - 1]) + [KeyChar(keys[|keys| - 1])]
  }

  /** The number a code stands for: its text without the last character, read
      as a decimal; None where `int` fails (an empty rest, or an A in it). */
  function NumericPart(keys: seq<NumKey>): Option<nat>
    requires AllNumKeys(keys)
  {
    var t := KeyText(keys);
    ParseNat(if t == [] then [] else t[..|t| - 1])
  }

  /** The complexity of a code: the presses on the outermost of n robot
      keypads, times the code's number. */
  function ComplexityOf(keys: seq<NumKey>, n: nat): (r: Option<int>)
    ensures r.Some? <==> AllNumKeys(keys) && NumericPart(keys).Some?
    ensures r.Some? ==> r.value == |Relay(DoorSequence(keys).value, n)| * NumericPart(keys).value
    ensures r.Some? ==> r.value >= 0
  {
    match DoorSequence(keys)
    case None => None
    case Some(s) =>
      match NumericPart(keys)
      case None => None
      case Some(v) =>
        PressesAlongIsLength(s, n);
        var presses: nat := PressesAlong(s, n);
        MulNat(presses, v);
        Some(presses * v)
  }

  /** Keeps the product's sign out of the solver's non-linear search in the callers:
      a proof helper, not a property of the puzzle. */
  lemma MulNat(x: nat, y: nat)
    ensures x * y >= 0
  {
  }

  /** complexity. */
  method Complexity(keys: seq<NumKey>, directionalKeypads: nat) returns (r: Option<int>)
    ensures r == ComplexityOf(keys, directionalKeypads)
  {
    var dirpadSequence := ExpandNumericalSequence(keys);
    if dirpadSequence.None? {
      return None;
    }
    var totalCost := CostAlong(dirpadSequence.value, directionalKeypads);
    var numericalValue := NumericPart(keys);
    if numericalValue.None? {
      return None;
    }
    r := Some(totalCost * numericalValue.value);
  }

  /** The sum of values that may be missing: missing as soon as one is. */
  function SumPresent(cs: seq<Option<int>>): Option<int> {
    if cs == [] then Some(0)
    else
      var head := SumPresent(cs[..|cs| - 1]);
      var c := cs[|cs| - 1];
      if head.None? || c.None? then None else Some(head.value + c.value)
  }

  lemma {:induction false} SumPresentSome(cs: seq<Option<int>>)
    ensures SumPresent(cs).Some? <==> forall i :: 0 <= i < |cs| ==> cs[i].Some?
    ensures (forall i :: 0 <= i < |cs| ==> cs[i].Some? && cs[i].value >= 0) ==> SumPresent(cs).value >= 0
    decreases |cs|
  {
    if cs != [] {
      var init := cs[..|cs| - 1];
      SumPresentSome(init);
      assert forall i :: 0 <= i < |init| ==> init[i] == cs[i];
    }
  }

  /** complexity_sum: None when the complexity of one code cannot be computed. */
  function ComplexitySum(codes: seq<seq<NumKey>>, n: nat): Option<int> {
    SumPresent(seq(|codes|, i requires 0 <= i < |codes| => ComplexityOf(codes[i], n)))
  }

  /** The sum is defined exactly when every code has a complexity, and is then
      not negative. */
  lemma ComplexitySumDefined(codes: seq<seq<NumKey>>, n: nat)
    ensures ComplexitySum(codes, n).Some? <==> forall i :: 0 <= i < |codes| ==> ComplexityOf(codes[i], n).Some?
    ensures ComplexitySum(codes, n).Some? ==> ComplexitySum(codes, n).value >= 0
  {
    var cs := seq(|codes|, i requires 0 <= i < |codes| => ComplexityOf(codes[i], n));
    assert ComplexitySum(codes, n) == SumPresent(cs);
    assert forall i :: 0 <= i < |codes| ==> cs[i] == ComplexityOf(codes[i], n);
    SumPresentSome(cs);
  }

  // ---------------------------------------------------------------------------
  // Reading the codes

  /** One character of a code: A, or a digit read by `int`. */
  function ParseKey(c: char): (r: Option<NumKey>)
    ensures r.Some? ==> IsNumKey(r.value)
  {
    if c == 'A' then Some(NumA)
    else if IsDigit(c) then Some(Num(DigitValue(c)))
    else None
  }

  function ParseKeys(t: string): (r: Option<seq<NumKey>>)
    ensures r.Some? <==> forall i :: 0 <= i < |t| ==> ParseKey(t[i]).Some?
    ensures r.Some? ==> |r.value| == |t| && AllNumKeys(r.value)
  {
    if t == [] then Some([])
    else
      var init := t[..|t| - 1];
      var head := ParseKeys(init);
      var k := ParseKey(t[|t| - 1]);
      assert forall i :: 0 <= i < |init| ==> init[i] == t[i];
      if head.None? || k.None? then None else Some(head.value + [k.value])
  }

  /** The code on one line of the input, with the whitespace at its ends
      stripped; None where `int` rejects a character. */
  function ParseCode(line: string): Option<seq<NumKey>> {
    ParseKeys(Trim(line))
  }

  /** The codes on the lines of the input; None where one line does not parse. */
  function ParseCodes(lines: seq<string>): Option<seq<seq<NumKey>>> {
    ReadAll(ParseCode, lines)
  }

  /** A code written out reads back as itself. */
  lemma {:induction false} ParseKeysText(keys: seq<NumKey>)
    requires AllNumKeys(keys)
    ensures ParseKeys(KeyText(keys)) == Some(keys)
    decreases |keys|
  {
    if keys != [] {
      var init := keys[..|keys| - 1];
      AllNumKeysInit(keys);
      ParseKeysText(init);
      var t := KeyText(keys);
      assert t[..|t| - 1] == KeyText(init);
      assert keys == init + [keys[|keys| - 1]];
    }
  }

  lemma ParseCodeText(keys: seq<NumKey>)
    requires AllNumKeys(keys)
    ensures ParseCode(KeyText(keys)) == Some(keys)
  {
    var t := KeyText(keys);
    if t != [] {
      assert t[0] == KeyChar(keys[0]) by { KeyTextAt(keys, 0); }
      assert t[|t| - 1] == KeyChar(keys[|keys| - 1]);
    }
    TrimTrimmed(t);
    ParseKeysText(keys);
  }

  lemma {:induction false} KeyTextAt(keys: seq<NumKey>, i: nat)
    requires AllNumKeys(keys) && i < |keys|
    ensures KeyText(keys)[i] == KeyChar(keys[i])
    decreases |keys|
  {
    AllNumKeysInit(keys);
    if i < |keys| - 1 {
      KeyTextAt(keys[..|keys| - 1], i);
    }
  }

  /** parse_input over the lines of the file. */
  method ParseInput(lines: seq<string>) returns (r: Option<seq<seq<NumKey>>>)
    ensures r == ParseCodes(lines)
  {
    var result: seq<seq<NumKey>> := [];
    for i := 0 to |lines|
      invariant ParseCodes(lines[..i]) == Some(result)
    {
      assert lines[..i + 1][..i] == lines[..i];
      ReadAllLast(ParseCode, lines[..i + 1]);
      var code := ParseLine(lines[i]);
      if code.None? {
        assert ParseCode(lines[i]).None?;
        return None;
      }
      result := result + [code.value];
    }
    assert lines[..|lines|] == lines;
    r := Some(result);
  }

  /** The inner loop of parse_input: the keys of one stripped line. */
  method ParseLine(line: string) returns (r: Option<seq<NumKey>>)
    ensures r == ParseCode(line)
  {
    r := ReadKeys(Trim(line));
  }

  /** The keys of a stripped line, read one character at a time. */
  method ReadKeys(stripped: string) returns (r: Option<seq<NumKey>>)
    ensures r == ParseKeys(stripped)
  {
    var code: seq<NumKey> := [];
    for j := 0 to |stripped|
      invariant ParseKeys(stripped[..j]) == Some(code)
    {
      assert stripped[..j + 1][..j] == stripped[..j];
      var key := ParseKey(stripped[j]);
      if key.None? {
        assert ParseKeys(stripped[..j + 1]).None?;
        ParseKeysPrefix(stripped, j + 1);
        return None;
      }
      code := code + [key.value];
    }
    assert stripped[..|stripped|] == stripped;
    r := Some(code);
  }

  lemma ParseKeysPrefix(t: string, j: nat)
    requires j <= |t| && ParseKeys(t[..j]).None?
    ensures ParseKeys(t).None?
  {
    var k :| 0 <= k < j && ParseKey(t[..j][k]).None?;
    assert t[k] == t[..j][k];
  }

}
