/** The cephalopod maths worksheet (2025 day 6): a row of problems written
    side by side, each a column of numbers with an operator underneath.
    Part one reads the numbers row by row, one whitespace-separated token per
    problem; part two reads each character column top to bottom as one
    number, a column of spaces separating problems. Every problem is then
    evaluated with its operator (`*` multiplies, anything else adds) and the
    answers are summed. */
module CephalopodMath {
  import opened Basics

  /** What both parsers produce: a list of numbers per problem, and the
      operator tokens. */
  datatype Worksheet = Worksheet(nums: seq<seq<int>>, ops: seq<string>)

  // ---------------------------------------------------------------------------
  // Lines of the input

  /** The line boundaries of `str.splitlines()`. */
  predicate IsLineBreak(c: char) {
    || c == '\n' || c == '\r' || c == '\U{B}' || c == '\U{C}' || '\U{1C}' <= c <= '\U{1E}'
    || c == '\U{85}' || c == '\U{2028}' || c == '\U{2029}'
  }

  /** A text without line boundaries. */
  predicate NoBreak(s: string) {
    forall i :: 0 <= i < |s| ==> !IsLineBreak(s[i])
  }

  /** The text up to the first line boundary. */
  function LeadingLine(s: string): (l: string)
    ensures |l| <= |s| && l == s[..|l|] && NoBreak(l)
    ensures |l| < |s| ==> IsLineBreak(s[|l|])
  {
    if s == [] || IsLineBreak(s[0]) then [] else [s[0]] + LeadingLine(s[1..])
  }

  /** `s.splitlines()`: the text between line boundaries, "\r\n" counting
      as one boundary, and a final boundary ending the last line rather than
      starting an empty one. */
  function Lines(s: string): (ls: seq<string>)
    ensures forall k :: 0 <= k < |ls| ==> NoBreak(ls[k])
    decreases |s|
  {
    if s == [] then []
    else
      var l := LeadingLine(s);
      if |l| == |s| then [l]
      else
        var n := if s[|l|] == '\r' && |l| + 1 < |s| && s[|l| + 1] == '\n' then 2 else 1;
        [l] + Lines(s[|l| + n..])
  }

  lemma {:induction false} LeadingLineOf(w: string, rest: string)
    requires NoBreak(w) && rest != [] && IsLineBreak(rest[0])
    ensures LeadingLine(w + rest) == w
    decreases |w|
  {
    if w == [] {
      assert w + rest == rest;
    } else {
      assert (w + rest)[1..] == w[1..] + rest;
      LeadingLineOf(w[1..], rest);
    }
  }

  /** A line ended by '\n' is split off as the first line. */
  lemma LinesCons(w: string, rest: string)
    requires NoBreak(w)
    ensures Lines(w + ("\n" + rest)) == [w] + Lines(rest)
  {
    var s := w + ("\n" + rest);
    LeadingLineOf(w, "\n" + rest);
    assert |w| < |s| && s[|w|] == '\n';
    assert s[|w| + 1..] == rest;
    assert Lines(s) == [LeadingLine(s)] + Lines(s[|w| + 1..]);
  }

  /** Joining a first part before at least one more. */
  lemma JoinFirst(first: string, more: seq<string>, sep: string)
    requires more != []
    ensures Join([first] + more, sep) == first + (sep + Join(more, sep))
  {
    var parts := [first] + more;
    assert parts[0] == first && parts[1..] == more;
  }

  /** Lines each ended by '\n' split back into those lines. */
  lemma {:induction false} LinesJoined(ls: seq<string>)
    requires forall k :: 0 <= k < |ls| ==> NoBreak(ls[k])
    ensures Lines(Join(ls + [[]], "\n")) == ls
    decreases |ls|
  {
    if ls != [] {
      var tail := ls[1..];
      assert forall k :: 0 <= k < |tail| ==> NoBreak(tail[k]) by {
        forall k | 0 <= k < |tail| ensures NoBreak(tail[k]) {
          assert tail[k] == ls[k + 1];
        }
      }
      LinesJoined(tail);
      var rest := Join(tail + [[]], "\n");
      JoinFirst(ls[0], tail + [[]], "\n");
      assert [ls[0]] + (tail + [[]]) == ls + [[]];
      LinesCons(ls[0], rest);
      assert [ls[0]] + tail == ls;
    }
  }

  /** Words joined by single spaces hold no line boundary. */
  lemma {:induction false} JoinNoBreak(parts: seq<string>)
    requires forall k :: 0 <= k < |parts| ==> IsWord(parts[k])
    ensures NoBreak(Join(parts, " "))
    decreases |parts|
  {
    if |parts| == 1 {
      assert forall i :: 0 <= i < |parts[0]| ==> !IsSpace(parts[0][i]);
    } else if |parts| > 1 {
      JoinNoBreak(parts[1..]);
      var t := Join(parts[1..], " ");
      var j := Join(parts, " ");
      assert j == parts[0] + " " + t;
      forall i | 0 <= i < |j|
        ensures !IsLineBreak(j[i])
      {
        if i < |parts[0]| {
          assert j[i] == parts[0][i] && !IsSpace(parts[0][i]);
        } else if i > |parts[0]| {
          assert j[i] == t[i - |parts[0]| - 1];
        }
      }
    }
  }

  /** `s.split("\n", maxsplit=1)[0]`. */
  function FirstLine(s: string): string {
    SplitOn(s, '\n')[0]
  }

  /** `s.count("\n") - 1`, as the length of `[0] * (s.count("\n") - 1)`
      (a negative repetition count gives an empty list). */
  function NumberLines(s: string): nat {
    if Count(s, '\n') >= 1 then Count(s, '\n') - 1 else 0
  }

  // ---------------------------------------------------------------------------
  // Part one: parse_problems

  /** Whether token `row` of line `col` can be stored. Looking at the operator
      line already needs a matrix row (the first line had at least one
      token); a token of a number line needs a slot in the matrix and must
      be a number. */
  predicate TokenFits(tokens: seq<string>, numLines: nat, width: nat, col: nat, row: nat)
    requires row < |tokens|
  {
    width > 0 && (col == numLines || (row < width && col < numLines && ParseNat(tokens[row]).Some?))
  }

  predicate LineFits(ls: seq<string>, numLines: nat, width: nat, col: nat)
    requires col < |ls|
  {
    var tokens := Split(ls[col]);
    forall row :: 0 <= row < |tokens| ==> TokenFits(tokens, numLines, width, col, row)
  }

  /** The number stored for problem `row` from line `col`: its token there,
      or the initial 0 when that line has no such token. */
  function Entry(ls: seq<string>, col: int, row: int): (v: int)
    ensures v >= 0
  {
    if 0 <= col < |ls| && 0 <= row && row < |Split(ls[col])| && ParseNat(Split(ls[col])[row]).Some? then
      ParseNat(Split(ls[col])[row]).value
    else 0
  }

  /** The tokens of the operator line, the line right after the number lines. */
  function OpsLine(ls: seq<string>, numLines: nat): seq<string> {
    if numLines < |ls| then Split(ls[numLines]) else []
  }

  /** What parse_problems returns for these lines, None where it raises:
      a matrix of `width` problems with `numLines` numbers each, number
      `col` of problem `row` being token `row` of line `col`. */
  function ParseGrid(ls: seq<string>, numLines: nat, width: nat): (r: Option<Worksheet>)
    ensures r.Some? <==> forall col :: 0 <= col < |ls| ==> LineFits(ls, numLines, width, col)
    ensures r.Some? ==> |r.value.nums| == width
    ensures r.Some? ==> forall row :: 0 <= row < width ==> |r.value.nums[row]| == numLines
  {
    if forall col :: 0 <= col < |ls| ==> LineFits(ls, numLines, width, col) then
      Some(Worksheet(seq(width, row => ParsedRow(ls, numLines, row)), OpsLine(ls, numLines)))
    else None
  }

  /** Problem `row`'s numbers: its token on each number line. */
  function ParsedRow(ls: seq<string>, numLines: nat, row: int): (nums: seq<int>)
    ensures |nums| == numLines && forall col :: 0 <= col < numLines ==> nums[col] == Entry(ls, col, row)
  {
    seq(numLines, col => Entry(ls, col, row))
  }

  function ParseProblemsSpec(s: string): Option<Worksheet> {
    ParseGrid(Lines(s), NumberLines(s), |Split(FirstLine(s))|)
  }

  /** The tokens of line `col`, none past the last line. */
  function LineTokens(ls: seq<string>, col: nat): seq<string> {
    if col < |ls| then Split(ls[col]) else []
  }

  /** The matrix once the tokens before token `row` of line `col` are stored. */
  function Filled(ls: seq<string>, numLines: nat, width: nat, col: nat, row: nat): (m: seq<seq<int>>)
    ensures |m| == width && forall r :: 0 <= r < width ==> |m[r]| == numLines
  {
    seq(width, r => FilledRow(ls, numLines, col, row, r))
  }

  /** Problem r's numbers once the tokens before token `row` of line `col` are stored. */
  function FilledRow(ls: seq<string>, numLines: nat, col: nat, row: nat, r: int): (m: seq<int>)
    ensures |m| == numLines
  {
    seq(numLines, c => if c < col || (c == col && r < row) then Entry(ls, c, r) else 0)
  }

  /** What the loops of parse_problems keep once the tokens before token
      `row` of line `col` are handled: the matrix holds exactly those
      numbers, the operators are the operator-line tokens seen so far, and
      none of those tokens made the program raise. */
  predicate Stored(ls: seq<string>, numLines: nat, width: nat, col: nat, row: nat,
                   numMatrix: seq<seq<int>>, opList: seq<string>)
  {
    var tokens := LineTokens(ls, col);
    row <= |tokens| &&
    numMatrix == Filled(ls, numLines, width, col, row) &&
    opList == (if numLines < col then OpsLine(ls, numLines) else if numLines == col then tokens[..row] else []) &&
    (forall c :: 0 <= c < col && c < |ls| ==> LineFits(ls, numLines, width, c)) &&
    forall k :: 0 <= k < row ==> TokenFits(tokens, numLines, width, col, k)
  }

  lemma StoredStart(ls: seq<string>, numLines: nat, width: nat)
    ensures Stored(ls, numLines, width, 0, 0, seq(width, _ => seq(numLines, _ => 0)), [])
  {
    var m, f := Filled(ls, numLines, width, 0, 0), seq(width, _ => seq(numLines, _ => 0));
    forall r | 0 <= r < width
      ensures m[r] == f[r]
    {
      assert m[r] == f[r];
    }
  }

  /** A token of the operator line is appended to the operators. */
  lemma StoreOperator(ls: seq<string>, numLines: nat, width: nat, col: nat, row: nat,
                      numMatrix: seq<seq<int>>, opList: seq<string>)
    requires Stored(ls, numLines, width, col, row, numMatrix, opList)
    requires row < |LineTokens(ls, col)| && width > 0 && col == numLines
    ensures Stored(ls, numLines, width, col, row + 1, numMatrix, opList + [LineTokens(ls, col)[row]])
  {
    var tokens := LineTokens(ls, col);
    var m, f := Filled(ls, numLines, width, col, row), Filled(ls, numLines, width, col, row + 1);
    forall r | 0 <= r < width
      ensures m[r] == f[r]
    {
      assert m[r] == f[r];
    }
    assert tokens[..row + 1] == tokens[..row] + [tokens[row]];
  }

  /** A number of a number line is stored at its problem and line. */
  lemma StoreNumber(ls: seq<string>, numLines: nat, width: nat, col: nat, row: nat,
                    numMatrix: seq<seq<int>>, opList: seq<string>)
    requires Stored(ls, numLines, width, col, row, numMatrix, opList)
    requires row < |LineTokens(ls, col)| && TokenFits(LineTokens(ls, col), numLines, width, col, row)
    requires col != numLines
    ensures Stored(ls, numLines, width, col, row + 1,
      numMatrix[row := numMatrix[row][col := ParseNat(LineTokens(ls, col)[row]).value]], opList)
  {
    var m := Filled(ls, numLines, width, col, row);
    var m' := m[row := m[row][col := ParseNat(LineTokens(ls, col)[row]).value]];
    var f := Filled(ls, numLines, width, col, row + 1);
    forall r | 0 <= r < width
      ensures m'[r] == f[r]
    {
      if r == row {
        assert m'[r] == f[r];
      } else {
        assert m[r] == f[r];
      }
    }
  }

  /** After the last token of a line the rest of its column stays 0. */
  lemma StoredLine(ls: seq<string>, numLines: nat, width: nat, col: nat,
                   numMatrix: seq<seq<int>>, opList: seq<string>)
    requires col < |ls|
    requires Stored(ls, numLines, width, col, |Split(ls[col])|, numMatrix, opList)
    ensures Stored(ls, numLines, width, col + 1, 0, numMatrix, opList)
  {
    var tokens := Split(ls[col]);
    var m := Filled(ls, numLines, width, col, |tokens|);
    var f := Filled(ls, numLines, width, col + 1, 0);
    forall r | 0 <= r < width
      ensures m[r] == f[r]
    {
      assert m[r] == f[r];
    }
    assert tokens[..|tokens|] == tokens;
    assert LineFits(ls, numLines, width, col);
  }

  /** A token that does not fit makes parse_problems raise. */
  lemma StoredReject(ls: seq<string>, numLines: nat, width: nat, col: nat, row: nat)
    requires col < |ls| && row < |Split(ls[col])|
    requires !TokenFits(Split(ls[col]), numLines, width, col, row)
    ensures ParseGrid(ls, numLines, width) == None
  {
    assert !LineFits(ls, numLines, width, col);
  }

  /** Past the last line the matrix and operators are the parsed ones. */
  lemma StoredDone(ls: seq<string>, numLines: nat, width: nat, numMatrix: seq<seq<int>>, opList: seq<string>)
    requires Stored(ls, numLines, width, |ls|, 0, numMatrix, opList)
    ensures ParseGrid(ls, numLines, width) == Some(Worksheet(numMatrix, opList))
  {
    var m := Filled(ls, numLines, width, |ls|, 0);
    var f := seq(width, row => ParsedRow(ls, numLines, row));
    forall r | 0 <= r < width
      ensures m[r] == f[r]
    {
      assert m[r] == f[r];
    }
    assert m == f;
  }

  /** parse_problems */
  method ParseProblems(problemStr: string) returns (r: Option<Worksheet>)
    ensures r == ParseProblemsSpec(problemStr)
  {
    var numLines := NumberLines(problemStr);
    var width := |Split(FirstLine(problemStr))|;
    r := FillMatrix(Lines(problemStr), numLines, width);
  }

  /** The loops of parse_problems: a `width` by `numLines` matrix of zeros,
      then every token of every line stored or appended to the operators. */
  method FillMatrix(lines: seq<string>, numLines: nat, width: nat) returns (r: Option<Worksheet>)
    ensures r == ParseGrid(lines, numLines, width)
  {
    var numMatrix: seq<seq<int>> := seq(width, _ => seq(numLines, _ => 0));
    var opList: seq<string> := [];
    StoredStart(lines, numLines, width);
    for col := 0 to |lines|
      invariant Stored(lines, numLines, width, col, 0, numMatrix, opList)
    {
      var tokens := Split(lines[col]);
      for row := 0 to |tokens|
        invariant Stored(lines, numLines, width, col, row, numMatrix, opList)
      {
        if width == 0 {
          StoredReject(lines, numLines, width, col, row);
          return None;
        }
        if col == numLines {
          StoreOperator(lines, numLines, width, col, row, numMatrix, opList);
          opList := opList + [tokens[row]];
        } else {
          var v := ParseNat(tokens[row]);
          if v.None? || width <= row || numLines <= col {
            StoredReject(lines, numLines, width, col, row);
            return None;
          }
          StoreNumber(lines, numLines, width, col, row, numMatrix, opList);
          numMatrix := numMatrix[row := numMatrix[row][col := v.value]];
        }
      }
      StoredLine(lines, numLines, width, col, numMatrix, opList);
    }
    StoredDone(lines, numLines, width, numMatrix, opList);
    return Some(Worksheet(numMatrix, opList));
  }

  // A worksheet written out the way part one reads it

  /** Number c of every problem, in decimal. */
  function NumberWords(nums: seq<seq<nat>>, c: nat): (ws: seq<string>)
    requires forall r :: 0 <= r < |nums| ==> c < |nums[r]|
    ensures |ws| == |nums|
  {
    seq(|nums|, r requires 0 <= r < |nums| => Decimal(nums[r][c]))
  }

  /** The lines of a worksheet: line c holds number c of every problem,
      separated by single spaces, and the last line the operators. */
  function SheetLines(nums: seq<seq<nat>>, ops: seq<string>, numLines: nat): (ls: seq<string>)
    requires forall r :: 0 <= r < |nums| ==> |nums[r]| == numLines
    ensures |ls| == numLines + 1
  {
    seq(numLines, c requires 0 <= c < numLines => Join(NumberWords(nums, c), " ")) + [Join(ops, " ")]
  }

  /** The text of a worksheet, every line ended by '\n'. */
  function Render(nums: seq<seq<nat>>, ops: seq<string>, numLines: nat): string
    requires forall r :: 0 <= r < |nums| ==> |nums[r]| == numLines
  {
    Join(SheetLines(nums, ops, numLines) + [[]], "\n")
  }

  /** The tokens of each line are the words it was written from. */
  lemma SheetTokens(nums: seq<seq<nat>>, ops: seq<string>, numLines: nat, c: nat)
    requires forall r :: 0 <= r < |nums| ==> |nums[r]| == numLines
    requires forall k :: 0 <= k < |ops| ==> IsWord(ops[k])
    requires c <= numLines
    ensures Split(SheetLines(nums, ops, numLines)[c]) == if c < numLines then NumberWords(nums, c) else ops
    ensures NoBreak(SheetLines(nums, ops, numLines)[c])
  {
    var ls := SheetLines(nums, ops, numLines);
    if c < numLines {
      var ws := NumberWords(nums, c);
      forall r | 0 <= r < |ws|
        ensures IsWord(ws[r])
      {
        DecimalIsWord(nums[r][c]);
      }
      SplitJoin(ws);
      JoinNoBreak(ws);
    } else {
      SplitJoin(ops);
      JoinNoBreak(ops);
    }
  }

  /** The rendered text splits back into the worksheet's lines, with one
      '\n' per line. */
  lemma RenderLines(nums: seq<seq<nat>>, ops: seq<string>, numLines: nat)
    requires forall r :: 0 <= r < |nums| ==> |nums[r]| == numLines
    requires forall k :: 0 <= k < |ops| ==> IsWord(ops[k])
    ensures Lines(Render(nums, ops, numLines)) == SheetLines(nums, ops, numLines)
    ensures NumberLines(Render(nums, ops, numLines)) == numLines
    ensures FirstLine(Render(nums, ops, numLines)) == SheetLines(nums, ops, numLines)[0]
  {
    var ls := SheetLines(nums, ops, numLines);
    var parts := ls + [[]];
    var s := Render(nums, ops, numLines);
    forall k | 0 <= k < |ls|
      ensures NoBreak(ls[k])
    {
      SheetTokens(nums, ops, numLines, k);
    }
    forall k | 0 <= k < |parts|
      ensures '\n' !in parts[k]
    {
      if k < |ls| {
        assert NoBreak(parts[k]);
      }
    }
    LinesJoined(ls);
    SplitOnJoin(parts, '\n');
    SplitOnCount(s, '\n');
  }

  /** Each written-out line can be stored, and a number line holds number
      c of every problem. */
  lemma RenderedLine(nums: seq<seq<nat>>, ops: seq<string>, numLines: nat, c: nat)
    requires |ops| == |nums|
    requires forall r :: 0 <= r < |nums| ==> |nums[r]| == numLines
    requires forall k :: 0 <= k < |ops| ==> IsWord(ops[k])
    requires c <= numLines
    ensures LineFits(SheetLines(nums, ops, numLines), numLines, |nums|, c)
    ensures c < numLines ==> forall r :: 0 <= r < |nums| ==> Entry(SheetLines(nums, ops, numLines), c, r) == nums[r][c]
  {
    var ls := SheetLines(nums, ops, numLines);
    SheetTokens(nums, ops, numLines, c);
    if c < numLines {
      forall r | 0 <= r < |nums|
        ensures ParseNat(Split(ls[c])[r]) == Some(nums[r][c])
      {
        DecimalRoundTrip(nums[r][c]);
      }
    }
  }

  /** Each problem's numbers are read back. */
  lemma RenderedRow(nums: seq<seq<nat>>, ops: seq<string>, numLines: nat, r: nat)
    requires |ops| == |nums|
    requires forall r :: 0 <= r < |nums| ==> |nums[r]| == numLines
    requires forall k :: 0 <= k < |ops| ==> IsWord(ops[k])
    requires r < |nums|
    ensures ParsedRow(SheetLines(nums, ops, numLines), numLines, r) == nums[r]
  {
    var ls := SheetLines(nums, ops, numLines);
    forall c | 0 <= c < numLines
      ensures Entry(ls, c, r) == nums[r][c]
    {
      RenderedLine(nums, ops, numLines, c);
    }
  }

  /** Part one reads a written-out worksheet back: rendering then parsing is
      the identity. */
  lemma ParseRendered(nums: seq<seq<nat>>, ops: seq<string>, numLines: nat)
    requires |ops| == |nums|
    requires forall r :: 0 <= r < |nums| ==> |nums[r]| == numLines
    requires forall k :: 0 <= k < |ops| ==> IsWord(ops[k])
    ensures ParseProblemsSpec(Render(nums, ops, numLines)) == Some(Worksheet(nums, ops))
  {
    var ls := SheetLines(nums, ops, numLines);
    RenderLines(nums, ops, numLines);
    SheetTokens(nums, ops, numLines, 0);
    assert |Split(ls[0])| == |nums|;
    RenderedGrid(nums, ops, numLines);
  }

  lemma RenderedGrid(nums: seq<seq<nat>>, ops: seq<string>, numLines: nat)
    requires |ops| == |nums|
    requires forall r :: 0 <= r < |nums| ==> |nums[r]| == numLines
    requires forall k :: 0 <= k < |ops| ==> IsWord(ops[k])
    ensures ParseGrid(SheetLines(nums, ops, numLines), numLines, |nums|) == Some(Worksheet(nums, ops))
  {
    var ls := SheetLines(nums, ops, numLines);
    var width := |nums|;
    forall c | 0 <= c < |ls|
      ensures LineFits(ls, numLines, width, c)
    {
      RenderedLine(nums, ops, numLines, c);
    }
    forall r | 0 <= r < width
      ensures ParsedRow(ls, numLines, r) == nums[r]
    {
      RenderedRow(nums, ops, numLines, r);
    }
    SheetTokens(nums, ops, numLines, numLines);
    assert seq(width, row => ParsedRow(ls, numLines, row)) == nums;
  }

  // ---------------------------------------------------------------------------
  // Part two: parse_problems_2

  /** The non-space characters at position col of the first k rows, top to bottom. */
  function DigitsUpTo(rows: seq<string>, col: nat, k: nat): (d: string)
    requires k <= |rows| && forall j :: 0 <= j < |rows| ==> col < |rows[j]|
    ensures |d| <= k && ' ' !in d
  {
    if k == 0 then []
    else
      var d := DigitsUpTo(rows, col, k - 1);
      var c := rows[k - 1][col];
      if c != ' ' then d + [c] else d
  }

  /** The non-space characters of one column, read top to bottom: the
      number that column spells. */
  function Digits(rows: seq<string>, col: nat): (d: string)
    requires forall k :: 0 <= k < |rows| ==> col < |rows[k]|
  {
    DigitsUpTo(rows, col, |rows|)
  }

  lemma {:induction false} BlankUpTo(rows: seq<string>, col: nat, k: nat)
    requires k <= |rows| && forall j :: 0 <= j < |rows| ==> col < |rows[j]|
    ensures DigitsUpTo(rows, col, k) == [] <==> forall j :: 0 <= j < k ==> rows[j][col] == ' '
  {
    if k > 0 {
      BlankUpTo(rows, col, k - 1);
    }
  }

  /** A column is blank exactly when it contributes no characters. */
  lemma BlankColumn(rows: seq<string>, col: nat)
    requires forall k :: 0 <= k < |rows| ==> col < |rows[k]|
    ensures Digits(rows, col) == [] <==> forall k :: 0 <= k < |rows| ==> rows[k][col] == ' '
  {
    BlankUpTo(rows, col, |rows|);
  }

  lemma {:induction false} InDigitsUpTo(rows: seq<string>, col: nat, k: nat, j: nat)
    requires k <= |rows| && forall j :: 0 <= j < |rows| ==> col < |rows[j]|
    requires j < k && rows[j][col] != ' '
    ensures rows[j][col] in DigitsUpTo(rows, col, k)
  {
    if j < k - 1 {
      InDigitsUpTo(rows, col, k - 1, j);
    }
  }

  /** Each non-space character of the column is in the number. */
  lemma DigitsAreColumn(rows: seq<string>, col: nat, k: nat)
    requires forall k :: 0 <= k < |rows| ==> col < |rows[k]|
    requires k < |rows| && rows[k][col] != ' '
    ensures rows[k][col] in Digits(rows, col)
  {
    InDigitsUpTo(rows, col, |rows|, k);
  }

  predicate ColumnReadable(rows: seq<string>, col: nat)
    requires forall k :: 0 <= k < |rows| ==> col < |rows[k]|
  {
    Digits(rows, col) == [] || ParseNat(Digits(rows, col)).Some?
  }

  /** The number a column reads as, None for a blank column. */
  function ColumnValue(rows: seq<string>, col: nat): Option<nat>
    requires forall k :: 0 <= k < |rows| ==> col < |rows[k]|
    requires ColumnReadable(rows, col)
  {
    if Digits(rows, col) == [] then None else Some(ParseNat(Digits(rows, col)).value)
  }

  /** The first n columns, each as its number or None when blank. */
  function ColumnValues(rows: seq<string>, n: nat): (vs: seq<Option<nat>>)
    requires forall k :: 0 <= k < |rows| ==> n <= |rows[k]|
    requires forall c :: 0 <= c < n ==> ColumnReadable(rows, c)
    ensures |vs| == n
  {
    if n == 0 then [] else ColumnValues(rows, n - 1) + [ColumnValue(rows, n - 1)]
  }

  lemma {:induction false} ColumnValuesAt(rows: seq<string>, n: nat, c: nat)
    requires forall k :: 0 <= k < |rows| ==> n <= |rows[k]|
    requires forall c :: 0 <= c < n ==> ColumnReadable(rows, c)
    requires c < n
    ensures ColumnValues(rows, n)[c] == ColumnValue(rows, c)
  {
    if c < n - 1 {
      ColumnValuesAt(rows, n - 1, c);
    }
  }

  // The columns between blank ones form a group (the generic splitting of a
  // sequence at its Nones).

  /** The runs of values between the Nones, always at least one (possibly
      empty) run. */
  function SplitAtNone<T>(xs: seq<Option<T>>): (gs: seq<seq<T>>)
    ensures |gs| >= 1
  {
    if xs == [] then [[]]
    else
      var gs := SplitAtNone(xs[..|xs| - 1]);
      match xs[|xs| - 1]
      case None => gs + [[]]
      case Some(v) => gs[..|gs| - 1] + [gs[|gs| - 1] + [v]]
  }

  lemma SplitAtNoneSnoc<T>(xs: seq<Option<T>>, x: Option<T>)
    ensures var gs := SplitAtNone(xs);
      SplitAtNone(xs + [x]) == if x.None? then gs + [[]] else gs[..|gs| - 1] + [gs[|gs| - 1] + [x.value]]
  {
    assert (xs + [x])[..|xs|] == xs;
  }

  function Somes<T>(vs: seq<T>): (xs: seq<Option<T>>)
    ensures |xs| == |vs| && forall k :: 0 <= k < |vs| ==> xs[k] == Some(vs[k])
  {
    seq(|vs|, k requires 0 <= k < |vs| => Some(vs[k]))
  }

  /** The groups written back out with a None between neighbours. */
  function JoinAtNone<T>(gs: seq<seq<T>>): seq<Option<T>> {
    if gs == [] then []
    else if |gs| == 1 then Somes(gs[0])
    else JoinAtNone(gs[..|gs| - 1]) + [None] + Somes(gs[|gs| - 1])
  }

  /** A blank column after the groups opens an empty group. */
  lemma JoinAddEmpty<T>(gs: seq<seq<T>>)
    requires gs != []
    ensures JoinAtNone(gs + [[]]) == JoinAtNone(gs) + [None]
  {
    assert (gs + [[]])[..|gs|] == gs;
    assert Somes<T>([]) == [];
  }

  lemma SomesSnoc<T>(vs: seq<T>, v: T)
    ensures Somes(vs + [v]) == Somes(vs) + [Some(v)]
  {
  }

  lemma JoinLast<T>(pre: seq<seq<T>>, last: seq<T>)
    requires pre != []
    ensures JoinAtNone(pre + [last]) == JoinAtNone(pre) + [None] + Somes(last)
  {
    assert (pre + [last])[..|pre|] == pre;
  }

  /** A value after the groups extends the last group. */
  lemma JoinExtendLast<T>(pre: seq<seq<T>>, last: seq<T>, v: T)
    ensures JoinAtNone(pre + [last + [v]]) == JoinAtNone(pre + [last]) + [Some(v)]
  {
    SomesSnoc(last, v);
    if pre == [] {
      assert pre + [last + [v]] == [last + [v]];
      assert pre + [last] == [last];
    } else {
      JoinLast(pre, last + [v]);
      JoinLast(pre, last);
      AppendAssoc(JoinAtNone(pre) + [None], Somes(last), [Some(v)]);
    }
  }

  /** Splitting then joining gives the columns back. */
  lemma {:induction false} JoinSplitAtNone<T>(xs: seq<Option<T>>)
    ensures JoinAtNone(SplitAtNone(xs)) == xs
  {
    if xs != [] {
      var init, x := xs[..|xs| - 1], xs[|xs| - 1];
      var gs := SplitAtNone(init);
      JoinSplitAtNone(init);
      assert init + [x] == xs;
      SplitAtNoneSnoc(init, x);
      if x.None? {
        JoinAddEmpty(gs);
      } else {
        JoinExtendLast(gs[..|gs| - 1], gs[|gs| - 1], x.value);
        assert gs[..|gs| - 1] + [gs[|gs| - 1]] == gs;
      }
    }
  }

  /** Joining then splitting gives the groups back. */
  lemma {:induction false} SplitJoinAtNone<T>(gs: seq<seq<T>>)
    requires gs != []
    ensures SplitAtNone(JoinAtNone(gs)) == gs
    decreases |JoinAtNone(gs)|
  {
    var last := gs[|gs| - 1];
    var pre := gs[..|gs| - 1];
    if last != [] {
      var shorter := pre + [last[..|last| - 1]];
      assert shorter[..|shorter| - 1] == pre;
      JoinExtendLast(pre, last[..|last| - 1], last[|last| - 1]);
      assert last[..|last| - 1] + [last[|last| - 1]] == last;
      assert pre + [last] == gs;
      SplitJoinAtNone(shorter);
      SplitAtNoneSnoc(JoinAtNone(shorter), Some(last[|last| - 1]));
    } else if |gs| > 1 {
      JoinAddEmpty(pre);
      assert pre + [[]] == gs;
      SplitJoinAtNone(pre);
      SplitAtNoneSnoc(JoinAtNone(pre), None);
    } else {
      assert gs == [[]];
      assert JoinAtNone(gs) == Somes<T>([]) == [];
    }
  }

  /** One group more than there are blank columns. */
  lemma {:induction false} GroupCount<T>(xs: seq<Option<T>>)
    ensures |SplitAtNone(xs)| == 1 + Count(xs, None)
  {
    if xs != [] {
      GroupCount(xs[..|xs| - 1]);
    }
  }

  /** What parse_problems_2 returns for the text, None where it raises:
      the operator tokens of the last line, and the columns of the lines
      above it (as wide as the first line) grouped between blank columns. */
  function ParseColumnsSpec(s: string): (r: Option<Worksheet>)
    ensures r.Some? ==> Lines(s) != [] && r.value.ops == Split(Lines(s)[|Lines(s)| - 1])
  {
    var ls := Lines(s);
    if ls == [] then None
    else
      var groups := ColumnGroups(ls[..|ls| - 1], |FirstLine(s)|);
      if groups.None? then None else Some(Worksheet(groups.value, Split(ls[|ls| - 1])))
  }

  /** The first n columns of the rows grouped between blank columns, None
      where a row is too short or a column is not a number. */
  function ColumnGroups(rows: seq<string>, n: nat): Option<seq<seq<nat>>> {
    if !(forall k :: 0 <= k < |rows| ==> n <= |rows[k]|) then None
    else if !(forall c :: 0 <= c < n ==> ColumnReadable(rows, c)) then None
    else Some(SplitAtNone(ColumnValues(rows, n)))
  }

  /** What the column loop of parse_problems_2 keeps after `col` columns:
      every row reaches that far, each column so far is blank or a number,
      and the finished groups and the open one are those columns grouped. */
  predicate ColumnsRead(rows: seq<string>, col: nat, numMatrix: seq<seq<nat>>, currentNums: seq<nat>) {
    (forall k :: 0 <= k < |rows| ==> col <= |rows[k]|) &&
    (forall c :: 0 <= c < col ==> ColumnReadable(rows, c)) &&
    numMatrix + [currentNums] == SplitAtNone(ColumnValues(rows, col))
  }

  /** A blank column closes the open group. */
  lemma ReadBlank(rows: seq<string>, col: nat, numMatrix: seq<seq<nat>>, currentNums: seq<nat>)
    requires ColumnsRead(rows, col, numMatrix, currentNums)
    requires forall k :: 0 <= k < |rows| ==> col < |rows[k]|
    requires Digits(rows, col) == []
    ensures ColumnsRead(rows, col + 1, numMatrix + [currentNums], [])
  {
    var gs := numMatrix + [currentNums];
    SplitAtNoneSnoc(ColumnValues(rows, col), ColumnValue(rows, col));
  }

  /** A number column adds its number to the open group. */
  lemma ReadNumber(rows: seq<string>, col: nat, numMatrix: seq<seq<nat>>, currentNums: seq<nat>)
    requires ColumnsRead(rows, col, numMatrix, currentNums)
    requires forall k :: 0 <= k < |rows| ==> col < |rows[k]|
    requires ParseNat(Digits(rows, col)).Some?
    ensures ColumnsRead(rows, col + 1, numMatrix, currentNums + [ParseNat(Digits(rows, col)).value])
  {
    var gs := numMatrix + [currentNums];
    SplitAtNoneSnoc(ColumnValues(rows, col), ColumnValue(rows, col));
    assert gs[..|gs| - 1] == numMatrix;
  }

  /** A row shorter than the first line makes parse_problems_2 raise. */
  lemma RejectShort(rows: seq<string>, n: nat, col: nat)
    requires col < n && exists k :: 0 <= k < |rows| && |rows[k]| <= col
    ensures ColumnGroups(rows, n) == None
  {
  }

  /** A column that is neither blank nor a number makes it raise too. */
  lemma RejectColumn(rows: seq<string>, n: nat, col: nat)
    requires col < n && forall k :: 0 <= k < |rows| ==> col < |rows[k]|
    requires !ColumnReadable(rows, col)
    ensures ColumnGroups(rows, n) == None
  {
  }

  /** parse_problems_2 */
  method ParseProblems2(problemStr: string) returns (r: Option<Worksheet>)
    ensures r == ParseColumnsSpec(problemStr)
  {
    var lines := Lines(problemStr);
    if lines == [] {
      return None;
    }
    var opList := Split(lines[|lines| - 1]);
    var nCols := |FirstLine(problemStr)|;
    var groups := ReadColumns(lines[..|lines| - 1], nCols);
    if groups.None? {
      return None;
    }
    return Some(Worksheet(groups.value, opList));
  }

  /** The column loop of parse_problems_2. */
  method ReadColumns(rows: seq<string>, nCols: nat) returns (r: Option<seq<seq<nat>>>)
    ensures r == ColumnGroups(rows, nCols)
  {
    var numMatrix: seq<seq<nat>> := [];
    var currentNums: seq<nat> := [];
    for col := 0 to nCols
      invariant ColumnsRead(rows, col, numMatrix, currentNums)
    {
      if exists k :: 0 <= k < |rows| && |rows[k]| <= col {
        RejectShort(rows, nCols, col);
        return None;
      }
      assert forall k :: 0 <= k < |rows| ==> col < |rows[k]|;
      BlankColumn(rows, col);
      if forall k :: 0 <= k < |rows| ==> rows[k][col] == ' ' {
        ReadBlank(rows, col, numMatrix, currentNums);
        numMatrix := numMatrix + [currentNums];
        currentNums := [];
        continue;
      }
      var numStr := "";
      for k := 0 to |rows|
        invariant numStr == DigitsUpTo(rows, col, k)
      {
        if rows[k][col] != ' ' {
          numStr := numStr + [rows[k][col]];
        }
      }
      var v := ParseNat(numStr);
      if v.None? {
        RejectColumn(rows, nCols, col);
        return None;
      }
      ReadNumber(rows, col, numMatrix, currentNums);
      currentNums := currentNums + [v.value];
    }
    numMatrix := numMatrix + [currentNums];
    return Some(numMatrix);
  }

  // A worksheet written out the way part two reads it: every number a
  // column of its digits from the top, padded with spaces below, and a
  // column of spaces between neighbouring groups.

  /** The non-space characters of s, in order. */
  function NonSpaces(s: string): (t: string)
    ensures ' ' !in t
  {
    if s == [] then []
    else if s[|s| - 1] == ' ' then NonSpaces(s[..|s| - 1])
    else NonSpaces(s[..|s| - 1]) + [s[|s| - 1]]
  }

  lemma {:induction false} NonSpacesAppend(a: string, b: string)
    ensures NonSpaces(a + b) == NonSpaces(a) + NonSpaces(b)
    decreases |b|
  {
    if b == [] {
      assert a + b == a;
    } else {
      assert (a + b)[..|a + b| - 1] == a + b[..|b| - 1];
      NonSpacesAppend(a, b[..|b| - 1]);
    }
  }

  lemma {:induction false} NonSpacesOfWord(s: string)
    requires forall i :: 0 <= i < |s| ==> s[i] != ' '
    ensures NonSpaces(s) == s
  {
    if s != [] {
      NonSpacesOfWord(s[..|s| - 1]);
      assert s[..|s| - 1] + [s[|s| - 1]] == s;
    }
  }

  function Spaces(m: nat): (t: string)
    ensures |t| == m && forall i :: 0 <= i < m ==> t[i] == ' '
  {
    seq(m, _ => ' ')
  }

  lemma {:induction false} NonSpacesOfSpaces(m: nat)
    ensures NonSpaces(Spaces(m)) == []
  {
    if m > 0 {
      NonSpacesOfSpaces(m - 1);
      assert Spaces(m)[..m - 1] == Spaces(m - 1);
    }
  }

  /** Every number fits in h characters. */
  predicate FitsHeight(cells: seq<Option<nat>>, h: nat) {
    forall c :: 0 <= c < |cells| && cells[c].Some? ==> |Decimal(cells[c].value)| <= h
  }

  /** One column, h characters from the top: a number's digits then spaces,
      or only spaces. */
  function ColumnText(x: Option<nat>, h: nat): (t: string)
    requires x.Some? ==> |Decimal(x.value)| <= h
    ensures |t| == h
  {
    if x.None? then Spaces(h) else Decimal(x.value) + Spaces(h - |Decimal(x.value)|)
  }

  /** A column of digits and spaces reads as its number, a column of spaces as blank. */
  lemma ColumnTextReads(x: Option<nat>, h: nat)
    requires x.Some? ==> |Decimal(x.value)| <= h
    ensures NonSpaces(ColumnText(x, h)) == if x.None? then [] else Decimal(x.value)
  {
    if x.None? {
      NonSpacesOfSpaces(h);
    } else {
      var d := Decimal(x.value);
      var pad := Spaces(h - |d|);
      assert ColumnText(x, h) == d + pad;
      assert forall i :: 0 <= i < |d| ==> d[i] != ' ' by {
        forall i | 0 <= i < |d| ensures d[i] != ' ' { assert IsDigit(d[i]); }
      }
      NonSpacesAppend(d, pad);
      NonSpacesOfWord(d);
      NonSpacesOfSpaces(h - |d|);
    }
  }

  /** A column holds only digits and spaces, so no line break. */
  lemma ColumnTextNoBreak(x: Option<nat>, h: nat)
    requires x.Some? ==> |Decimal(x.value)| <= h
    ensures NoBreak(ColumnText(x, h))
  {
    var t := ColumnText(x, h);
    forall i | 0 <= i < h
      ensures !IsLineBreak(t[i])
    {
      if x.Some? && i < |Decimal(x.value)| {
        assert t[i] == Decimal(x.value)[i];
        assert IsDigit(t[i]);
      } else {
        assert t[i] == ' ';
      }
    }
  }

  /** The rows of the text, row i holding character i of every column. */
  function Transpose(cols: seq<string>, h: nat): (rows: seq<string>)
    requires forall c :: 0 <= c < |cols| ==> |cols[c]| == h
    ensures |rows| == h && forall i :: 0 <= i < h ==> |rows[i]| == |cols|
  {
    seq(h, i requires 0 <= i < h => seq(|cols|, c requires 0 <= c < |cols| => cols[c][i]))
  }

  /** Reading a column of the rows gives back the column's characters. */
  lemma {:induction false} DigitsTransposed(cols: seq<string>, h: nat, c: nat, k: nat)
    requires forall c :: 0 <= c < |cols| ==> |cols[c]| == h
    requires c < |cols| && k <= h
    ensures DigitsUpTo(Transpose(cols, h), c, k) == NonSpaces(cols[c][..k])
  {
    if k > 0 {
      DigitsTransposed(cols, h, c, k - 1);
      assert cols[c][..k][..k - 1] == cols[c][..k - 1];
    }
  }

  /** The columns of the cells. */
  function CellColumns(cells: seq<Option<nat>>, h: nat): (cols: seq<string>)
    requires FitsHeight(cells, h)
    ensures |cols| == |cells| && forall c :: 0 <= c < |cells| ==> |cols[c]| == h
  {
    seq(|cells|, c requires 0 <= c < |cells| => ColumnText(cells[c], h))
  }

  /** Each column of the rows reads as its cell. */
  lemma ColumnsReadBack(cells: seq<Option<nat>>, h: nat, c: nat)
    requires FitsHeight(cells, h) && c < |cells|
    ensures ColumnReadable(Transpose(CellColumns(cells, h), h), c)
    ensures ColumnValue(Transpose(CellColumns(cells, h), h), c) == cells[c]
  {
    var cols := CellColumns(cells, h);
    DigitsTransposed(cols, h, c, h);
    assert cols[c][..h] == cols[c];
    ColumnTextReads(cells[c], h);
    if cells[c].Some? {
      DecimalRoundTrip(cells[c].value);
    }
  }

  /** The rows are long enough, every column is readable, and the columns
      read back as the cells. */
  lemma CellsReadBack(cells: seq<Option<nat>>, h: nat)
    requires FitsHeight(cells, h)
    ensures var rows := Transpose(CellColumns(cells, h), h);
      (forall k :: 0 <= k < |rows| ==> |cells| <= |rows[k]|) &&
      (forall c :: 0 <= c < |cells| ==> ColumnReadable(rows, c)) &&
      ColumnValues(rows, |cells|) == cells
  {
    var rows := Transpose(CellColumns(cells, h), h);
    forall c | 0 <= c < |cells|
      ensures ColumnReadable(rows, c) && ColumnValue(rows, c) == cells[c]
    {
      ColumnsReadBack(cells, h, c);
    }
    forall c | 0 <= c < |cells|
      ensures ColumnValues(rows, |cells|)[c] == cells[c]
    {
      ColumnValuesAt(rows, |cells|, c);
    }
  }

  /** The rows give back the groups. */
  lemma GroupsReadBack(groups: seq<seq<nat>>, h: nat)
    requires groups != [] && FitsHeight(JoinAtNone(groups), h)
    ensures var cells := JoinAtNone(groups);
      ColumnGroups(Transpose(CellColumns(cells, h), h), |cells|) == Some(groups)
  {
    CellsReadBack(JoinAtNone(groups), h);
    SplitJoinAtNone(groups);
  }

  /** The text: the rows, then the operators, every line ended by '\n'. */
  function RenderColumns(groups: seq<seq<nat>>, ops: seq<string>, h: nat): string
    requires FitsHeight(JoinAtNone(groups), h)
  {
    Join(Transpose(CellColumns(JoinAtNone(groups), h), h) + [Join(ops, " ")] + [[]], "\n")
  }

  /** The rendered text splits back into the rows and the operator line. */
  lemma RenderColumnsLines(groups: seq<seq<nat>>, ops: seq<string>, h: nat)
    requires h >= 1 && FitsHeight(JoinAtNone(groups), h)
    requires forall k :: 0 <= k < |ops| ==> IsWord(ops[k])
    ensures var rows := Transpose(CellColumns(JoinAtNone(groups), h), h);
      Lines(RenderColumns(groups, ops, h)) == rows + [Join(ops, " ")] &&
      FirstLine(RenderColumns(groups, ops, h)) == rows[0]
  {
    var cells := JoinAtNone(groups);
    var cols := CellColumns(cells, h);
    var rows := Transpose(cols, h);
    var parts := rows + [Join(ops, " ")] + [[]];
    forall i | 0 <= i < h
      ensures NoBreak(rows[i]) && '\n' !in rows[i]
    {
      forall c | 0 <= c < |cells|
        ensures !IsLineBreak(rows[i][c])
      {
        ColumnTextNoBreak(cells[c], h);
        assert rows[i][c] == cols[c][i];
      }
    }
    JoinNoBreak(ops);
    LinesJoined(rows + [Join(ops, " ")]);
    assert parts == (rows + [Join(ops, " ")]) + [[]];
    SplitOnJoin(parts, '\n');
  }

  /** Part two reads a worksheet written out column by column back: rendering
      then parsing is the identity. */
  lemma ParseColumnsRendered(groups: seq<seq<nat>>, ops: seq<string>, h: nat)
    requires groups != [] && h >= 1 && FitsHeight(JoinAtNone(groups), h)
    requires forall k :: 0 <= k < |ops| ==> IsWord(ops[k])
    ensures ParseColumnsSpec(RenderColumns(groups, ops, h)) == Some(Worksheet(groups, ops))
  {
    var cells := JoinAtNone(groups);
    var rows := Transpose(CellColumns(cells, h), h);
    var ls := rows + [Join(ops, " ")];
    RenderColumnsLines(groups, ops, h);
    assert ls[..|ls| - 1] == rows;
    GroupsReadBack(groups, h);
    SplitJoin(ops);
  }

  // ---------------------------------------------------------------------------
  // calc_problems

  /** `functools.reduce(op, xs)`: a left fold starting from the first element. */
  function Reduce(op: (int, int) -> int, xs: seq<int>): int
    requires xs != []
  {
    if |xs| == 1 then xs[0] else op(Reduce(op, xs[..|xs| - 1]), xs[|xs| - 1])
  }

  function Add(x: int, y: int): int { x + y }

  function Mul(x: int, y: int): int { x * y }

  /** The product of the numbers, multiplied from the front. */
  function Product(xs: seq<int>): int {
    if xs == [] then 1 else xs[0] * Product(xs[1..])
  }

  lemma {:induction false} ReduceAdd(xs: seq<int>)
    requires xs != []
    ensures Reduce(Add, xs) == Sum(xs)
  {
    if |xs| > 1 {
      ReduceAdd(xs[..|xs| - 1]);
    } else {
      assert xs[..0] == [];
    }
  }

  lemma {:induction false} ProductSnoc(xs: seq<int>, x: int)
    ensures Product(xs + [x]) == Product(xs) * x
  {
    if xs != [] {
      assert (xs + [x])[1..] == xs[1..] + [x];
      ProductSnoc(xs[1..], x);
      MulAssociative(xs[0], Product(xs[1..]), x);
    }
  }

  lemma {:induction false} ReduceMul(xs: seq<int>)
    requires xs != []
    ensures Reduce(Mul, xs) == Product(xs)
  {
    if |xs| > 1 {
      var init := xs[..|xs| - 1];
      ReduceMul(init);
      ProductSnoc(init, xs[|xs| - 1]);
      assert init + [xs[|xs| - 1]] == xs;
    }
  }

  /** The answer to one problem: the product for `*`, the sum otherwise. */
  function Answer(nums: seq<int>, op: string): int {
    if op == "*" then Product(nums) else Sum(nums)
  }

  /** The sum of the answers to the first k problems. */
  function AnswerSum(w: Worksheet, k: nat): int
    requires k <= |w.nums| && k <= |w.ops|
  {
    if k == 0 then 0 else AnswerSum(w, k - 1) + Answer(w.nums[k - 1], w.ops[k - 1])
  }

  /** The number of problems `zip` pairs up. */
  function Paired(w: Worksheet): nat {
    if |w.nums| < |w.ops| then |w.nums| else |w.ops|
  }

  /** What calc_problems returns, None where `reduce` raises on an empty
      problem among those paired with an operator. */
  function GrandTotal(w: Worksheet): Option<int> {
    if exists i :: 0 <= i < Paired(w) && w.nums[i] == [] then None
    else Some(AnswerSum(w, Paired(w)))
  }

  /** The sum over the first k problems only looks at those problems. */
  lemma {:induction false} AnswerSumPrefix(w: Worksheet, v: Worksheet, k: nat)
    requires k <= |w.nums| && k <= |w.ops| && k <= |v.nums| && k <= |v.ops|
    requires w.nums[..k] == v.nums[..k] && w.ops[..k] == v.ops[..k]
    ensures AnswerSum(w, k) == AnswerSum(v, k)
  {
    if k > 0 {
      assert w.nums[..k - 1] == w.nums[..k][..k - 1];
      assert v.nums[..k - 1] == v.nums[..k][..k - 1];
      assert w.ops[..k - 1] == w.ops[..k][..k - 1];
      assert v.ops[..k - 1] == v.ops[..k][..k - 1];
      assert w.nums[k - 1] == w.nums[..k][k - 1];
      assert w.ops[k - 1] == w.ops[..k][k - 1];
      AnswerSumPrefix(w, v, k - 1);
    }
  }

  /** A group without an operator (`zip` stops at the shorter list) does not
      change the total, even when it is empty. */
  lemma GrandTotalIgnoresSurplus(nums: seq<seq<int>>, ops: seq<string>, extra: seq<int>)
    requires |ops| <= |nums|
    ensures GrandTotal(Worksheet(nums + [extra], ops)) == GrandTotal(Worksheet(nums, ops))
  {
    var w := Worksheet(nums + [extra], ops);
    var v := Worksheet(nums, ops);
    assert Paired(w) == Paired(v) == |ops|;
    assert (nums + [extra])[..|ops|] == nums[..|ops|];
    AnswerSumPrefix(w, v, |ops|);
    assert forall i :: 0 <= i < |ops| ==> w.nums[i] == v.nums[i];
  }

  /** One more problem with its operator adds its answer to the total. */
  lemma GrandTotalSnoc(nums: seq<seq<int>>, ops: seq<string>, g: seq<int>, op: string)
    requires |ops| == |nums| && g != []
    ensures GrandTotal(Worksheet(nums + [g], ops + [op])) ==
      if GrandTotal(Worksheet(nums, ops)).None? then None
      else Some(GrandTotal(Worksheet(nums, ops)).value + Answer(g, op))
  {
    var w := Worksheet(nums + [g], ops + [op]);
    var v := Worksheet(nums, ops);
    assert Paired(w) == |nums| + 1 && Paired(v) == |nums|;
    assert w.nums[..|nums|] == v.nums[..|nums|] && w.ops[..|nums|] == v.ops[..|nums|];
    AnswerSumPrefix(w, v, |nums|);
    assert forall i :: 0 <= i < |nums| ==> w.nums[i] == v.nums[i];
    if exists i :: 0 <= i < Paired(v) && v.nums[i] == [] {
      var i :| 0 <= i < Paired(v) && v.nums[i] == [];
      assert w.nums[i] == [];
    }
  }

  /** calc_problems */
  method CalcProblems(numMatrix: seq<seq<int>>, opList: seq<string>) returns (r: Option<int>)
    ensures r == GrandTotal(Worksheet(numMatrix, opList))
  {
    ghost var w := Worksheet(numMatrix, opList);
    var total := 0;
    var n := if |numMatrix| < |opList| then |numMatrix| else |opList|;
    for i := 0 to n
      invariant forall j :: 0 <= j < i ==> numMatrix[j] != []
      invariant total == AnswerSum(w, i)
    {
      var numList := numMatrix[i];
      var op := if opList[i] == "*" then Mul else Add;
      if numList == [] {
        return None;
      }
      if opList[i] == "*" {
        ReduceMul(numList);
      } else {
        ReduceAdd(numList);
      }
      total := total + Reduce(op, numList);
    }
    return Some(total);
  }
}
