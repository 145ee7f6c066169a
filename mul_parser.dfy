/** day_03: `ParserFSA`, a recogniser fed one character at a time that reports the
    product of every complete `mul(a,b)` and, when asked to, obeys `do()` and `don't()`. */
module MulParser {
  import opened Basics

  datatype State =
    | Initial | M | U | L | Bracket | Number1 | Comma | Number2
    | D | O | DoBracket | N | Apostrophe | T | DontBracket

  /** The mutable part of a parser: the state, the two digit buffers and `multEnabled_`. */
  datatype Config = Config(state: State, number1: string, number2: string, multEnabled: bool)

  const IntMax: nat := 0x7fff_ffff

  predicate Digits(cfg: Config) {
    AllDigits(cfg.number1) && AllDigits(cfg.number2)
  }

  /** The states inside a `mul(a,b)` match. */
  predicate InMul(s: State) {
    s in {M, U, L, Bracket, Number1, Comma, Number2}
  }

  /** The states inside a `do()` or `don't()` match. */
  predicate InDoDont(s: State) {
    s in {D, O, DoBracket, N, Apostrophe, T, DontBracket}
  }

  /** What the states promise about the buffers: the first number is being read in
      NUMBER_1 and COMMA, both in NUMBER_2, and neither anywhere else. */
  predicate Consistent(cfg: Config) {
    && Digits(cfg)
    && (cfg.state == Number1 || cfg.state == Comma ==> cfg.number1 != [] && cfg.number2 == [])
    && (cfg.state == Number2 ==> cfg.number1 != [] && cfg.number2 != [])
    && (cfg.state != Number1 && cfg.state != Comma && cfg.state != Number2 ==> cfg.number1 == [] && cfg.number2 == [])
  }

  /** `std::stoi` of both buffers and their `int` product do not overflow. */
  predicate ProductFits(cfg: Config)
    requires Digits(cfg)
  {
    DecimalValue(cfg.number1) <= IntMax && DecimalValue(cfg.number2) <= IntMax
    && DecimalValue(cfg.number1) * DecimalValue(cfg.number2) <= IntMax
  }

  /** `handleInitial`: an `m` starts a mult (when enabled), a `d` starts a do/don't
      (when that logic is on); anything else leaves the parser where it is. */
  function Enter(useDoDont: bool, cfg: Config, c: char): Config {
    if cfg.multEnabled && c == 'm' then cfg.(state := M)
    else if useDoDont && c == 'd' then cfg.(state := D)
    else cfg
  }

  /** `reset`: clear both buffers, go back to INITIAL and read the symbol again there. */
  function Restart(useDoDont: bool, cfg: Config, c: char): (r: Config)
    ensures r.number1 == [] && r.number2 == [] && r.multEnabled == cfg.multEnabled
    ensures r.state == Initial || r.state == M || r.state == D
  {
    Enter(useDoDont, Config(Initial, [], [], cfg.multEnabled), c)
  }

  function Expect(useDoDont: bool, cfg: Config, c: char, want: char, next: State): Config {
    if c == want then cfg.(state := next) else Restart(useDoDont, cfg, c)
  }

  /** `feedSymbol`: the next configuration and the value returned. */
  function Step(useDoDont: bool, cfg: Config, c: char): (r: (Config, int))
    requires Digits(cfg)
    ensures Digits(r.0)
  {
    match cfg.state
    case Initial => (Enter(useDoDont, cfg, c), 0)
    case M => (Expect(useDoDont, cfg, c, 'u', U), 0)
    case U => (Expect(useDoDont, cfg, c, 'l', L), 0)
    case L => (Expect(useDoDont, cfg, c, '(', Bracket), 0)
    case Bracket =>
      if IsDigit(c) then (cfg.(state := Number1, number1 := cfg.number1 + [c]), 0)
      else (Restart(useDoDont, cfg, c), 0)
    case Number1 =>
      if IsDigit(c) then (cfg.(number1 := cfg.number1 + [c]), 0)
      else if c == ',' then (cfg.(state := Comma), 0)
      else (Restart(useDoDont, cfg, c), 0)
    case Comma =>
      if IsDigit(c) then (cfg.(state := Number2, number2 := cfg.number2 + [c]), 0)
      else (Restart(useDoDont, cfg, c), 0)
    case Number2 =>
      if IsDigit(c) then (cfg.(number2 := cfg.number2 + [c]), 0)
      else if c == ')' then (Restart(useDoDont, cfg, c), DecimalValue(cfg.number1) * DecimalValue(cfg.number2))
      else (Restart(useDoDont, cfg, c), 0)
    case D => (Expect(useDoDont, cfg, c, 'o', O), 0)
    case O =>
      if c == '(' then (cfg.(state := DoBracket), 0)
      else if c == 'n' then (cfg.(state := N), 0)
      else (Restart(useDoDont, cfg, c), 0)
    case DoBracket => (Restart(useDoDont, if c == ')' then cfg.(multEnabled := true) else cfg, c), 0)
    case N => (Expect(useDoDont, cfg, c, '\'', Apostrophe), 0)
    case Apostrophe => (Expect(useDoDont, cfg, c, 't', T), 0)
    case T => (Expect(useDoDont, cfg, c, '(', DontBracket), 0)
    case DontBracket => (Restart(useDoDont, if c == ')' then cfg.(multEnabled := false) else cfg, c), 0)
  }

  /** A step keeps the buffers in the shape the new state promises. */
  lemma StepConsistent(useDoDont: bool, cfg: Config, c: char)
    requires Consistent(cfg)
    ensures Consistent(Step(useDoDont, cfg, c).0)
  {
  }

  /** Only the `)` that closes a `mul(a,b)` returns something other than 0, and only the
      `)` of a `do()` or `don't()` changes whether mults are enabled. */
  lemma StepEffects(useDoDont: bool, cfg: Config, c: char)
    requires Digits(cfg)
    ensures Step(useDoDont, cfg, c).1 != 0 ==> cfg.state == Number2 && c == ')'
    ensures Step(useDoDont, cfg, c).0.multEnabled != cfg.multEnabled
      ==> c == ')' && (cfg.state == DoBracket || cfg.state == DontBracket)
  {
  }

  /** The value a step returns: the product of the two numbers on the `)` that closes
      a mult, and 0 otherwise. */
  lemma StepValue(useDoDont: bool, cfg: Config, c: char)
    requires Digits(cfg)
    ensures Step(useDoDont, cfg, c).1
      == if cfg.state == Number2 && c == ')' then DecimalValue(cfg.number1) * DecimalValue(cfg.number2) else 0
  {
  }

  lemma ProductNonNegative(a: nat, b: nat)
    ensures a * b >= 0
  {
  }

  /** The value returned fits an `int` whenever the product it would be does. */
  lemma StepFits(useDoDont: bool, cfg: Config, c: char)
    requires Digits(cfg)
    requires cfg.state == Number2 && c == ')' ==> ProductFits(cfg)
    ensures 0 <= Step(useDoDont, cfg, c).1 <= IntMax
  {
    StepValue(useDoDont, cfg, c);
    ProductNonNegative(DecimalValue(cfg.number1), DecimalValue(cfg.number2));
  }

  /** Feeding a whole string: the final configuration and the value returned for each symbol. */
  function Feed(useDoDont: bool, cfg: Config, s: string): (r: (Config, seq<int>))
    requires Digits(cfg)
    ensures Digits(r.0) && |r.1| == |s|
    decreases |s|
  {
    if s == [] then (cfg, [])
    else
      var first := Step(useDoDont, cfg, s[0]);
      var rest := Feed(useDoDont, first.0, s[1..]);
      (rest.0, [first.1] + rest.1)
  }

  lemma {:induction false} FeedAppend(useDoDont: bool, cfg: Config, s: string, t: string)
    requires Digits(cfg)
    ensures Feed(useDoDont, cfg, s + t).0 == Feed(useDoDont, Feed(useDoDont, cfg, s).0, t).0
    ensures Feed(useDoDont, cfg, s + t).1 == Feed(useDoDont, cfg, s).1 + Feed(useDoDont, Feed(useDoDont, cfg, s).0, t).1
    decreases |s|
  {
    if s == [] {
      assert s + t == t;
    } else {
      var first := Step(useDoDont, cfg, s[0]);
      assert (s + t)[0] == s[0] && (s + t)[1..] == s[1..] + t;
      FeedAppend(useDoDont, first.0, s[1..], t);
      var mid := Feed(useDoDont, first.0, s[1..]);
      var tail := Feed(useDoDont, mid.0, t);
      assert [first.1] + (mid.1 + tail.1) == [first.1] + mid.1 + tail.1;
    }
  }

  /** Feeding one symbol and then the rest. */
  lemma FeedCons(useDoDont: bool, cfg: Config, c: char, s: string)
    requires Digits(cfg)
    ensures var first := Step(useDoDont, cfg, c);
      Feed(useDoDont, cfg, [c] + s) == (Feed(useDoDont, first.0, s).0, [first.1] + Feed(useDoDont, first.0, s).1)
  {
    assert ([c] + s)[0] == c && ([c] + s)[1..] == s;
  }

  /** Feeding a symbol whose step is known, then the rest. */
  lemma FeedStep(useDoDont: bool, cfg: Config, c: char, s: string, next: Config, out: int)
    requires Digits(cfg) && Step(useDoDont, cfg, c) == (next, out)
    ensures Feed(useDoDont, cfg, [c] + s) == (Feed(useDoDont, next, s).0, [out] + Feed(useDoDont, next, s).1)
  {
    FeedCons(useDoDont, cfg, c, s);
  }

  function Zeros(n: nat): (z: seq<int>)
    ensures |z| == n && forall i :: 0 <= i < n ==> z[i] == 0
  {
    if n == 0 then [] else [0] + Zeros(n - 1)
  }

  lemma ZerosAppend(m: nat, n: nat)
    ensures Zeros(m) + Zeros(n) == Zeros(m + n)
  {
    assert forall i :: 0 <= i < m + n ==> (Zeros(m) + Zeros(n))[i] == Zeros(m + n)[i];
  }

  /** Digits read in NUMBER_1 are appended to the first number and return 0. */
  lemma {:induction false} ReadNumber1(useDoDont: bool, number1: string, me: bool, a: string)
    requires AllDigits(number1) && AllDigits(a)
    ensures Feed(useDoDont, Config(Number1, number1, [], me), a) == (Config(Number1, number1 + a, [], me), Zeros(|a|))
    decreases |a|
  {
    if a == [] {
      assert number1 + a == number1;
    } else {
      assert IsDigit(a[0]);
      assert a == [a[0]] + a[1..];
      FeedCons(useDoDont, Config(Number1, number1, [], me), a[0], a[1..]);
      ReadNumber1(useDoDont, number1 + [a[0]], me, a[1..]);
      assert number1 + [a[0]] + a[1..] == number1 + a;
    }
  }

  /** Digits read in NUMBER_2 are appended to the second number and return 0. */
  lemma {:induction false} ReadNumber2(useDoDont: bool, number1: string, number2: string, me: bool, b: string)
    requires AllDigits(number1) && AllDigits(number2) && AllDigits(b)
    ensures Feed(useDoDont, Config(Number2, number1, number2, me), b) == (Config(Number2, number1, number2 + b, me), Zeros(|b|))
    decreases |b|
  {
    if b == [] {
      assert number2 + b == number2;
    } else {
      assert IsDigit(b[0]);
      assert b == [b[0]] + b[1..];
      FeedCons(useDoDont, Config(Number2, number1, number2, me), b[0], b[1..]);
      ReadNumber2(useDoDont, number1, number2 + [b[0]], me, b[1..]);
      assert number2 + [b[0]] + b[1..] == number2 + b;
    }
  }

  /** `mul(` from INITIAL with mults enabled reaches BRACKET, returning 0 four times. */
  lemma MulOpening(useDoDont: bool)
    ensures Feed(useDoDont, Config(Initial, [], [], true), "mul(") == (Config(Bracket, [], [], true), Zeros(4))
  {
    var c0 := Config(Initial, [], [], true);
    var t0 := ['('];
    var t1 := ['l'] + t0;
    var t2 := ['u'] + t1;
    FeedStep(useDoDont, c0.(state := L), '(', [], c0.(state := Bracket), 0);
    FeedStep(useDoDont, c0.(state := U), 'l', t0, c0.(state := L), 0);
    FeedStep(useDoDont, c0.(state := M), 'u', t1, c0.(state := U), 0);
    FeedStep(useDoDont, c0, 'm', t2, c0.(state := M), 0);
    assert "mul(" == ['m'] + t2;
    assert Zeros(4) == [0, 0, 0, 0];
  }

  /** From BRACKET a non-empty digit string becomes the first number. */
  lemma FirstNumber(useDoDont: bool, a: string)
    requires a != [] && AllDigits(a)
    ensures Feed(useDoDont, Config(Bracket, [], [], true), a) == (Config(Number1, a, [], true), Zeros(|a|))
  {
    assert IsDigit(a[0]) && a == [a[0]] + a[1..];
    assert [] + [a[0]] == [a[0]];
    FeedStep(useDoDont, Config(Bracket, [], [], true), a[0], a[1..], Config(Number1, [a[0]], [], true), 0);
    ReadNumber1(useDoDont, [a[0]], true, a[1..]);
  }

  /** After the first number, `,` and a non-empty digit string make the second number. */
  lemma SecondNumber(useDoDont: bool, a: string, b: string)
    requires a != [] && b != [] && AllDigits(a) && AllDigits(b)
    ensures Feed(useDoDont, Config(Number1, a, [], true), [','] + b) == (Config(Number2, a, b, true), Zeros(|b| + 1))
  {
    assert IsDigit(b[0]) && b == [b[0]] + b[1..];
    assert [] + [b[0]] == [b[0]];
    ReadNumber2(useDoDont, a, [b[0]], true, b[1..]);
    FeedStep(useDoDont, Config(Comma, a, [], true), b[0], b[1..], Config(Number2, a, [b[0]], true), 0);
    FeedStep(useDoDont, Config(Number1, a, [], true), ',', b, Config(Comma, a, [], true), 0);
  }

  /** After the first number, `,b)` returns a*b on its last symbol and ends in INITIAL. */
  lemma AfterFirstNumber(useDoDont: bool, a: string, b: string)
    requires a != [] && b != [] && AllDigits(a) && AllDigits(b)
    ensures Feed(useDoDont, Config(Number1, a, [], true), [','] + b + ")")
      == (Config(Initial, [], [], true), Zeros(|b| + 1) + [DecimalValue(a) * DecimalValue(b)])
  {
    var afterB := Config(Number2, a, b, true);
    var p := DecimalValue(a) * DecimalValue(b);
    assert Feed(useDoDont, afterB, ")") == (Config(Initial, [], [], true), [p]) by {
      assert ")" == [')'] + [];
      assert Feed(useDoDont, Config(Initial, [], [], true), []) == (Config(Initial, [], [], true), []);
      assert [p] + [] == [p];
      FeedStep(useDoDont, afterB, ')', [], Config(Initial, [], [], true), p);
    }
    SecondNumber(useDoDont, a, b);
    FeedAppend(useDoDont, Config(Number1, a, [], true), [','] + b, ")");
  }

  /** From BRACKET, `a,b)` returns a*b on its last symbol and ends in INITIAL. */
  lemma AfterOpening(useDoDont: bool, a: string, b: string)
    requires a != [] && b != [] && AllDigits(a) && AllDigits(b)
    ensures Feed(useDoDont, Config(Bracket, [], [], true), a + ([','] + b + ")"))
      == (Config(Initial, [], [], true), Zeros(|a| + |b| + 1) + [DecimalValue(a) * DecimalValue(b)])
  {
    AfterFirstNumber(useDoDont, a, b);
    FirstNumber(useDoDont, a);
    FeedAppend(useDoDont, Config(Bracket, [], [], true), a, [','] + b + ")");
    ZerosAppend(|a|, |b| + 1);
    var p := DecimalValue(a) * DecimalValue(b);
    assert Zeros(|a|) + (Zeros(|b| + 1) + [p]) == (Zeros(|a|) + Zeros(|b| + 1)) + [p];
  }

  /** From INITIAL with mults enabled, `mul(a,b)` for non-empty digit strings a and b
      returns a*b on the closing bracket, 0 for every symbol before it, and ends in INITIAL. */
  lemma MulRecognised(useDoDont: bool, a: string, b: string)
    requires a != [] && b != [] && AllDigits(a) && AllDigits(b)
    ensures var s := "mul(" + a + "," + b + ")";
      Feed(useDoDont, Config(Initial, [], [], true), s)
        == (Config(Initial, [], [], true), Zeros(|s| - 1) + [DecimalValue(a) * DecimalValue(b)])
  {
    var s := "mul(" + a + "," + b + ")";
    var rest := a + ([','] + b + ")");
    assert s == "mul(" + rest;
    AfterOpening(useDoDont, a, b);
    MulOpening(useDoDont);
    FeedAppend(useDoDont, Config(Initial, [], [], true), "mul(", rest);
    ZerosAppend(4, |a| + |b| + 1);
    var p := DecimalValue(a) * DecimalValue(b);
    assert Zeros(4) + (Zeros(|a| + |b| + 1) + [p]) == (Zeros(4) + Zeros(|a| + |b| + 1)) + [p];
  }

  /** `reset` reprocesses the symbol that broke a match: an `m` always starts a new
      mult when mults are enabled, whatever state the parser was in. */
  lemma StrayMRestarts(useDoDont: bool, cfg: Config)
    requires Consistent(cfg) && cfg.multEnabled
    ensures Step(useDoDont, cfg, 'm') == (Config(M, [], [], true), 0)
  {
  }

  /** With the do/don't logic off the parser never enters a do/don't state, and a parser
      with mults enabled keeps them enabled. */
  lemma {:induction false} WithoutDoDont(cfg: Config, s: string)
    requires Digits(cfg) && cfg.multEnabled && !InDoDont(cfg.state)
    ensures Feed(false, cfg, s).0.multEnabled && !InDoDont(Feed(false, cfg, s).0.state)
    decreases |s|
  {
    if s != [] {
      WithoutDoDont(Step(false, cfg, s[0]).0, s[1..]);
    }
  }

  const DoCall: string := "do()"
  const DontCall: string := "don't()"

  /** A complete `don't()` from INITIAL disables mults, whether or not they were enabled. */
  lemma DontDisables(me: bool)
    ensures Feed(true, Config(Initial, [], [], me), DontCall).0 == Config(Initial, [], [], false)
  {
    if me {
      assert Feed(true, Config(Initial, [], [], true), DontCall).0 == Config(Initial, [], [], false);
    } else {
      assert Feed(true, Config(Initial, [], [], false), DontCall).0 == Config(Initial, [], [], false);
    }
  }

  /** A complete `do()` from INITIAL enables mults, whether or not they were enabled. */
  lemma DoEnables(me: bool)
    ensures Feed(true, Config(Initial, [], [], me), DoCall).0 == Config(Initial, [], [], true)
  {
    if me {
      assert Feed(true, Config(Initial, [], [], true), DoCall).0 == Config(Initial, [], [], true);
    } else {
      assert Feed(true, Config(Initial, [], [], false), DoCall).0 == Config(Initial, [], [], true);
    }
  }

  /** How much of a `do()` the state has already read. */
  function DoRead(s: State): (r: string)
    ensures |r| <= 3 && r == DoCall[..|r|]
  {
    match s
    case D => "d"
    case O => "do"
    case DoBracket => "do("
    case _ => ""
  }

  /** The n symbols of t from index i. */
  function Window(t: string, i: nat, n: nat): string
    requires i + n <= |t|
  {
    t[i..i + n]
  }

  /** No window of t spells p. */
  predicate Avoids(t: string, p: string) {
    forall i: nat :: i + |p| <= |t| ==> Window(t, i, |p|) != p
  }

  /** A suffix of a text that avoids p avoids p too. */
  lemma AvoidsSuffix(t: string, k: nat, p: string)
    requires k <= |t| && Avoids(t, p)
    ensures Avoids(t[k..], p)
  {
    forall i: nat | i + |p| <= |t[k..]|
      ensures Window(t[k..], i, |p|) != p
    {
      assert Window(t[k..], i, |p|) == Window(t, k + i, |p|);
    }
  }

  /** A text without a `d` holds no `do()`. */
  lemma AvoidsWithoutD(t: string)
    requires 'd' !in t
    ensures Avoids(t, DoCall)
  {
    forall i: nat | i + |DoCall| <= |t|
      ensures Window(t, i, |DoCall|) != DoCall
    {
      assert Window(t, i, |DoCall|)[0] == t[i];
    }
  }

  /** b is a suffix of a. */
  predicate EndsWith(a: string, b: string) {
    |b| <= |a| && b == a[|a| - |b|..]
  }

  /** One symbol read while mults are disabled, outside a mult match: it returns 0, no
      mult starts, and mults stay disabled unless the symbol completes a `do()`. */
  lemma DisabledStep(useDoDont: bool, cfg: Config, c: char)
    requires Digits(cfg) && !cfg.multEnabled && !InMul(cfg.state)
    ensures var r := Step(useDoDont, cfg, c);
      && r.1 == 0 && !InMul(r.0.state)
      && (r.0.multEnabled ==> cfg.state == DoBracket && c == ')')
  {
  }

  /** The states of a `do()` match are entered only along `d`, `o`, `(`. */
  lemma DoStates(useDoDont: bool, cfg: Config, c: char)
    requires Digits(cfg)
    ensures var next := Step(useDoDont, cfg, c).0.state;
      && (next == D ==> c == 'd')
      && (next == O ==> cfg.state == D && c == 'o')
      && (next == DoBracket ==> cfg.state == O && c == '(')
  {
    if InMul(cfg.state) {
      MulStates(useDoDont, cfg, c);
    }
  }

  /** From a state of a mult match, no step enters the second or third state of a
      `do()` match. */
  lemma MulStates(useDoDont: bool, cfg: Config, c: char)
    requires Digits(cfg) && InMul(cfg.state)
    ensures var next := Step(useDoDont, cfg, c).0.state;
      && (next == D ==> c == 'd') && next != O && next != DoBracket
  {
  }

  /** What the new state has read of a `do()` ends what the old one had, followed by
      the symbol. */
  lemma DoReadStep(useDoDont: bool, cfg: Config, c: char)
    requires Digits(cfg)
    ensures EndsWith(DoRead(cfg.state) + [c], DoRead(Step(useDoDont, cfg, c).0.state))
  {
    var next := Step(useDoDont, cfg, c).0.state;
    var before := DoRead(cfg.state) + [c];
    DoStates(useDoDont, cfg, c);
    if next == D {
      assert before[|before| - 1..] == [c] == "d";
    } else if next == O {
      assert before == "do";
    } else if next == DoBracket {
      assert before == "do(";
    } else {
      assert DoRead(next) == [];
    }
  }

  /** While mults are disabled no mult starts: from outside a mult match, as long as no
      `do()` is completed (counting what the state has read of one already) every
      symbol returns 0 and mults stay disabled, `)` of a `mul(a,b)` included. */
  lemma {:induction false} DisabledStaysSilent(cfg: Config, s: string, useDoDont: bool)
    requires Digits(cfg) && !cfg.multEnabled && !InMul(cfg.state)
    requires Avoids(DoRead(cfg.state) + s, DoCall)
    ensures Feed(useDoDont, cfg, s).1 == Zeros(|s|)
    ensures !Feed(useDoDont, cfg, s).0.multEnabled && !InMul(Feed(useDoDont, cfg, s).0.state)
    decreases |s|
  {
    if s != [] {
      var before := DoRead(cfg.state) + [s[0]];
      var t := before + s[1..];
      assert t == DoRead(cfg.state) + s;
      if cfg.state == DoBracket {
        // the window at 0 is `do(` and the symbol, so the symbol is not `)`
        assert Window(t, 0, |DoCall|) == before;
      }
      DisabledStep(useDoDont, cfg, s[0]);
      DoReadStep(useDoDont, cfg, s[0]);
      var next := Step(useDoDont, cfg, s[0]).0;
      var k := |before| - |DoRead(next.state)|;
      assert t[k..] == DoRead(next.state) + s[1..];
      AvoidsSuffix(t, k, DoCall);
      DisabledStaysSilent(next, s[1..], useDoDont);
      assert [0] + Zeros(|s| - 1) == Zeros(|s|);
    }
  }

  /** A `mul(a,b)` read while mults are disabled returns 0 for every symbol, its
      closing `)` included, and mults stay disabled. */
  lemma DisabledIgnoresMul(useDoDont: bool, a: string, b: string)
    requires AllDigits(a) && AllDigits(b)
    ensures var s := "mul(" + a + "," + b + ")";
      Feed(useDoDont, Config(Initial, [], [], false), s).1 == Zeros(|s|)
      && !Feed(useDoDont, Config(Initial, [], [], false), s).0.multEnabled
  {
    var s := "mul(" + a + "," + b + ")";
    forall i | 0 <= i < |s| ensures s[i] != 'd' {
      if 4 <= i < 4 + |a| {
        assert s[i] == a[i - 4] && IsDigit(a[i - 4]);
      } else if 5 + |a| <= i < 5 + |a| + |b| {
        assert s[i] == b[i - 5 - |a|] && IsDigit(b[i - 5 - |a|]);
      }
    }
    AvoidsWithoutD(s);
    assert DoRead(Initial) + s == s;
    DisabledStaysSilent(Config(Initial, [], [], false), s, useDoDont);
  }

  // ---------------------------------------------------------------------------
  // The parser object

  class ParserFSA {
    var state: State
    var number1: string
    var number2: string
    const useDoDont: bool
    var multEnabled: bool

    function Snap(): Config
      reads this
    {
      Config(state, number1, number2, multEnabled)
    }

    ghost predicate Valid()
      reads this
    {
      Consistent(Snap())
    }

    constructor (enableDoDontLogic: bool)
      ensures Valid() && Snap() == Config(Initial, [], [], true) && useDoDont == enableDoDontLogic
    {
      useDoDont := enableDoDontLogic;
      multEnabled := true;
      state := Initial;
      number1 := [];
      number2 := [];
    }

    method Reset(symbol: char) returns (r: int)
      modifies this
      ensures Snap() == Restart(useDoDont, old(Snap()), symbol) && r == 0
    {
      number1 := [];
      number2 := [];
      state := Initial;
      r := HandleInitial(symbol);
    }

    method HandleInitial(symbol: char) returns (r: int)
      modifies this
      ensures Snap() == Enter(useDoDont, old(Snap()), symbol) && r == 0
    {
      if multEnabled && symbol == 'm' {
        state := M;
      } else if useDoDont && symbol == 'd' {
        state := D;
      }
      r := 0;
    }

    /** The handlers that expect one symbol and otherwise reset: M, U, L, D, N, APOSTROPHE, T. */
    method HandleExpect(symbol: char, want: char, next: State) returns (r: int)
      modifies this
      ensures Snap() == Expect(useDoDont, old(Snap()), symbol, want, next) && r == 0
    {
      if symbol == want {
        state := next;
      } else {
        r := Reset(symbol);
      }
      r := 0;
    }

    method HandleBracket(symbol: char) returns (r: int)
      requires Digits(Snap()) && state == Bracket
      modifies this
      ensures (Snap(), r) == Step(useDoDont, old(Snap()), symbol)
    {
      if IsDigit(symbol) {
        state := Number1;
        r := HandleNumber1(symbol);
      } else {
        r := Reset(symbol);
      }
      r := 0;
    }

    method HandleNumber1(symbol: char) returns (r: int)
      requires Digits(Snap()) && state == Number1
      modifies this
      ensures (Snap(), r) == Step(useDoDont, old(Snap()), symbol)
    {
      if IsDigit(symbol) {
        number1 := number1 + [symbol];
      } else if symbol == ',' {
        state := Comma;
      } else {
        r := Reset(symbol);
      }
      r := 0;
    }

    method HandleComma(symbol: char) returns (r: int)
      requires Digits(Snap()) && state == Comma
      modifies this
      ensures (Snap(), r) == Step(useDoDont, old(Snap()), symbol)
    {
      if IsDigit(symbol) {
        state := Number2;
        r := HandleNumber2(symbol);
      } else {
        r := Reset(symbol);
      }
      r := 0;
    }

    method HandleNumber2(symbol: char) returns (r: int)
      requires Digits(Snap()) && state == Number2
      requires symbol == ')' ==> ProductFits(Snap())
      modifies this
      ensures (Snap(), r) == Step(useDoDont, old(Snap()), symbol)
    {
      var result := 0;
      if IsDigit(symbol) {
        number2 := number2 + [symbol];
      } else if symbol == ')' {
        result := DecimalValue(number1) * DecimalValue(number2);
        var _ := Reset(symbol);
      } else {
        var _ := Reset(symbol);
      }
      r := result;
    }

    method HandleO(symbol: char) returns (r: int)
      requires Digits(Snap()) && state == O
      modifies this
      ensures (Snap(), r) == Step(useDoDont, old(Snap()), symbol)
    {
      if symbol == '(' {
        state := DoBracket;
      } else if symbol == 'n' {
        state := N;
      } else {
        r := Reset(symbol);
      }
      r := 0;
    }

    method HandleDoBracket(symbol: char) returns (r: int)
      requires Digits(Snap()) && state == DoBracket
      modifies this
      ensures (Snap(), r) == Step(useDoDont, old(Snap()), symbol)
    {
      if symbol == ')' {
        multEnabled := true;
      }
      r := Reset(symbol);
      r := 0;
    }

    method HandleDontBracket(symbol: char) returns (r: int)
      requires Digits(Snap()) && state == DontBracket
      modifies this
      ensures (Snap(), r) == Step(useDoDont, old(Snap()), symbol)
    {
      if symbol == ')' {
        multEnabled := false;
      }
      r := Reset(symbol);
      r := 0;
    }

    /** `feedSymbol` in INITIAL and the states of a `mul(a,b)` match. */
    method FeedMul(symbol: char) returns (r: int)
      requires Digits(Snap()) && !InDoDont(state)
      requires state == Number2 && symbol == ')' ==> ProductFits(Snap())
      modifies this
      ensures (Snap(), r) == Step(useDoDont, old(Snap()), symbol)
    {
      match state
      case Initial => r := HandleInitial(symbol);
      case M => r := HandleExpect(symbol, 'u', U);
      case U => r := HandleExpect(symbol, 'l', L);
      case L => r := HandleExpect(symbol, '(', Bracket);
      case Bracket => r := HandleBracket(symbol);
      case Number1 => r := HandleNumber1(symbol);
      case Comma => r := HandleComma(symbol);
      case Number2 => r := HandleNumber2(symbol);
    }

    /** `feedSymbol` in the states of a `do()` or `don't()` match. */
    method FeedDoDont(symbol: char) returns (r: int)
      requires Digits(Snap()) && InDoDont(state)
      modifies this
      ensures (Snap(), r) == Step(useDoDont, old(Snap()), symbol)
    {
      match state
      case D => r := HandleExpect(symbol, 'o', O);
      case O => r := HandleO(symbol);
      case DoBracket => r := HandleDoBracket(symbol);
      case N => r := HandleExpect(symbol, '\'', Apostrophe);
      case Apostrophe => r := HandleExpect(symbol, 't', T);
      case T => r := HandleExpect(symbol, '(', DontBracket);
      case DontBracket => r := HandleDontBracket(symbol);
    }

    /** `feedSymbol`: dispatch on the current state. The value returned is the product
        of a completed `mul(a,b)` and 0 for every other symbol. */
    method FeedSymbol(symbol: char) returns (r: int)
      requires Valid()
      requires state == Number2 && symbol == ')' ==> ProductFits(Snap())
      modifies this
      ensures Valid()
      ensures (Snap(), r) == Step(useDoDont, old(Snap()), symbol)
      ensures 0 <= r <= IntMax
    {
      if InDoDont(state) {
        r := FeedDoDont(symbol);
      } else {
        r := FeedMul(symbol);
      }
      StepConsistent(useDoDont, old(Snap()), symbol);
      StepFits(useDoDont, old(Snap()), symbol);
    }
  }
}
