/** 2024/day_17, part two: `constructionHelper` and `constructA`, which build the
    value of register A that makes the puzzle's program print itself, three bits
    at a time from the last printed symbol back to the first. */
module RegisterConstruction {
  import opened Basics
  import opened ThreeBitVM

  /** `_fullProgram`: bst 4, bxl 5, cdv 5, bxl 6, bxc 3, out 5, adv 3, jnz 0. */
  const FullProgram: seq<Digit> := [2, 4, 1, 5, 7, 5, 1, 6, 4, 3, 5, 5, 0, 3, 3, 0]

  /** The symbol one pass of the program's loop prints for register A = t. */
  function Print(t: nat): (d: nat)
    ensures d < 8
  {
    Xor(Xor(t % 8, 3), Shr(t, Xor(t % 8, 5))) % 8
  }

  /** `(aValue << 3) | next` on a `size_t`: the shift leaves the low three bits
      clear, so the or is an addition. */
  function Extend(a: nat, next: nat): nat
    requires next < 8
  {
    (a * 8) % WordSize + next
  }

  // ---------------------------------------------------------------------------
  // The search

  /** `constructionHelper(aValue, symbolIdx)`: `aValue` once every symbol is placed,
      otherwise the first extension by three bits, tried from 0 up, that prints
      symbol `symbolIdx` and whose own search succeeds. */
  function Construct(a: nat, i: int): Option<nat>
    requires -1 <= i < |FullProgram|
    decreases i + 1, 1, 0
  {
    if i < 0 then Some(a) else TryFrom(a, i, 0)
  }

  /** The `for` loop of `constructionHelper` from candidate `next` on. */
  function TryFrom(a: nat, i: int, next: nat): Option<nat>
    requires 0 <= i < |FullProgram| && next <= 8
    decreases i + 1, 0, 8 - next
  {
    if next == 8 then None
    else
      var t := Extend(a, next);
      if Print(t) == FullProgram[i] && Construct(t, i - 1).Some? then Construct(t, i - 1)
      else TryFrom(a, i, next + 1)
  }

  /** `constructionHelper` itself: recursion for the earlier symbols, a loop over the
      eight candidates for the current one. */
  method ConstructionHelper(a: nat, i: int) returns (r: Option<nat>)
    requires -1 <= i < |FullProgram|
    ensures r == Construct(a, i)
    decreases i + 1
  {
    if i < 0 {
      return Some(a);
    }
    var currentSymbol := FullProgram[i];
    var next := 0;
    while next < 8
      invariant 0 <= next <= 8
      invariant TryFrom(a, i, next) == Construct(a, i)
    {
      var testA := Extend(a, next);
      var printSymbol := Print(testA);
      if printSymbol == currentSymbol {
        var result := ConstructionHelper(testA, i - 1);
        if result.Some? {
          return result;
        }
      }
      next := next + 1;
    }
    return None;
  }

  /** `constructA`: the search from A = 0 over all sixteen symbols; an empty result
      is `bad_optional_access` from `value()`, here `None`. */
  method ConstructA() returns (r: Option<nat>)
    ensures r == Construct(0, |FullProgram| - 1)
    ensures r.Some? ==> SelfReferential(r.value)
  {
    r := ConstructionHelper(0, |FullProgram| - 1);
    if r.Some? {
      ConstructedIsSelfReferential(r.value);
    }
  }

  // ---------------------------------------------------------------------------
  // What the search finds

  /** Register A prints symbol j of the program on pass j, for every j <= i. */
  predicate Matches(r: nat, i: int) {
    forall j :: 0 <= j <= i && j < |FullProgram| ==> Print(Shr(r, 3 * j)) == FullProgram[j]
  }

  /** The candidates of the search from `a` at symbol `i`: values whose bits above the
      low 3(i+1) are `a` and that print symbols 0..i. */
  predicate Candidate(r: nat, a: nat, i: int)
    requires i >= -1
  {
    Shr(r, 3 * (i + 1)) == a && Matches(r, i)
  }

  lemma ShrThree(x: nat)
    ensures Shr(x, 3) == x / 8
  {
    assert Shr(x, 3) == Shr(x / 2, 2) == Shr(x / 2 / 2, 1) == x / 2 / 2 / 2;
  }

  /** Dropping 3(k+1) bits is dropping 3k bits and then three more. */
  lemma ShrGroup(r: nat, k: nat)
    ensures Shr(r, 3 * (k + 1)) == Shr(r, 3 * k) / 8
  {
    ShrAdd(r, 3 * k, 3);
    ShrThree(Shr(r, 3 * k));
  }

  lemma Pow8Below(k: nat)
    requires k <= 16
    ensures Pow(8, k) * 8 <= WordSize
  {
    assert Pow(8, 1) == 8;
    PowDouble(8, 1);
    var p2 := Pow(8, 2);
    assert p2 == 64;
    PowDouble(8, 2);
    var p4 := Pow(8, 4);
    assert p4 == 4096;
    PowDouble(8, 4);
    var p8 := Pow(8, 8);
    assert p8 == 16777216;
    PowDouble(8, 8);
    PowMonotone(8, k, 16);
  }

  /** Within the 48 bits the search can reach, extending does not wrap around. */
  lemma ExtendNoWrap(a: nat, next: nat, i: int)
    requires 0 <= i < |FullProgram| && next < 8 && a < Pow(8, 15 - i)
    ensures Extend(a, next) == a * 8 + next
    ensures Extend(a, next) < Pow(8, 15 - (i - 1))
    ensures Extend(a, next) / 8 == a && Extend(a, next) % 8 == next
  {
    var p := Pow(8, 15 - i);
    Pow8Below(15 - i);
    assert a * 8 < p * 8 <= WordSize;
    assert Pow(8, 15 - (i - 1)) == 8 * p;
    DivModUnique(a * 8 + next, 8, a, next);
  }

  /** Soundness: a found value is a candidate. */
  lemma {:induction false} ConstructSound(a: nat, i: int, r: nat)
    requires -1 <= i < |FullProgram| && a < Pow(8, 15 - i)
    requires Construct(a, i) == Some(r)
    ensures Candidate(r, a, i)
    decreases i + 1, 1, 0
  {
    if i >= 0 {
      TrySound(a, i, 0, r);
    }
  }

  lemma {:induction false} TrySound(a: nat, i: int, next: nat, r: nat)
    requires 0 <= i < |FullProgram| && next <= 8 && a < Pow(8, 15 - i)
    requires TryFrom(a, i, next) == Some(r)
    ensures Candidate(r, a, i)
    decreases i + 1, 0, 8 - next
  {
    var t := Extend(a, next);
    if Print(t) == FullProgram[i] && Construct(t, i - 1).Some? {
      ExtendNoWrap(a, next, i);
      ConstructSound(t, i - 1, r);
      assert Shr(r, 3 * i) == t;
      ShrGroup(r, i);
      forall j | 0 <= j <= i
        ensures Print(Shr(r, 3 * j)) == FullProgram[j]
      {
        if j < i {
          assert Matches(r, i - 1);
        }
      }
    } else {
      TrySound(a, i, next + 1, r);
    }
  }

  /** A candidate splits into its top part and its low 3(i+1) bits' top group. */
  lemma CandidateSplit(r: nat, a: nat, i: int)
    requires 0 <= i < |FullProgram| && Candidate(r, a, i)
    ensures var t := Shr(r, 3 * i); t / 8 == a && Print(t) == FullProgram[i]
    ensures Candidate(r, Shr(r, 3 * i), i - 1)
  {
    ShrGroup(r, i);
    assert Print(Shr(r, 3 * i)) == FullProgram[i];
  }

  /** Completeness: the search succeeds whenever a candidate exists. */
  lemma {:induction false} ConstructComplete(a: nat, i: int, r: nat)
    requires -1 <= i < |FullProgram| && a < Pow(8, 15 - i)
    requires Candidate(r, a, i)
    ensures Construct(a, i).Some?
    decreases i + 1
  {
    if i >= 0 {
      var t := Shr(r, 3 * i);
      CandidateSplit(r, a, i);
      var d := t % 8;
      assert t == a * 8 + d;
      ExtendNoWrap(a, d, i);
      ConstructComplete(t, i - 1, r);
      TryReaches(a, i, 0, d);
    }
  }

  /** The loop reaches a working candidate `d` unless an earlier one works. */
  lemma {:induction false} TryReaches(a: nat, i: int, next: nat, d: nat)
    requires 0 <= i < |FullProgram| && next <= d < 8
    requires Print(Extend(a, d)) == FullProgram[i] && Construct(Extend(a, d), i - 1).Some?
    ensures TryFrom(a, i, next).Some?
    decreases d - next
  {
    if next < d {
      TryReaches(a, i, next + 1, d);
    }
  }

  /** Minimality: the search tries the three bits in increasing order, so what it
      finds is the least candidate. */
  lemma {:induction false} ConstructLeast(a: nat, i: int, r: nat, other: nat)
    requires -1 <= i < |FullProgram| && a < Pow(8, 15 - i)
    requires Construct(a, i) == Some(r) && Candidate(other, a, i)
    ensures r <= other
    decreases i + 1, 1, 0
  {
    if i < 0 {
      assert r == a;
    } else {
      TryLeast(a, i, 0, r, other);
    }
  }

  lemma {:induction false} TryLeast(a: nat, i: int, next: nat, r: nat, other: nat)
    requires 0 <= i < |FullProgram| && next <= 8 && a < Pow(8, 15 - i)
    requires TryFrom(a, i, next) == Some(r) && Candidate(other, a, i)
    requires next <= (Shr(other, 3 * i)) % 8
    ensures r <= other
    decreases i + 1, 0, 8 - next
  {
    var t := Extend(a, next);
    var u := Shr(other, 3 * i);
    CandidateSplit(other, a, i);
    ExtendNoWrap(a, next, i);
    assert u == a * 8 + u % 8;
    if Print(t) == FullProgram[i] && Construct(t, i - 1).Some? {
      ConstructSound(t, i - 1, r);
      if next == u % 8 {
        assert t == u;
        ConstructLeast(t, i - 1, r, other);
      } else {
        assert t < u;
        ShrOrder(r, other, 3 * i);
      }
    } else {
      if next == u % 8 {
        assert t == u;
        ConstructComplete(t, i - 1, other);
        assert false;
      }
      TryLeast(a, i, next + 1, r, other);
    }
  }

  lemma ShrOrder(x: nat, y: nat, s: nat)
    requires Shr(x, s) < Shr(y, s)
    ensures x < y
  {
    if y <= x {
      ShrMonotone(y, x, s);
    }
  }

  // ---------------------------------------------------------------------------
  // Running the program on the constructed value

  /** What the program prints from register A on: one symbol per pass, three bits
      fewer each pass, until A is zero. */
  function Outputs(a: nat): seq<int>
    decreases a
  {
    [Print(a)] + (if a / 8 == 0 then [] else Outputs(a / 8))
  }

  /** The program prints its own code. */
  predicate SelfReferential(a: nat) {
    var run := RunBounded(FullProgram, Machine(0, Registers(a, 0, 0), []), 8 * |FullProgram|);
    run.Finished? && run.m.output == FullProgram
  }

  /** bxl 5 then bxl 6 is bxl 3 on a three-bit value, and bxl 5 keeps it three bits. */
  lemma XorSmall(x: nat)
    requires x < 8
    ensures Xor(x, 5) < 8 && Xor(Xor(x, 5), 6) == Xor(x, 3)
  {
    XorAssociative(x, 5, 6);
    assert Xor(5, 6) == 3;
    assert Pow(2, 3) == 8;
    XorBelow(x, 5, 3);
  }

  /** `int & 0b111` of a converted register is the register's low three bits. */
  lemma AsIntLow3(x: nat)
    ensures AsInt(x) % 8 == x % 8
  {
    var low := x % IntSize;
    var q := x / IntSize;
    assert x == (q * 0x2000_0000 + low / 8) * 8 + low % 8 by {
      assert x == q * IntSize + low;
      assert low == (low / 8) * 8 + low % 8;
    }
    DivModUnique(x, 8, q * 0x2000_0000 + low / 8, low % 8);
    if low < IntSize / 2 {
      DivModUnique(low, 8, low / 8, low % 8);
    } else {
      DivModUnique(low - IntSize, 8, low / 8 - 0x2000_0000, low % 8);
    }
  }

  lemma RunNext(code: seq<Digit>, m: Machine, n: Machine, fuel: nat)
    requires fuel > 0 && Step(code, m) == Next(n)
    ensures RunBounded(code, m, fuel) == RunBounded(code, n, fuel - 1)
  {
  }

  // The eight instructions of one pass, each in a lemma of its own.

  lemma Bst(a: nat, b: nat, c: nat, out: seq<int>)
    ensures Step(FullProgram, Machine(0, Registers(a, b, c), out))
      == Next(Machine(2, Registers(a, a % 8, c), out))
  {
    AsIntLow3(a);
  }

  lemma Bxl5(a: nat, x: nat, c: nat, out: seq<int>)
    ensures Step(FullProgram, Machine(2, Registers(a, x, c), out))
      == Next(Machine(4, Registers(a, Xor(x, 5), c), out))
  {
  }

  lemma Cdv(a: nat, y: nat, c: nat, out: seq<int>)
    requires y < 8
    ensures Step(FullProgram, Machine(4, Registers(a, y, c), out))
      == Next(Machine(6, Registers(a, y, Shr(a, y)), out))
  {
    assert AsInt(y) == y;
  }

  lemma Bxl6(a: nat, y: nat, c: nat, out: seq<int>)
    ensures Step(FullProgram, Machine(6, Registers(a, y, c), out))
      == Next(Machine(8, Registers(a, Xor(y, 6), c), out))
  {
  }

  lemma Bxc(a: nat, z: nat, c: nat, out: seq<int>)
    ensures Step(FullProgram, Machine(8, Registers(a, z, c), out))
      == Next(Machine(10, Registers(a, Xor(z, c), c), out))
  {
  }

  lemma OutB(a: nat, b: nat, c: nat, out: seq<int>)
    ensures Step(FullProgram, Machine(10, Registers(a, b, c), out))
      == Next(Machine(12, Registers(a, b, c), out + [b % 8]))
  {
    AsIntLow3(b);
  }

  lemma Adv(a: nat, b: nat, c: nat, out: seq<int>)
    ensures Step(FullProgram, Machine(12, Registers(a, b, c), out))
      == Next(Machine(14, Registers(a / 8, b, c), out))
  {
    ShrThree(a);
  }

  lemma Jnz(a: nat, b: nat, c: nat, out: seq<int>)
    ensures Step(FullProgram, Machine(14, Registers(a, b, c), out))
      == Next(Machine(if a != 0 then 0 else 16, Registers(a, b, c), out))
  {
  }

  /** The machine after one pass from A = a: A divided by 8, B and C as the pass
      leaves them, `Print(a)` appended, and the index back at 0 unless A is zero. */
  function AfterPass(a: nat, out: seq<int>): Machine {
    var y := Xor(a % 8, 5);
    var cc := Shr(a, y);
    Machine(if a / 8 != 0 then 0 else 16, Registers(a / 8, Xor(Xor(y, 6), cc), cc), out + [Print(a)])
  }

  /** The nine machines of one pass from A = a, B = b, C = c. */
  function PassStates(a: nat, b: nat, c: nat, out: seq<int>): seq<Machine> {
    var y := Xor(a % 8, 5);
    var cc := Shr(a, y);
    var bb := Xor(Xor(y, 6), cc);
    [Machine(0, Registers(a, b, c), out),
     Machine(2, Registers(a, a % 8, c), out),
     Machine(4, Registers(a, y, c), out),
     Machine(6, Registers(a, y, cc), out),
     Machine(8, Registers(a, Xor(y, 6), cc), out),
     Machine(10, Registers(a, bb, cc), out),
     Machine(12, Registers(a, bb, cc), out + [Print(a)]),
     Machine(14, Registers(a / 8, bb, cc), out + [Print(a)]),
     AfterPass(a, out)]
  }

  lemma PassSteps(a: nat, b: nat, c: nat, out: seq<int>)
    ensures Chain(FullProgram, PassStates(a, b, c, out))
  {
    var x := a % 8;
    XorSmall(x);
    var y := Xor(x, 5);
    var cc := Shr(a, y);
    var z := Xor(y, 6);
    var bb := Xor(z, cc);
    assert bb % 8 == Print(a);
    var out' := out + [Print(a)];
    Bst(a, b, c, out);
    Bxl5(a, x, c, out);
    Cdv(a, y, c, out);
    Bxl6(a, y, cc, out);
    Bxc(a, z, cc, out);
    OutB(a, bb, cc, out);
    Adv(a, bb, cc, out');
    Jnz(a / 8, bb, cc, out');
  }

  /** One pass of the loop: eight instructions print `Print(A)`, divide A by 8 and
      jump back to the start unless A became zero. */
  lemma OnePass(a: nat, b: nat, c: nat, out: seq<int>, fuel: nat)
    requires fuel >= 8
    ensures RunBounded(FullProgram, Machine(0, Registers(a, b, c), out), fuel)
      == RunBounded(FullProgram, AfterPass(a, out), fuel - 8)
  {
    var ms := PassStates(a, b, c, out);
    PassSteps(a, b, c, out);
    RunChain(FullProgram, ms, fuel);
  }

  /** The whole run from A: the program halts after 8 instructions per pass, having
      printed `Outputs(A)`. */
  lemma {:induction false} RunPrintsOutputs(m: Machine, fuel: nat)
    requires m.index == 0 && fuel >= 8 * |Outputs(m.regs.a)|
    ensures RunBounded(FullProgram, m, fuel).Finished?
    ensures RunBounded(FullProgram, m, fuel).m.output == m.output + Outputs(m.regs.a)
    decreases m.regs.a
  {
    var a := m.regs.a;
    var n := AfterPass(a, m.output);
    OutputsCons(a);
    NextPass(m, fuel);
    if a / 8 != 0 {
      RunPrintsOutputs(n, fuel - 8);
      assert n.output + Outputs(a / 8) == m.output + Outputs(a);
    } else {
      assert Step(FullProgram, n) == Halted;
    }
  }

  lemma OutputsCons(a: nat)
    ensures Outputs(a) == [Print(a)] + (if a / 8 == 0 then [] else Outputs(a / 8))
  {
  }

  /** One pass of the loop from a machine at the first instruction. */
  lemma NextPass(m: Machine, fuel: nat)
    requires m.index == 0 && fuel >= 8
    ensures RunBounded(FullProgram, m, fuel) == RunBounded(FullProgram, AfterPass(m.regs.a, m.output), fuel - 8)
  {
    assert m == Machine(0, Registers(m.regs.a, m.regs.b, m.regs.c), m.output);
    OnePass(m.regs.a, m.regs.b, m.regs.c, m.output, fuel);
  }

  /** `Outputs` reads the value three bits at a time: a value with n groups prints n
      symbols, symbol j from the value shifted right by 3j. */
  lemma {:induction false} OutputsDigits(r: nat, n: nat)
    requires n >= 1 && Shr(r, 3 * (n - 1)) != 0 && Shr(r, 3 * n) == 0
    ensures |Outputs(r)| == n
    ensures forall j :: 0 <= j < n ==> Outputs(r)[j] == Print(Shr(r, 3 * j))
  {
    ShrThree(r);
    if n == 1 {
      assert r / 8 == 0;
    } else {
      ShrAdd(r, 3, 3 * (n - 2));
      ShrAdd(r, 3, 3 * (n - 1));
      assert r / 8 != 0;
      OutputsDigits(r / 8, n - 1);
      var rest := Outputs(r / 8);
      assert Outputs(r) == [Print(r)] + rest;
      forall j | 0 < j < n
        ensures Outputs(r)[j] == Print(Shr(r, 3 * j))
      {
        var k := 3 * (j - 1);
        assert Outputs(r)[j] == rest[j - 1] == Print(Shr(r / 8, k));
        ShrAdd(r, 3, k);
        assert 3 + k == 3 * j;
        assert Shr(r / 8, k) == Shr(r, 3 + k);
      }
    }
  }

  /** From A = 0 the loop prints 3. */
  lemma PrintZero()
    ensures Print(0) == 3
  {
    XorZero(3);
  }

  lemma CandidatePrintsProgram(r: nat)
    requires Candidate(r, 0, |FullProgram| - 1)
    ensures Outputs(r) == FullProgram
  {
    PrintZero();
    assert Print(Shr(r, 3 * 15)) == 0;
    OutputsDigits(r, 16);
  }

  lemma CandidateIsSelfReferential(r: nat)
    requires Candidate(r, 0, |FullProgram| - 1)
    ensures SelfReferential(r)
  {
    CandidatePrintsProgram(r);
    RunPrintsOutputs(Machine(0, Registers(r, 0, 0), []), 8 * |FullProgram|);
  }

  /** The value `constructA` returns makes `isSelfReferential` answer true. */
  lemma ConstructedIsSelfReferential(r: nat)
    requires Construct(0, |FullProgram| - 1) == Some(r)
    ensures SelfReferential(r)
  {
    ConstructSound(0, |FullProgram| - 1, r);
    CandidateIsSelfReferential(r);
  }

  /** `constructA` finds a value exactly when one exists, and then the least. */
  lemma ConstructAExactlyWhenPossible(other: nat)
    requires Candidate(other, 0, |FullProgram| - 1)
    ensures Construct(0, |FullProgram| - 1).Some?
    ensures Construct(0, |FullProgram| - 1).value <= other
  {
    ConstructComplete(0, |FullProgram| - 1, other);
    var r := Construct(0, |FullProgram| - 1).value;
    ConstructLeast(0, |FullProgram| - 1, r, other);
  }
}
