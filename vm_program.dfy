/** 2024/day_17: `Program`, a machine with three 64-bit registers whose code is a
    vector of 3-bit opcodes and operands, an instruction index and an output vector. */
module ThreeBitVM {
  import opened Basics

  /** `State`: the three `size_t` registers, as numbers below 2^64. */
  datatype Registers = Registers(a: nat, b: nat, c: nat)

  /** The instruction index, the registers and the output of a program in flight. */
  datatype Machine = Machine(index: nat, regs: Registers, output: seq<int>)

  /** What one call of `runStep` does: return false and change nothing, execute one
      instruction, shift by a negative amount or by 64 or more (undefined in C++), or
      read past the end of the vector (`at` throws `std::out_of_range`). */
  datatype StepResult = Halted | Next(m: Machine) | Undefined | OutOfRange

  const WordSize: int := 0x1_0000_0000_0000_0000
  const IntSize: int := 0x1_0000_0000

  /** `parseFile` stores each digit of the program line minus '0'. */
  type Digit = x: int | 0 <= x < 10

  /** Bitwise exclusive or of two naturals. */
  function Xor(x: nat, y: nat): nat
    decreases x + y
  {
    if x == 0 && y == 0 then 0
    else 2 * Xor(x / 2, y / 2) + (if x % 2 == y % 2 then 0 else 1)
  }

  /** `x >> s`: s halvings. */
  function Shr(x: nat, s: nat): (r: nat)
    ensures r <= x
    decreases s
  {
    if s == 0 then x else Shr(x / 2, s - 1)
  }

  /** A `size_t` converted to `int`: the low 32 bits in two's complement. */
  function AsInt(x: nat): (v: int)
    ensures -IntSize / 2 <= v < IntSize / 2
    ensures v % IntSize == x % IntSize
  {
    var low := x % IntSize;
    if low < IntSize / 2 then low else low - IntSize
  }

  /** `inferComboOperandValue`: registers A, B, C for 4, 5, 6, the literal otherwise;
      the result type is `int`. */
  function Combo(operand: Digit, regs: Registers): int {
    if operand == 4 then AsInt(regs.a)
    else if operand == 5 then AsInt(regs.b)
    else if operand == 6 then AsInt(regs.c)
    else operand
  }

  /** `A >> combo`, undefined unless the shift is within 0..63. */
  function ShiftA(regs: Registers, operand: Digit): Option<nat> {
    var s := Combo(operand, regs);
    if s < 0 || s >= 64 then None else Some(Shr(regs.a, s))
  }

  /** `combo & 0b111` on an `int` in two's complement is the residue modulo 8. */
  function Low3(x: int): (v: int)
    ensures 0 <= v < 8
  {
    x % 8
  }

  /** `adv`, `bdv` and `cdv` (opcodes 0, 6, 7): A shifted right by the combo operand,
      written to A, B or C. */
  function Divide(op: Digit, operand: Digit, m: Machine): StepResult {
    match ShiftA(m.regs, operand)
    case None => Undefined
    case Some(v) =>
      var regs := if op == 0 then m.regs.(a := v) else if op == 6 then m.regs.(b := v) else m.regs.(c := v);
      Next(Machine(m.index + 2, regs, m.output))
  }

  /** `bxl`, `bst` and `bxc` (opcodes 1, 2, 4): the updates of B. */
  function SetB(op: Digit, operand: Digit, m: Machine): StepResult {
    var regs := m.regs;
    var b := if op == 1 then Xor(regs.b, operand)
      else if op == 2 then Low3(Combo(operand, regs))
      else Xor(regs.b, regs.c);
    Next(Machine(m.index + 2, regs.(b := b), m.output))
  }

  /** `jnz` (opcode 3): jump to the operand when A is non-zero. */
  function Jump(operand: Digit, m: Machine): StepResult {
    if m.regs.a != 0 then Next(m.(index := operand)) else Next(m.(index := m.index + 2))
  }

  /** `out` (opcode 5): append the low three bits of the combo operand. */
  function Out(operand: Digit, m: Machine): StepResult {
    Next(Machine(m.index + 2, m.regs, m.output + [Low3(Combo(operand, m.regs))]))
  }

  /** The switch of `runStep` on the instruction at `m.index`; an opcode outside 0..7
      matches no case and leaves everything as it was. */
  function Execute(code: seq<Digit>, m: Machine): StepResult
    requires m.index + 1 < |code|
  {
    var op := code[m.index];
    var operand := code[m.index + 1];
    if op == 0 || op == 6 || op == 7 then Divide(op, operand, m)
    else if op == 1 || op == 2 || op == 4 then SetB(op, operand, m)
    else if op == 3 then Jump(operand, m)
    else if op == 5 then Out(operand, m)
    else Next(m)
  }

  /** `runStep` as written: the guard compares with `size() - 2ul`, which wraps
      around for a program of fewer than two entries. */
  function StepAsWritten(code: seq<Digit>, m: Machine): StepResult {
    if m.index > (|code| - 2) % WordSize then Halted
    else if m.index + 1 >= |code| then OutOfRange
    else Execute(code, m)
  }

  /** `runStep` with the guard the code means: stop once no whole instruction is left. */
  function Step(code: seq<Digit>, m: Machine): (r: StepResult)
    ensures r.Halted? <==> m.index + 2 > |code|
    ensures !r.OutOfRange?
  {
    if m.index + 2 > |code| then Halted else Execute(code, m)
  }

  /** For a program of at least two entries the wrap-around cannot happen, and the
      written guard is the intended one. */
  lemma StepAsWrittenAgrees(code: seq<Digit>, m: Machine)
    requires |code| >= 2 && |code| < WordSize
    ensures StepAsWritten(code, m) == Step(code, m)
  {
    assert (|code| - 2) % WordSize == |code| - 2;
  }

  /** The empty program reads `at(0)`: the step throws instead of reporting the end. */
  lemma EmptyProgramThrows(regs: Registers)
    ensures StepAsWritten([], Machine(0, regs, [])) == OutOfRange
    ensures Step([], Machine(0, regs, [])) == Halted
  {
    assert (0 - 2) % WordSize == WordSize - 2;
  }

  /** Every opcode of 0..7 but 3 moves on by two; 3 jumps to its operand exactly when A
      is non-zero and changes nothing else. */
  lemma StepIndex(code: seq<Digit>, m: Machine)
    requires m.index + 2 <= |code| && Step(code, m).Next?
    ensures var op, operand, n := code[m.index], code[m.index + 1], Step(code, m).m;
      && (0 <= op <= 7 && op != 3 ==> n.index == m.index + 2)
      && (op == 3 ==> n.index == if m.regs.a != 0 then operand else m.index + 2)
      && (op == 3 ==> n.regs == m.regs && n.output == m.output)
  {
  }

  /** Only opcode 5 writes output, one value below 8 appended to what was there. */
  lemma StepOutput(code: seq<Digit>, m: Machine)
    requires m.index + 2 <= |code| && Step(code, m).Next?
    ensures var op, n := code[m.index], Step(code, m).m;
      && (op == 5 ==> |n.output| == |m.output| + 1 && n.output[..|m.output|] == m.output
                      && 0 <= n.output[|m.output|] < 8)
      && (op != 5 ==> n.output == m.output)
  {
  }

  /** Only opcode 0 writes A and only 7 writes C; 2 leaves a value below 8 in B, and
      0, 3, 5 and 7 leave B alone. */
  lemma StepRegisters(code: seq<Digit>, m: Machine)
    requires m.index + 2 <= |code| && Step(code, m).Next?
    ensures var op, n := code[m.index], Step(code, m).m;
      && (op != 0 ==> n.regs.a == m.regs.a)
      && (op != 7 ==> n.regs.c == m.regs.c)
      && (op == 2 ==> n.regs.b < 8)
      && (op == 0 || op == 3 || op == 5 || op == 7 ==> n.regs.b == m.regs.b)
  {
  }

  /** An opcode outside 0..7 leaves the machine exactly as it was. */
  lemma UnknownOpcodeStalls(code: seq<Digit>, m: Machine)
    requires m.index + 2 <= |code| && !(0 <= code[m.index] <= 7)
    ensures Step(code, m) == Next(m)
  {
  }

  // ---------------------------------------------------------------------------
  // The registers stay within 64 bits

  predicate Words(regs: Registers) {
    regs.a < WordSize && regs.b < WordSize && regs.c < WordSize
  }

  /** Exclusive or of two k-bit numbers is a k-bit number. */
  lemma {:induction false} XorBelow(x: nat, y: nat, k: nat)
    requires x < Pow(2, k) && y < Pow(2, k)
    ensures Xor(x, y) < Pow(2, k)
    decreases k
  {
    if k > 0 && !(x == 0 && y == 0) {
      XorBelow(x / 2, y / 2, k - 1);
    }
  }

  /** The low bit and the remaining bits of an exclusive or. */
  lemma XorHalves(x: nat, y: nat)
    ensures Xor(x, y) / 2 == Xor(x / 2, y / 2)
    ensures Xor(x, y) % 2 == if x % 2 == y % 2 then 0 else 1
  {
  }

  lemma {:induction false} XorZero(x: nat)
    ensures Xor(x, 0) == x && Xor(0, x) == x
    decreases x
  {
    if x > 0 {
      XorZero(x / 2);
    }
  }

  lemma {:induction false} XorAssociative(x: nat, y: nat, z: nat)
    ensures Xor(Xor(x, y), z) == Xor(x, Xor(y, z))
    decreases x + y + z
  {
    if !(x == 0 && y == 0 && z == 0) {
      XorHalves(x, y);
      XorHalves(y, z);
      XorHalves(Xor(x, y), z);
      XorHalves(x, Xor(y, z));
      XorAssociative(x / 2, y / 2, z / 2);
    }
  }

  /** Shifting by s and then by t is shifting by s + t. */
  lemma {:induction false} ShrAdd(x: nat, s: nat, t: nat)
    ensures Shr(Shr(x, s), t) == Shr(x, s + t)
    decreases s
  {
    if s > 0 {
      ShrAdd(x / 2, s - 1, t);
    }
  }

  lemma {:induction false} ShrMonotone(x: nat, y: nat, s: nat)
    requires x <= y
    ensures Shr(x, s) <= Shr(y, s)
    decreases s
  {
    if s > 0 {
      ShrMonotone(x / 2, y / 2, s - 1);
    }
  }

  lemma WordSizeIsPow()
    ensures Pow(2, 64) == WordSize
  {
    assert Pow(2, 1) == 2;
    PowDouble(2, 1);
    var p2 := Pow(2, 2);
    assert p2 == 4;
    PowDouble(2, 2);
    var p4 := Pow(2, 4);
    assert p4 == 16;
    PowDouble(2, 4);
    var p8 := Pow(2, 8);
    assert p8 == 256;
    PowDouble(2, 8);
    var p16 := Pow(2, 16);
    assert p16 == 65536;
    PowDouble(2, 16);
    var p32 := Pow(2, 32);
    assert p32 == IntSize;
    PowDouble(2, 32);
  }

  /** No instruction takes a register past 64 bits: xor of words is a word, shifts
      only shrink, and `bst` stores a value below 8. So unbounded registers model
      `size_t` ones exactly. */
  lemma StepKeepsWords(code: seq<Digit>, m: Machine)
    requires Words(m.regs) && Step(code, m).Next?
    ensures Words(Step(code, m).m.regs)
  {
    WordSizeIsPow();
    var op := code[m.index];
    if op == 1 {
      XorBelow(m.regs.b, code[m.index + 1], 64);
    } else if op == 4 {
      XorBelow(m.regs.b, m.regs.c, 64);
    }
  }

  // ---------------------------------------------------------------------------
  // Running to the end

  /** How `run` ends: `runStep` returned false, a step was undefined, or the bound on
      steps ran out first. */
  datatype RunResult = Finished(m: Machine) | Stuck | OutOfFuel

  /** `run` with at most `fuel` executed instructions. */
  function RunBounded(code: seq<Digit>, m: Machine, fuel: nat): RunResult
    decreases fuel
  {
    match Step(code, m)
    case Halted => Finished(m)
    case Next(n) => if fuel == 0 then OutOfFuel else RunBounded(code, n, fuel - 1)
    case Undefined => Stuck
    case OutOfRange => Stuck
  }

  /** Each machine of `ms` is the step from the one before. */
  predicate Chain(code: seq<Digit>, ms: seq<Machine>) {
    forall k :: 0 <= k < |ms| - 1 ==> Step(code, ms[k]) == Next(ms[k + 1])
  }

  /** A chain of executed steps can be skipped over in one go. */
  lemma {:induction false} RunChain(code: seq<Digit>, ms: seq<Machine>, fuel: nat)
    requires |ms| >= 1 && fuel >= |ms| - 1
    requires Chain(code, ms)
    ensures RunBounded(code, ms[0], fuel) == RunBounded(code, ms[|ms| - 1], fuel - (|ms| - 1))
    decreases |ms|
  {
    if |ms| > 1 {
      assert Step(code, ms[0]) == Next(ms[1]);
      RunChain(code, ms[1..], fuel - 1);
    }
  }

  /** A run that finishes reaches a machine with no whole instruction left. */
  lemma {:induction false} RunFinishesAtEnd(code: seq<Digit>, m: Machine, fuel: nat)
    requires RunBounded(code, m, fuel).Finished?
    ensures RunBounded(code, m, fuel).m.index + 2 > |code|
    ensures |RunBounded(code, m, fuel).m.output| >= |m.output|
    ensures RunBounded(code, m, fuel).m.output[..|m.output|] == m.output
    decreases fuel
  {
    match Step(code, m)
    case Halted =>
    case Next(n) =>
      RunFinishesAtEnd(code, n, fuel - 1);
      StepOutput(code, m);
      var f := RunBounded(code, n, fuel - 1).m.output;
      assert f[..|n.output|][..|m.output|] == f[..|m.output|];
      if code[m.index] == 5 {
        assert n.output[..|m.output|] == m.output;
      }
  }

  /** More fuel does not change a run that finished. */
  lemma {:induction false} RunMoreFuel(code: seq<Digit>, m: Machine, fuel: nat, more: nat)
    requires RunBounded(code, m, fuel).Finished?
    ensures RunBounded(code, m, fuel + more) == RunBounded(code, m, fuel)
    decreases fuel
  {
    match Step(code, m)
    case Halted =>
    case Next(n) => RunMoreFuel(code, n, fuel - 1, more);
  }

  /** A machine stuck on an unknown opcode never finishes: `run` loops forever. */
  lemma {:induction false} UnknownOpcodeNeverFinishes(code: seq<Digit>, m: Machine, fuel: nat)
    requires m.index + 2 <= |code| && !(0 <= code[m.index] <= 7)
    ensures RunBounded(code, m, fuel) == OutOfFuel
    decreases fuel
  {
    UnknownOpcodeStalls(code, m);
    if fuel > 0 {
      UnknownOpcodeNeverFinishes(code, m, fuel - 1);
    }
  }

  // ---------------------------------------------------------------------------
  // The program object

  /** `Program`: the vector of instructions, `currentInstructionIndex_` and `output_`. */
  class Program {
    const code: seq<Digit>
    var index: nat
    var output: seq<int>

    function Snap(regs: Registers): Machine
      reads this
    {
      Machine(index, regs, output)
    }

    constructor (instructions: seq<Digit>)
      ensures code == instructions && index == 0 && output == []
    {
      code := instructions;
      index := 0;
      output := [];
    }

    /** `reset`: back to the first instruction with an empty output. */
    method Reset()
      modifies this
      ensures index == 0 && output == []
    {
      index := 0;
      output := [];
    }

    /** `runStep`: the registers are passed by reference, so the new ones are returned. */
    method RunStep(state: Registers) returns (more: bool, next: Registers)
      requires Step(code, Snap(state)) != Undefined
      modifies this
      ensures more <==> old(index) + 2 <= |code|
      ensures !more ==> index == old(index) && output == old(output) && next == state
      ensures more ==> Step(code, old(Snap(state))) == Next(Snap(next))
    {
      if index + 2 > |code| {
        return false, state;
      }
      var opCode := code[index];
      var operand := code[index + 1];
      if opCode == 0 || opCode == 6 || opCode == 7 {
        next := ExecDivide(opCode, operand, state);
      } else if opCode == 1 || opCode == 2 || opCode == 4 {
        next := ExecSetB(opCode, operand, state);
      } else if opCode == 3 {
        next := state;
        ExecJump(operand, state);
      } else if opCode == 5 {
        next := state;
        ExecOut(operand, state);
      } else {
        next := state;
      }
      more := true;
    }

    /** Cases 0, 6 and 7 of the switch. */
    method ExecDivide(opCode: Digit, operand: Digit, state: Registers) returns (next: Registers)
      requires ShiftA(state, operand).Some?
      modifies this
      ensures Divide(opCode, operand, old(Snap(state))) == Next(Snap(next))
    {
      var v := Shr(state.a, Combo(operand, state));
      if opCode == 0 {
        next := state.(a := v);
      } else if opCode == 6 {
        next := state.(b := v);
      } else {
        next := state.(c := v);
      }
      index := index + 2;
    }

    /** Cases 1, 2 and 4 of the switch. */
    method ExecSetB(opCode: Digit, operand: Digit, state: Registers) returns (next: Registers)
      modifies this
      ensures SetB(opCode, operand, old(Snap(state))) == Next(Snap(next))
    {
      if opCode == 1 {
        next := state.(b := Xor(state.b, operand));
      } else if opCode == 2 {
        next := state.(b := Low3(Combo(operand, state)));
      } else {
        next := state.(b := Xor(state.b, state.c));
      }
      index := index + 2;
    }

    /** Case 3 of the switch. */
    method ExecJump(operand: Digit, state: Registers)
      modifies this
      ensures Jump(operand, old(Snap(state))) == Next(Snap(state))
    {
      if state.a != 0 {
        index := operand;
      } else {
        index := index + 2;
      }
    }

    /** Case 5 of the switch. */
    method ExecOut(operand: Digit, state: Registers)
      modifies this
      ensures Out(operand, old(Snap(state))) == Next(Snap(state))
    {
      output := output + [Low3(Combo(operand, state))];
      index := index + 2;
    }

    /** `run`: step until `runStep` returns false, at most `fuel` instructions; the
        registers are a copy, so only the index and the output are kept. */
    method Run(state: Registers, fuel: nat) returns (r: RunResult)
      modifies this
      ensures r == RunBounded(code, old(Snap(state)), fuel)
      ensures r.Finished? ==> index == r.m.index && output == r.m.output
    {
      var regs := state;
      var left := fuel;
      while true
        invariant RunBounded(code, Snap(regs), left) == RunBounded(code, old(Snap(state)), fuel)
        decreases left
      {
        var step := Step(code, Snap(regs));
        if step.Undefined? {
          return Stuck;
        }
        if step.Next? && left == 0 {
          return OutOfFuel;
        }
        var more;
        more, regs := RunStep(regs);
        if !more {
          return Finished(Snap(regs));
        }
        left := left - 1;
      }
    }

    /** `isSelfReferential`: reset, run, and compare the output with the program. */
    method IsSelfReferential(state: Registers, fuel: nat) returns (r: Option<bool>)
      modifies this
      ensures var run := RunBounded(code, Machine(0, state, []), fuel);
        && (r.Some? <==> run.Finished?)
        && (r.Some? ==> (r.value <==> run.m.output == code))
    {
      Reset();
      var run := Run(state, fuel);
      if !run.Finished? {
        return None;
      }
      if |code| == |output| {
        var idx := 0;
        while idx < |code|
          invariant 0 <= idx <= |code|
          invariant forall j :: 0 <= j < idx ==> code[j] == output[j]
        {
          if code[idx] != output[idx] {
            return Some(false);
          }
          idx := idx + 1;
        }
        return Some(true);
      }
      return Some(false);
    }
  }
}
