/** `find_first_mistake_output` of 2024/day_24: the lowest bit in which the
    wanted sum and the circuit's output differ. */
module MistakeScan {
  import opened Basics

  // ---------------------------------------------------------------------------
  // The loop as written, on u64

  /** The state after the loop has run out of fuel is `None`; otherwise the
      function's value. One round: leave with `None` once the mask exceeds both
      numbers, return the index when the masked bits differ, else shift the mask
      left by one. `<<=` on a u64 drops the top bit, so after bit 63 the mask is 0. */
  function ScanAsWritten(target: bv64, actual: bv64, bitIdx: nat, bitValue: bv64, fuel: nat): (r: Option<Option<nat>>)
    decreases fuel
  {
    if fuel == 0 then None
    else if !(bitValue <= target || bitValue <= actual) then Some(None)
    else if target & bitValue != actual & bitValue then Some(Some(bitIdx))
    else ScanAsWritten(target, actual, bitIdx + 1, bitValue << 1, fuel - 1)
  }

  /** The mask after n more rounds of the loop: m doubled n times on a u64. */
  function Doubled(m: bv64, n: nat): bv64
  {
    if n == 0 then m else Doubled(m, n - 1) << 1
  }

  /** `target & m != actual & m`: the numbers differ under the mask. */
  predicate Differs(target: bv64, actual: bv64, m: bv64)
  {
    target & m != actual & m
  }

  lemma {:induction false} DoubledShift(m: bv64, n: nat)
    ensures Doubled(m << 1, n) == Doubled(m, n + 1)
  {
    if n > 0 {
      DoubledShift(m, n - 1);
    }
  }

  /** An index the loop as written returns is reached by the mask doubled
      once per round, the numbers differ under that mask, and they agree
      under every earlier one. */
  lemma {:induction false} ScanAsWrittenReturns(target: bv64, actual: bv64, bitIdx: nat, m: bv64, fuel: nat, i: nat)
    requires ScanAsWritten(target, actual, bitIdx, m, fuel) == Some(Some(i))
    ensures bitIdx <= i && Differs(target, actual, Doubled(m, i - bitIdx))
    ensures forall n :: 0 <= n < i - bitIdx ==> !Differs(target, actual, Doubled(m, n))
    decreases fuel
  {
    var m2 := ScanRound(target, actual, bitIdx, m, fuel, i);
    if !Differs(target, actual, m) {
      ScanAsWrittenReturns(target, actual, bitIdx + 1, m2, fuel - 1, i);
      ShiftedMasks(target, actual, m, m2, i - bitIdx);
    }
  }

  /** One round of a scan that returns i: it returns the index when the
      masked bits differ, and otherwise goes on with the doubled mask. */
  lemma ScanRound(target: bv64, actual: bv64, bitIdx: nat, m: bv64, fuel: nat, i: nat) returns (m2: bv64)
    requires ScanAsWritten(target, actual, bitIdx, m, fuel) == Some(Some(i))
    ensures fuel > 0 && m2 == m << 1
    ensures Differs(target, actual, m) ==> i == bitIdx
    ensures !Differs(target, actual, m) ==> ScanAsWritten(target, actual, bitIdx + 1, m2, fuel - 1) == Some(Some(i))
  {
    m2 := m << 1;
  }

  /** What holds of the masks from m << 1 on holds of those from m on,
      one round later. */
  lemma ShiftedMasks(target: bv64, actual: bv64, m: bv64, m2: bv64, k: nat)
    requires m2 == m << 1 && k > 0
    requires !Differs(target, actual, m) && Differs(target, actual, Doubled(m2, k - 1))
    requires forall n :: 0 <= n < k - 1 ==> !Differs(target, actual, Doubled(m2, n))
    ensures Differs(target, actual, Doubled(m, k))
    ensures forall n :: 0 <= n < k ==> !Differs(target, actual, Doubled(m, n))
  {
    DoubledShift(m, k - 1);
    forall n | 0 < n < k ensures !Differs(target, actual, Doubled(m, n)) {
      DoubledShift(m, n - 1);
    }
  }

  /** Doubling 1 wraps around to 0 after bit 63 and stays 0. */
  lemma {:induction false} DoubledOneWraps(n: nat)
    requires n >= 64
    ensures Doubled(1, n) == 0
  {
    if n > 64 {
      DoubledOneWraps(n - 1);
    } else {
      assert Doubled(1, 8) == 0x100;
      assert Doubled(1, 16) == 0x1_0000;
      assert Doubled(1, 24) == 0x100_0000;
      assert Doubled(1, 32) == 0x1_0000_0000;
      assert Doubled(1, 40) == 0x100_0000_0000;
      assert Doubled(1, 48) == 0x1_0000_0000_0000;
      assert Doubled(1, 56) == 0x100_0000_0000_0000;
    }
  }

  /** From the start state (index 0, mask 1), an index i the loop as written
      returns is below 64 and is the lowest bit in which the numbers differ:
      they differ under the mask `1 << i`, which the loop builds as 1 doubled
      i times, and agree under every lower mask. In particular they differ. */
  lemma ScanAsWrittenLowest(target: bv64, actual: bv64, fuel: nat, i: nat)
    requires ScanAsWritten(target, actual, 0, 1, fuel) == Some(Some(i))
    ensures i < 64 && Differs(target, actual, Doubled(1, i)) && target != actual
    ensures forall j :: 0 <= j < i ==> !Differs(target, actual, Doubled(1, j))
  {
    ScanAsWrittenReturns(target, actual, 0, 1, fuel, i);
    if i >= 64 {
      DoubledOneWraps(i);
      assert false;
    }
  }

  const AllOnes: bv64 := 0xFFFF_FFFF_FFFF_FFFF

  /** With target == actual == u64::MAX every mask is <= target and the masked
      bits always agree, so the loop as written never leaves, whatever fuel it is
      given (after bit 63 the mask is 0 and stays 0). */
  lemma {:induction false} AsWrittenLoopsForever(k: nat, mask: bv64, fuel: nat)
    ensures ScanAsWritten(AllOnes, AllOnes, k, mask, fuel) == None
    decreases fuel
  {
    if fuel > 0 {
      AsWrittenLoopsForever(k + 1, mask << 1, fuel - 1);
    }
  }

  lemma AsWrittenNeverAnswersAllOnes(fuel: nat)
    ensures ScanAsWritten(AllOnes, AllOnes, 0, 1, fuel) == None
  {
    AsWrittenLoopsForever(0, 1, fuel);
  }

  // ---------------------------------------------------------------------------
  // The loop with the scan bounded by the width of a u64

  /** `find_first_mistake_output` with the loop also stopping after bit 63.
      `target & (1 << i) != actual & (1 << i)` is `Bit(target, i) != Bit(actual, i)`. */
  method FindFirstMistakeOutput(target: nat, actual: nat) returns (r: Option<nat>)
    requires target < Pow(2, 64) && actual < Pow(2, 64)
    ensures r.None? <==> target == actual
    ensures r.Some? ==> r.value < 64 && Bit(target, r.value) != Bit(actual, r.value)
    ensures r.Some? ==> forall j :: 0 <= j < r.value ==> Bit(target, j) == Bit(actual, j)
  {
    var bitIdx := 0;
    var bitValue := 1;
    while bitIdx < 64 && (bitValue <= target || bitValue <= actual)
      invariant bitIdx <= 64 && bitValue == Pow(2, bitIdx)
      invariant forall j :: 0 <= j < bitIdx ==> Bit(target, j) == Bit(actual, j)
      decreases 64 - bitIdx
    {
      if Bit(target, bitIdx) != Bit(actual, bitIdx) {
        return Some(bitIdx);
      }
      bitIdx := bitIdx + 1;
      bitValue := bitValue * 2;
    }
    ScanEnds(target, actual, bitIdx);
    r := None;
  }

  /** When the scan stops without a differing bit, both numbers fit below the
      scanned bits, so agreeing on those bits makes them equal. */
  lemma ScanEnds(target: nat, actual: nat, k: nat)
    requires target < Pow(2, k) && actual < Pow(2, k)
    requires forall j :: 0 <= j < k ==> Bit(target, j) == Bit(actual, j)
    ensures target == actual
  {
    EqualFromBits(target, actual, k);
    DivModUnique(target, Pow(2, k), 0, target);
    DivModUnique(actual, Pow(2, k), 0, actual);
  }

  /** What `find_first_mistake_output` answers for the two numbers: `None` exactly when
      they are equal, otherwise the lowest bit, below 64, in which they differ. */
  ghost predicate FirstMistake(target: nat, actual: nat, r: Option<nat>)
  {
    && (r.None? <==> target == actual)
    && (r.Some? ==> r.value < 64 && Bit(target, r.value) != Bit(actual, r.value))
    && (r.Some? ==> forall j :: 0 <= j < r.value ==> Bit(target, j) == Bit(actual, j))
  }

  /** At most one answer fits the two numbers. */
  lemma FirstMistakeUnique(target: nat, actual: nat, r1: Option<nat>, r2: Option<nat>)
    requires FirstMistake(target, actual, r1) && FirstMistake(target, actual, r2)
    ensures r1 == r2
  {
  }
}
