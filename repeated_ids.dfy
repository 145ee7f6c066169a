// Gift-shop product ids: an id is invalid when its digits are a block
// repeated (twice for task 1, at least twice for task 2). The program cuts
// each id range into pieces of one digit count, then finds the invalid ids
// of a piece as the multiples of 11, 101, 1001, ... (task 1) or of the
// repunits 1...1, 0101...01, 001001...001 of every proper block length
// (task 2) inside the piece (2025/day_02/main.py).

module RepeatedIds {
  import opened Basics

  /** An id range `(start, end)`, both ends included. */
  type IdRange = (nat, nat)

  // ---------------------------------------------------------------------------
  // Numbers written as strings

  /** `s * n` */
  function Repeat(s: string, n: nat): (r: string)
    ensures AllDigits(s) ==> AllDigits(r)
  {
    if n == 0 then []
    else
      var r := Repeat(s, n - 1);
      DigitsAppend(r, s);
      r + s
  }

  lemma {:induction false} RepeatLength(s: string, n: nat)
    ensures |Repeat(s, n)| == n * |s|
    decreases n
  {
    if n > 0 {
      RepeatLength(s, n - 1);
    }
  }

  lemma DigitsAppend(a: string, b: string)
    ensures AllDigits(a) && AllDigits(b) ==> AllDigits(a + b)
  {
    if AllDigits(a) && AllDigits(b) {
      AllDigitsAppend(a, b);
    }
  }

  // The program writes the numbers it needs as strings of digits; the model
  // computes them with Pow and proves that the strings have those values.

  /** `int("9" * n)` is 10^n - 1, the largest number of n digits. */
  lemma {:induction false} NinesValue(n: nat)
    ensures DecimalValue(Repeat("9", n)) == Pow(10, n) - 1
    decreases n
  {
    if n > 0 {
      NinesValue(n - 1);
      DecimalValueAppend(Repeat("9", n - 1), "9");
    }
  }

  /** `int("1" + "0" * n)` is 10^n, the smallest number of n + 1 digits. */
  lemma {:induction false} OneZerosValue(n: nat)
    ensures AllDigits("1" + Repeat("0", n))
    ensures DecimalValue("1" + Repeat("0", n)) == Pow(10, n)
    decreases n
  {
    AllDigitsAppend("1", Repeat("0", n));
    if n > 0 {
      OneZerosValue(n - 1);
      assert "1" + Repeat("0", n) == ("1" + Repeat("0", n - 1)) + "0";
      DecimalValueAppend("1" + Repeat("0", n - 1), "0");
    }
  }

  lemma {:induction false} ZerosValue(n: nat)
    ensures DecimalValue(Repeat("0", n)) == 0
    decreases n
  {
    if n > 0 {
      ZerosValue(n - 1);
      DecimalValueAppend(Repeat("0", n - 1), "0");
    }
  }

  // ---------------------------------------------------------------------------
  // split_ranges

  /** The pieces from curr on: one per digit count from nd up to maxd - 1,
      each ending at the largest number of that many digits, then the rest
      up to end. */
  function Pieces(curr: nat, nd: nat, maxd: nat, end: nat): (ps: seq<IdRange>)
    ensures |ps| >= 1
    decreases maxd - nd
  {
    if nd >= maxd then [(curr, end)]
    else [(curr, Pow(10, nd) - 1)] + Pieces(Pow(10, nd), nd + 1, maxd, end)
  }

  /** The pieces of one range. */
  function SplitRange(r: IdRange): seq<IdRange> {
    Pieces(r.0, NumDigits(r.0), NumDigits(r.1), r.1)
  }

  /** The pieces of every range, in order. */
  function SplitAll(ranges: seq<IdRange>): seq<IdRange> {
    if ranges == [] then [] else SplitAll(ranges[..|ranges| - 1]) + SplitRange(ranges[|ranges| - 1])
  }

  /** split_ranges */
  method SplitRanges(ranges: seq<IdRange>) returns (newRanges: seq<IdRange>)
    ensures newRanges == SplitAll(ranges)
  {
    newRanges := [];
    for k := 0 to |ranges|
      invariant newRanges == SplitAll(ranges[..k])
    {
      var (start, end) := ranges[k];
      assert ranges[..k + 1][..k] == ranges[..k];
      var minDigits := NumDigits(start);
      var maxDigits := NumDigits(end);
      var curr := start;
      ghost var done := newRanges;
      var numDigits := minDigits;
      while numDigits < maxDigits
        invariant newRanges + Pieces(curr, numDigits, maxDigits, end) == done + SplitRange(ranges[k])
        decreases maxDigits as int - numDigits
      {
        var last, next := DigitLimits(numDigits);
        AppendAssoc(newRanges, [(curr, last)], Pieces(next, numDigits + 1, maxDigits, end));
        newRanges := newRanges + [(curr, last)];
        curr := next;
        numDigits := numDigits + 1;
      }
      newRanges := newRanges + [(curr, end)];
    }
    assert ranges[..|ranges|] == ranges;
  }

  /** `int("9" * n)` and `int("1" + "0" * n)`: the last number of n digits
      and the first of n + 1. */
  method DigitLimits(n: nat) returns (last: nat, next: nat)
    ensures last == Pow(10, n) - 1 && next == Pow(10, n)
  {
    NinesValue(n);
    OneZerosValue(n);
    last := DecimalValue(Repeat("9", n));
    next := DecimalValue("1" + Repeat("0", n));
  }

  /** The pieces of a range from start to end: they start at start, end at
      end, follow one another without gap or overlap, and each starts and
      ends on numbers with the same number of digits. */
  predicate PiecesOk(ps: seq<IdRange>, start: nat, end: nat) {
    |ps| >= 1 && ps[0].0 == start && ps[|ps| - 1].1 == end &&
    (forall i :: 0 <= i < |ps| - 1 ==> ps[i].1 + 1 == ps[i + 1].0) &&
    (forall i :: 0 <= i < |ps| ==> ps[i].0 <= ps[i].1 && NumDigits(ps[i].0) == NumDigits(ps[i].1))
  }

  /** n has exactly d digits when 10^(d-1) <= n < 10^d. */
  lemma {:induction false} NumDigitsOf(n: nat, d: nat)
    requires d >= 1 && n < Pow(10, d) && (d == 1 || Pow(10, d - 1) <= n)
    ensures NumDigits(n) == d
    decreases d
  {
    if d > 1 {
      var q := n / 10;
      assert Pow(10, d) == 10 * Pow(10, d - 1);
      if d > 2 {
        assert Pow(10, d - 1) == 10 * Pow(10, d - 2);
      }
      NumDigitsOf(q, d - 1);
    }
  }

  lemma {:induction false} PiecesAreOk(curr: nat, nd: nat, maxd: nat, end: nat)
    requires NumDigits(curr) == nd <= maxd == NumDigits(end) && curr <= end
    ensures PiecesOk(Pieces(curr, nd, maxd, end), curr, end)
    decreases maxd - nd
  {
    if nd < maxd {
      var next := Pow(10, nd);
      PiecesStep(curr, nd, maxd, end);
      DigitBoundary(curr, nd, maxd, end);
      PiecesAreOk(next, nd + 1, maxd, end);
      PiecesOkCons((curr, next - 1), Pieces(next, nd + 1, maxd, end), end);
    }
  }

  lemma PiecesStep(curr: nat, nd: nat, maxd: nat, end: nat)
    requires nd < maxd
    ensures Pieces(curr, nd, maxd, end) == [(curr, Pow(10, nd) - 1)] + Pieces(Pow(10, nd), nd + 1, maxd, end)
  {
  }

  /** The last number of nd digits and the first of nd + 1 digits lie
      between a number of nd digits and one of more. */
  lemma DigitBoundary(curr: nat, nd: nat, maxd: nat, end: nat)
    requires NumDigits(curr) == nd < maxd == NumDigits(end)
    ensures curr <= Pow(10, nd) - 1 && Pow(10, nd) <= end
    ensures NumDigits(Pow(10, nd) - 1) == nd && NumDigits(Pow(10, nd)) == nd + 1
  {
    NumDigitsBounds(curr);
    BelowLonger(nd, maxd, end);
    LastOfLength(nd);
    FirstOfLength(nd);
  }

  lemma BelowLonger(nd: nat, maxd: nat, end: nat)
    requires 1 <= nd < maxd == NumDigits(end)
    ensures Pow(10, nd) <= end
  {
    NumDigitsBounds(end);
    PowMonotone(10, nd, maxd - 1);
  }

  lemma LastOfLength(nd: nat)
    requires nd >= 1
    ensures NumDigits(Pow(10, nd) - 1) == nd
  {
    if nd > 1 {
      var q := Pow(10, nd - 1);
      assert Pow(10, nd) == 10 * q;
    }
    NumDigitsOf(Pow(10, nd) - 1, nd);
  }

  lemma FirstOfLength(nd: nat)
    ensures NumDigits(Pow(10, nd)) == nd + 1
  {
    var p := Pow(10, nd);
    assert Pow(10, nd + 1) == 10 * p;
    NumDigitsOf(p, nd + 1);
  }

  lemma PiecesOkCons(p: IdRange, rest: seq<IdRange>, end: nat)
    requires PiecesOk(rest, p.1 + 1, end)
    requires p.0 <= p.1 && NumDigits(p.0) == NumDigits(p.1)
    ensures PiecesOk([p] + rest, p.0, end)
  {
    var ps := [p] + rest;
    assert forall i :: 0 < i < |ps| ==> ps[i] == rest[i - 1];
  }

  /** split_ranges cuts a range with start <= end into pieces of one digit
      count that together are exactly the range. */
  lemma SplitRangeOk(start: nat, end: nat)
    requires start <= end
    ensures PiecesOk(SplitRange((start, end)), start, end)
  {
    NumDigitsMonotone(start, end);
    PiecesAreOk(start, NumDigits(start), NumDigits(end), end);
  }

  /** A range that ends before it starts is kept as it is. */
  lemma SplitRangeBackwards(start: nat, end: nat)
    requires start > end
    ensures SplitRange((start, end)) == [(start, end)]
  {
    NumDigitsMonotone(end, start);
  }

  lemma {:induction false} NumDigitsMonotone(m: nat, n: nat)
    requires m <= n
    ensures NumDigits(m) <= NumDigits(n)
    decreases n
  {
    if m >= 10 {
      NumDigitsMonotone(m / 10, n / 10);
    }
  }

  // ---------------------------------------------------------------------------
  // get_factors, get_divisor, get_divisors

  predicate Increasing(s: seq<int>) {
    forall i, j :: 0 <= i < j < |s| ==> s[i] < s[j]
  }

  /** The divisors of n in [1, i), ascending. */
  function FactorsBelow(n: nat, i: nat): (r: seq<nat>)
    ensures forall x :: x in r <==> 1 <= x < i && n % x == 0
    ensures Increasing(r)
    decreases i
  {
    if i <= 1 then []
    else
      var r := FactorsBelow(n, i - 1);
      if n % (i - 1) == 0 then IncreasingSnoc(r, i - 1); r + [i - 1] else r
  }

  lemma IncreasingSnoc(r: seq<nat>, x: nat)
    requires Increasing(r) && forall y :: y in r ==> y < x
    ensures Increasing(r + [x])
  {
    var t := r + [x];
    forall i, j | 0 <= i < j < |t| ensures t[i] < t[j] {
      if j == |r| {
        assert t[i] == r[i] && r[i] in r;
      }
    }
  }

  /** The divisors of n below n itself (get_factors' result). */
  function ProperFactors(n: nat): (r: seq<nat>)
    ensures forall x :: x in r <==> 1 <= x < n && n % x == 0
    ensures forall k :: 0 <= k < |r| ==> 1 <= r[k] < n
    ensures Increasing(r)
  {
    var r := FactorsBelow(n, n);
    assert forall k :: 0 <= k < |r| ==> r[k] in r;
    r
  }

  /** get_factors (its cache changes nothing but speed). */
  method GetFactors(num: nat) returns (factors: seq<nat>)
    ensures factors == ProperFactors(num)
  {
    factors := [];
    if num == 0 {
      return;
    }
    var i := 1;
    while i < num
      invariant 1 <= i <= num
      invariant factors == FactorsBelow(num, i)
      decreases num - i
    {
      if num % i == 0 {
        factors := factors + [i];
      }
      i := i + 1;
    }
  }

  /** The number whose digits are a block of k digits "0...01" repeated r
      times: sum of 10^(j*k) for j < r, in Horner form. */
  function RepUnit(k: nat, r: nat): (v: nat)
    ensures r >= 1 ==> v >= 1
  {
    if r == 0 then 0 else RepUnit(k, r - 1) * Pow(10, k) + 1
  }

  /** The sum b^0 + b^1 + ... + b^(r-1). */
  function PowerSum(b: nat, r: nat): nat {
    if r == 0 then 0 else PowerSum(b, r - 1) + Pow(b, r - 1)
  }

  lemma {:induction false} PowerSumShift(b: nat, m: nat)
    ensures PowerSum(b, m) * b + 1 == PowerSum(b, m + 1)
    decreases m
  {
    if m > 0 {
      PowerSumShift(b, m - 1);
      var s: int, q: int := PowerSum(b, m - 1), Pow(b, m - 1);
      assert PowerSum(b, m) == s + q;
      assert Pow(b, m) == b * q;
      Distribute(s, q, b);
    }
  }

  /** Distributivity, stated apart so that the callers' non-linear steps stay small:
      a proof helper, not a property of the puzzle. */
  lemma Distribute(a: int, b: int, c: int)
    ensures (a + b) * c == a * c + b * c
  {
  }

  /** The repunit of block length k is the sum of the powers (10^k)^j for
      j < r, that is 10^0 + 10^k + ... + 10^((r-1)k). */
  lemma {:induction false} RepUnitIsPowerSum(k: nat, r: nat)
    ensures RepUnit(k, r) == PowerSum(Pow(10, k), r)
    decreases r
  {
    if r > 0 {
      RepUnitIsPowerSum(k, r - 1);
      PowerSumShift(Pow(10, k), r - 1);
    }
  }

  /** (10^k)^j is 10^(j*k). */
  lemma {:induction false} PowPow(k: nat, j: nat)
    ensures Pow(Pow(10, k), j) == Pow(10, j * k)
    decreases j
  {
    if j > 0 {
      PowPow(k, j - 1);
      assert k + (j - 1) * k == j * k;
      PowAdd(10, k, (j - 1) * k);
    }
  }

  /** `"0" * (k - 1) + "1"` */
  function Block(k: nat): (b: string)
    requires k >= 1
    ensures |b| == k && AllDigits(b)
  {
    RepeatLength("0", k - 1);
    Repeat("0", k - 1) + "1"
  }

  lemma BlockValue(k: nat)
    requires k >= 1
    ensures DecimalValue(Block(k)) == 1
  {
    var zeros := Repeat("0", k - 1);
    ZerosValue(k - 1);
    DecimalValueAppend(zeros, "1");
    assert DecimalValue("1") == 1 by {
      assert "1"[..0] == [];
    }
    assert Block(k) == zeros + "1";
  }

  /** `int(("0" * (k - 1) + "1") * r)` is the repunit of block length k. */
  lemma {:induction false} RepeatedBlockValue(k: nat, r: nat)
    requires k >= 1
    ensures DecimalValue(Repeat(Block(k), r)) == RepUnit(k, r)
    decreases r
  {
    BlockValue(k);
    RepeatedValue(Block(k), r);
  }

  /** A block of digits written r times is the block's value times the
      repunit of its length. */
  lemma {:induction false} RepeatedValue(b: string, r: nat)
    requires AllDigits(b)
    ensures DecimalValue(Repeat(b, r)) == DecimalValue(b) * RepUnit(|b|, r)
    decreases r
  {
    if r > 0 {
      var init := Repeat(b, r - 1);
      RepeatedValue(b, r - 1);
      DecimalValueAppend(init, b);
      ScaleRepUnit(DecimalValue(b), RepUnit(|b|, r - 1), Pow(10, |b|));
    }
  }

  lemma ScaleRepUnit(v: int, u: int, p: int)
    ensures (v * u) * p + v == v * (u * p + 1)
  {
    MulAssociative(v, u, p);
  }

  /** get_divisor: None for an odd digit count, else `int("1" + "0" * (n/2 - 1) + "1")`,
      which is 10^(n/2) + 1 (two blocks of n/2 digits). */
  function GetDivisor(numDigits: nat): (r: Option<nat>)
    ensures r.Some? <==> numDigits % 2 == 0
    ensures r.Some? && numDigits >= 2 ==> r.value == Pow(10, numDigits / 2) + 1 == RepUnit(numDigits / 2, 2)
  {
    if numDigits % 2 == 1 then None
    else
      var zeros := if numDigits / 2 >= 1 then numDigits / 2 - 1 else 0;
      TwoBlocks(numDigits, zeros);
      Some(Pow(10, zeros) * 10 + 1)
  }

  /** get_divisor's number is the one it writes out as "1", n/2 - 1 zeros
      and "1" (for n = 0 Python's `"0" * -1` is empty, giving 11). */
  lemma GetDivisorText(numDigits: nat)
    requires numDigits % 2 == 0
    ensures GetDivisor(numDigits) == Some(DecimalValue("1" + Repeat("0", if numDigits / 2 >= 1 then numDigits / 2 - 1 else 0) + "1"))
  {
    DivisorDigits(if numDigits / 2 >= 1 then numDigits / 2 - 1 else 0);
  }

  /** `"1" + "0" * z + "1"` is 10^(z+1) + 1. */
  lemma DivisorDigits(z: nat)
    ensures AllDigits("1" + Repeat("0", z) + "1")
    ensures DecimalValue("1" + Repeat("0", z) + "1") == Pow(10, z) * 10 + 1
  {
    OneZerosValue(z);
    DecimalValueAppend("1" + Repeat("0", z), "1");
  }

  lemma TwoBlocks(n: nat, z: nat)
    requires n >= 2 ==> z == n / 2 - 1
    ensures n >= 2 ==> Pow(10, n / 2) == Pow(10, z) * 10 && RepUnit(n / 2, 2) == Pow(10, n / 2) + 1
  {
    if n >= 2 {
      assert RepUnit(n / 2, 1) == 1;
    }
  }

  /** The divisors used by task 2 for ids of n digits: one repunit per
      proper block length. */
  function DivisorsOf(n: nat): (ds: seq<nat>)
    ensures |ds| == |ProperFactors(n)|
    ensures forall k :: 0 <= k < |ds| ==> ds[k] == RepUnit(ProperFactors(n)[k], n / ProperFactors(n)[k])
    ensures forall k :: 0 <= k < |ds| ==> ds[k] >= 1
  {
    var fs := ProperFactors(n);
    seq(|fs|, k requires 0 <= k < |fs| => (AtLeastOnce(n, fs[k]); RepUnit(fs[k], n / fs[k])))
  }

  lemma AtLeastOnce(n: nat, f: nat)
    requires 1 <= f <= n
    ensures n / f >= 1
  {
    DivModUnique(n, f, n / f, n % f);
  }

  /** get_divisors */
  method GetDivisors(numDigits: nat) returns (divisors: seq<nat>)
    ensures divisors == DivisorsOf(numDigits)
  {
    divisors := [];
    var factors := GetFactors(numDigits);
    for k := 0 to |factors|
      invariant divisors == DivisorsOf(numDigits)[..k]
    {
      var subLen := factors[k];
      assert subLen in factors;
      var repeats := numDigits / subLen;
      RepeatedBlockValue(subLen, repeats);
      divisors := divisors + [DecimalValue(Repeat(Block(subLen), repeats))];
      assert DivisorsOf(numDigits)[..k + 1] == DivisorsOf(numDigits)[..k] + [DivisorsOf(numDigits)[k]];
    }
    assert DivisorsOf(numDigits)[..|factors|] == DivisorsOf(numDigits);
  }

  // ---------------------------------------------------------------------------
  // Multiples in a range

  /** min_invalid_id_after: `(-(-id // d)) * d`, the least multiple of d
      that is at least id (Python's `//` floors, as Dafny's `/` does for a
      positive divisor). */
  function MinInvalidIdAfter(id: nat, d: nat): (r: int)
    requires d > 0
    ensures r % d == 0 && id <= r < id + d
  {
    var q := (-(id as int)) / d;
    assert -(id as int) == q * d + (-(id as int)) % d;
    DivModUnique(-q * d, d, -q, 0);
    (-q) * d
  }

  /** max_invalid_id_before: `(id // d) * d`, the greatest multiple of d that
      is at most id. */
  function MaxInvalidIdBefore(id: nat, d: nat): (r: int)
    requires d > 0
    ensures r % d == 0 && id - d < r <= id
  {
    var q := id / d;
    DivModUnique(q * d, d, q, 0);
    q * d
  }

  /** `list(range(lo, hi, step))` */
  function RangeStep(lo: int, hi: int, step: nat): (r: seq<int>)
    requires step > 0
    ensures forall x :: x in r <==> lo <= x < hi && (x - lo) % step == 0
    ensures Increasing(r)
    decreases hi - lo
  {
    if lo >= hi then []
    else
      var rest := RangeStep(lo + step, hi, step);
      forall x ensures (lo <= x < hi && (x - lo) % step == 0) <==> (x == lo || x in rest) {
        ModStep(x - lo, step);
      }
      IncreasingCons(lo, rest);
      [lo] + rest
  }

  lemma IncreasingCons(x: int, r: seq<int>)
    requires Increasing(r) && forall y :: y in r ==> x < y
    ensures Increasing([x] + r)
  {
    var t := [x] + r;
    forall i, j | 0 <= i < j < |t| ensures t[i] < t[j] {
      assert t[j] == r[j - 1] && r[j - 1] in r;
      if i > 0 {
        assert t[i] == r[i - 1];
      }
    }
  }

  /** A non-negative multiple of step other than 0 is step plus a multiple of step. */
  lemma ModStep(y: int, step: nat)
    requires step > 0
    ensures (y >= 0 && y % step == 0) <==> (y == 0 || (y - step >= 0 && (y - step) % step == 0))
  {
    var q := y / step;
    assert y == q * step + y % step;
    DivModUnique(y - step, step, q - 1, y % step);
  }

  /** Between the least multiple at or after start and the greatest at or
      before end, stepping by d meets exactly the multiples of d in [start, end]. */
  lemma MultiplesBetween(start: nat, end: nat, d: nat, x: int)
    requires d > 0
    ensures x in RangeStep(MinInvalidIdAfter(start, d), MaxInvalidIdBefore(end, d) + 1, d) <==>
      (start <= x <= end && x % d == 0)
  {
    var lo, hi := MinInvalidIdAfter(start, d), MaxInvalidIdBefore(end, d);
    ModShift(x, lo, d);
    if x % d == 0 && start <= x <= end {
      if x < lo {
        NextMultiple(x, lo, d);
      }
      if hi < x {
        NextMultiple(hi, x, d);
      }
    }
  }

  /** Shifting by a multiple of d keeps the remainder. */
  lemma ModShift(x: int, m: int, d: nat)
    requires d > 0 && m % d == 0
    ensures (x - m) % d == x % d
  {
    var a, b := x / d, m / d;
    assert m == b * d;
    assert x == a * d + x % d;
    assert x - m == (a - b) * d + x % d;
    DivModUnique(x - m, d, a - b, x % d);
  }

  /** Two multiples of d are at least d apart. */
  lemma NextMultiple(x: int, y: int, d: nat)
    requires d > 0 && x % d == 0 && y % d == 0 && x < y
    ensures x + d <= y
  {
    var a, b := x / d, y / d;
    assert x == a * d && y == b * d;
    if a >= b {
      MulMono(b, a, d);
    }
    MulMono(a, b - 1, d);
    assert (b - 1) * d == b * d - d;
  }

  // ---------------------------------------------------------------------------
  // The invalid ids of a piece

  /** get_invalid_ids_in_range: the multiples of get_divisor's number in
      [start, end] when start has an even number of digits, ascending, and
      none otherwise (the `None` results checked for later never occur). */
  function InvalidIdsInRange(start: nat, end: nat): (r: seq<int>)
    ensures NumDigits(start) % 2 == 1 ==> r == []
    ensures NumDigits(start) % 2 == 0 ==> forall x :: x in r <==>
      (start <= x <= end && x % (Pow(10, NumDigits(start) / 2) + 1) == 0)
    ensures Increasing(r)
  {
    var divisor := GetDivisor(NumDigits(start));
    if divisor.None? then [] else MultiplesIn(start, end, divisor.value)
  }

  /** `list(range(min_invalid_id_after(start, d), max_invalid_id_before(end, d) + 1, d))`:
      the multiples of d in [start, end], ascending. */
  function MultiplesIn(start: nat, end: nat, d: nat): (r: seq<int>)
    requires d > 0
    ensures forall x :: x in r <==> start <= x <= end && x % d == 0
    ensures Increasing(r)
  {
    var r := RangeStep(MinInvalidIdAfter(start, d), MaxInvalidIdBefore(end, d) + 1, d);
    forall x ensures x in r <==> start <= x <= end && x % d == 0 {
      MultiplesBetween(start, end, d, x);
    }
    r
  }

  /** x is a multiple of one of the divisors. */
  predicate MultipleOfAny(x: int, ds: seq<nat>) {
    exists k :: 0 <= k < |ds| && ds[k] > 0 && x % ds[k] == 0
  }


  predicate NoDuplicates(s: seq<int>) {
    forall i, j :: 0 <= i < j < |s| ==> s[i] != s[j]
  }

  /** get_invalid_ids_in_range_2: the multiples for every divisor, gathered,
      then made duplicate-free through a set (in no particular order). */
  method InvalidIdsInRange2(start: nat, end: nat) returns (ids: seq<int>)
    ensures NoDuplicates(ids)
    ensures forall x :: x in ids <==> start <= x <= end && MultipleOfAny(x, DivisorsOf(NumDigits(start)))
  {
    var numDigits := NumDigits(start);
    var divisors := GetDivisors(numDigits);
    var invalidIds := GatherMultiples(start, end, divisors);
    ids := Deduplicate(invalidIds);
  }

  /** The multiples in [start, end] of each divisor in turn. */
  method GatherMultiples(start: nat, end: nat, divisors: seq<nat>) returns (invalidIds: seq<int>)
    requires forall k :: 0 <= k < |divisors| ==> divisors[k] > 0
    ensures forall x :: x in invalidIds <==> start <= x <= end && MultipleOfAny(x, divisors)
  {
    invalidIds := [];
    for k := 0 to |divisors|
      invariant forall x :: x in invalidIds <==> start <= x <= end && MultipleOfAny(x, divisors[..k])
    {
      var divisor := divisors[k];
      var found := MultiplesIn(start, end, divisor);
      forall x ensures x in invalidIds + found <==> start <= x <= end && MultipleOfAny(x, divisors[..k + 1]) {
        MultipleOfAnySnoc(x, divisors[..k], divisor);
        assert divisors[..k + 1] == divisors[..k] + [divisor];
      }
      invalidIds := invalidIds + found;
    }
    assert divisors[..|divisors|] == divisors;
  }

  /** `list(set(invalidIds))`: every id once, in an order left open. */
  method Deduplicate(invalidIds: seq<int>) returns (ids: seq<int>)
    ensures NoDuplicates(ids)
    ensures forall x :: x in ids <==> x in invalidIds
  {
    var seen: set<int> := {};
    ids := [];
    for k := 0 to |invalidIds|
      invariant NoDuplicates(ids)
      invariant forall x :: x in ids <==> x in seen
      invariant forall x :: x in seen <==> x in invalidIds[..k]
    {
      var x := invalidIds[k];
      assert invalidIds[..k + 1] == invalidIds[..k] + [x];
      if x !in seen {
        ids := ids + [x];
        seen := seen + {x};
      }
    }
    assert invalidIds[..|invalidIds|] == invalidIds;
  }

  lemma MultipleAt(x: int, ds: seq<nat>, k: nat)
    requires k < |ds| && ds[k] > 0 && x % ds[k] == 0
    ensures MultipleOfAny(x, ds)
  {
  }

  lemma MultipleOfAnySnoc(x: int, ds: seq<nat>, d: nat)
    requires d > 0
    ensures MultipleOfAny(x, ds + [d]) <==> MultipleOfAny(x, ds) || x % d == 0
  {
    var e := ds + [d];
    if MultipleOfAny(x, ds) {
      var k :| 0 <= k < |ds| && ds[k] > 0 && x % ds[k] == 0;
      assert e[k] == ds[k];
    }
    if x % d == 0 {
      assert e[|ds|] == d;
    }
    if MultipleOfAny(x, e) {
      var k :| 0 <= k < |e| && e[k] > 0 && x % e[k] == 0;
      if k < |ds| {
        assert e[k] == ds[k];
      }
    }
  }

  /** Every task-1 invalid id of a range is also a task-2 one: two blocks of
      half the digits is one of the repetitions task 2 looks for. */
  lemma Task1IdsAreTask2Ids(start: nat, end: nat, x: int)
    requires x in InvalidIdsInRange(start, end)
    ensures start <= x <= end && MultipleOfAny(x, DivisorsOf(NumDigits(start)))
  {
    var n := NumDigits(start);
    Task1Member(start, end, x);
    var k := HalfDivisor(n);
    MultipleAt(x, DivisorsOf(n), k);
  }

  lemma Task1Member(start: nat, end: nat, x: int)
    requires x in InvalidIdsInRange(start, end)
    ensures NumDigits(start) % 2 == 0 && start <= x <= end && x % (Pow(10, NumDigits(start) / 2) + 1) == 0
  {
    var n := NumDigits(start);
    Task1Parity(start, end, x);
    var d := Pow(10, n / 2) + 1;
    assert InvalidIdsInRange(start, end) == MultiplesIn(start, end, d);
  }

  lemma Task1Parity(start: nat, end: nat, x: int)
    requires x in InvalidIdsInRange(start, end)
    ensures NumDigits(start) % 2 == 0
  {
  }

  /** Two blocks of half the digits is among task 2's repetitions. */
  lemma HalfDivisor(n: nat) returns (k: nat)
    requires n >= 1 && n % 2 == 0
    ensures k < |DivisorsOf(n)| && DivisorsOf(n)[k] == Pow(10, n / 2) + 1
  {
    var h := n / 2;
    HalfIsFactor(n);
    var fs := ProperFactors(n);
    k :| 0 <= k < |fs| && fs[k] == h;
    assert DivisorsOf(n)[k] == RepUnit(h, 2);
    TwoBlocks(n, h - 1);
  }

  lemma HalfIsFactor(n: nat)
    requires n >= 1 && n % 2 == 0
    ensures n / 2 in ProperFactors(n) && n / (n / 2) == 2
  {
    DivModUnique(n, n / 2, 2, 0);
  }

  // ---------------------------------------------------------------------------
  // Why the multiples are the repeated ids

  /** The digit string s is one block of k digits written |s| / k times. */
  predicate RepeatsBlock(s: string, k: nat) {
    1 <= k <= |s| && |s| % k == 0 && s == Repeat(s[..k], |s| / k)
  }

  /** The digit string s is one block written twice. */
  predicate Doubled(s: string) {
    |s| % 2 == 0 && s == s[..|s| / 2] + s[..|s| / 2]
  }

  /** The last k digits of m, with leading zeros. */
  function PadDigits(m: nat, k: nat): (s: string)
    ensures |s| == k && AllDigits(s)
    ensures DecimalValue(s) == m % Pow(10, k)
  {
    if k == 0 then []
    else
      var init := PadDigits(m / 10, k - 1);
      DecimalValueAppend(init, [DigitChar(m % 10)]);
      LastDigits(m, Pow(10, k - 1));
      init + [DigitChar(m % 10)]
  }

  lemma LastDigits(m: nat, p: nat)
    requires p >= 1
    ensures (m / 10 % p) * 10 + m % 10 == m % (10 * p)
  {
    var q, d := m / 10, m % 10;
    var a, b := q / p, q % p;
    assert m == 10 * q + d && q == a * p + b;
    assert m == a * (10 * p) + (b * 10 + d);
    DivModUnique(m, 10 * p, a, b * 10 + d);
  }

  /** (10^k)^(r-1) <= RepUnit(k, r): the repunit has r digits' worth of blocks. */
  lemma {:induction false} RepUnitBound(k: nat, r: nat)
    requires r >= 1
    ensures RepUnit(k, r) * Pow(10, k) >= Pow(10, k * r)
    decreases r
  {
    var p := Pow(10, k);
    if r == 1 {
      assert RepUnit(k, 1) == 1;
    } else {
      RepUnitBound(k, r - 1);
      var up: int := RepUnit(k, r - 1) * p;
      PowAdd(10, k * (r - 1), k);
      assert k * (r - 1) + k == k * r;
      assert RepUnit(k, r) == up + 1;
      Distribute(up, 1, p);
      MulMono(Pow(10, k * (r - 1)), up, p);
    }
  }

  /** A number below 10^(k r) that the repunit divides is some block of k
      digits written r times. */
  lemma MultipleIsRepeated(x: nat, k: nat, r: nat) returns (b: string)
    requires k >= 1 && r >= 1 && x < Pow(10, k * r) && x % RepUnit(k, r) == 0
    ensures |b| == k && AllDigits(b) && DecimalValue(Repeat(b, r)) == x
  {
    var u := RepUnit(k, r);
    var p := Pow(10, k);
    var m := x / u;
    assert x == m * u;
    QuotientBelow(x, m, u, p, Pow(10, k * r)) by {
      RepUnitBound(k, r);
    }
    b := PadDigits(m, k);
    DivModUnique(m, p, 0, m);
    RepeatedValue(b, r);
  }

  lemma QuotientBelow(x: nat, m: nat, u: nat, p: nat, bound: nat)
    requires x == m * u && x < bound && u * p >= bound
    ensures m < p
  {
    if m >= p {
      MulMono(p, m, u);
    }
  }

  lemma {:induction false} LeadingNonZero(s: string)
    requires AllDigits(s) && s != [] && s[0] != '0'
    ensures DecimalValue(s) >= 1
    decreases |s|
  {
    if |s| > 1 {
      LeadingNonZero(s[..|s| - 1]);
    }
  }

  /** A digit string without a leading zero is the decimal of its value. */
  lemma {:induction false} CanonicalDigits(s: string)
    requires AllDigits(s) && s != [] && (|s| == 1 || s[0] != '0')
    ensures Decimal(DecimalValue(s)) == s
    decreases |s|
  {
    var n := DecimalValue(s);
    if |s| == 1 {
      assert DigitChar(DigitValue(s[0])) == s[0];
    } else {
      var init := s[..|s| - 1];
      LeadingNonZero(init);
      CanonicalDigits(init);
      DivModUnique(n, 10, DecimalValue(init), DigitValue(s[|s| - 1]));
      assert DigitChar(DigitValue(s[|s| - 1])) == s[|s| - 1];
      assert s == init + [s[|s| - 1]];
    }
  }

  lemma LeadingZeroSmall(s: string)
    requires AllDigits(s) && |s| >= 2 && s[0] == '0'
    ensures DecimalValue(s) < Pow(10, |s| - 1)
  {
    assert s == [s[0]] + s[1..];
    DecimalValueAppend([s[0]], s[1..]);
  }

  lemma {:induction false} RepeatStart(b: string, r: nat)
    requires r >= 1
    ensures |b| <= |Repeat(b, r)| && Repeat(b, r)[..|b|] == b
    decreases r
  {
    if r > 1 {
      RepeatStart(b, r - 1);
      assert Repeat(b, r) == Repeat(b, r - 1) + b;
    }
  }

  /** An id of k r digits is a multiple of the repunit of k-digit blocks
      repeated r times exactly when its digits are one block of k digits
      written r times. */
  lemma MultipleIffRepeated(x: nat, k: nat, r: nat)
    requires k >= 1 && r >= 1 && NumDigits(x) == k * r
    ensures x % RepUnit(k, r) == 0 <==> RepeatsBlock(Decimal(x), k)
  {
    DivModUnique(NumDigits(x), k, r, 0);
    MulMono(1, r, k);
    if x % RepUnit(k, r) == 0 {
      MultipleRepeats(x, k, r);
    }
    if RepeatsBlock(Decimal(x), k) {
      RepeatsMultiple(x, k, r);
    }
  }

  lemma MultipleRepeats(x: nat, k: nat, r: nat)
    requires k >= 1 && r >= 1 && NumDigits(x) == k * r && x % RepUnit(k, r) == 0
    ensures k <= NumDigits(x) && Decimal(x) == Repeat(Decimal(x)[..k], r)
  {
    NumDigitsBounds(x);
    var b := MultipleIsRepeated(x, k, r);
    var t := Repeat(b, r);
    RepeatLength(b, r);
    if |t| >= 2 && t[0] == '0' {
      LeadingZeroSmall(t);
      assert false;
    }
    CanonicalDigits(t);
    RepeatStart(b, r);
  }

  lemma RepeatsMultiple(x: nat, k: nat, r: nat)
    requires k >= 1 && r >= 1 && NumDigits(x) == k * r
    requires k <= NumDigits(x) && Decimal(x) == Repeat(Decimal(x)[..k], r)
    ensures x % RepUnit(k, r) == 0
  {
    var b := Decimal(x)[..k];
    DecimalRoundTrip(x);
    RepeatedValue(b, r);
    DivModUnique(x, RepUnit(k, r), DecimalValue(b), 0);
  }

  /** An id of 2h digits is a multiple of 10^h + 1 exactly when its digits
      are one block written twice. */
  lemma DoubledIff(x: nat, h: nat)
    requires h >= 1 && NumDigits(x) == 2 * h
    ensures x % (Pow(10, h) + 1) == 0 <==> Doubled(Decimal(x))
  {
    RepUnitTwo(h);
    MultipleIffRepeated(x, h, 2);
    RepeatsTwiceIff(Decimal(x), h);
  }

  lemma RepUnitTwo(h: nat)
    ensures RepUnit(h, 2) == Pow(10, h) + 1
  {
    assert RepUnit(h, 1) == 1;
  }

  lemma RepeatsTwiceIff(s: string, h: nat)
    requires h >= 1 && |s| == 2 * h
    ensures RepeatsBlock(s, h) <==> Doubled(s)
  {
    var b := s[..h];
    assert |s| / 2 == h;
    DivModUnique(|s|, h, 2, 0);
    RepeatTwice(b);
    assert RepeatsBlock(s, h) == (s == b + b);
  }

  lemma RepeatTwice(b: string)
    ensures Repeat(b, 2) == b + b
  {
    assert Repeat(b, 1) == b;
  }

  /** The ids get_invalid_ids_in_range finds in a piece (whose ends have the
      same number of digits) are exactly those whose digits are one block
      written twice. */
  lemma InvalidIdsAreDoubled(start: nat, end: nat, x: int)
    requires NumDigits(start) == NumDigits(end)
    ensures x in InvalidIdsInRange(start, end) <==> (start <= x <= end && Doubled(Decimal(x)))
  {
    InvalidMember(start, end, x);
    if start <= x <= end {
      DoubledInPiece(start, end, x);
    }
  }

  lemma DoubledInPiece(start: nat, end: nat, x: nat)
    requires NumDigits(start) == NumDigits(end) && start <= x <= end
    ensures (NumDigits(start) % 2 == 0 && x % (Pow(10, NumDigits(start) / 2) + 1) == 0) == Doubled(Decimal(x))
  {
    NumDigitsMonotone(start, x);
    NumDigitsMonotone(x, end);
    var n := NumDigits(x);
    if n % 2 == 0 {
      DoubledIff(x, n / 2);
    }
  }

  lemma InvalidMember(start: nat, end: nat, x: int)
    ensures x in InvalidIdsInRange(start, end) <==>
      (NumDigits(start) % 2 == 0 && start <= x <= end && x % (Pow(10, NumDigits(start) / 2) + 1) == 0)
  {
  }

  /** For a proper block length k of x's digit count, task 2's divisor for
      k divides x exactly when x's digits repeat a block of k. */
  lemma FactorRepeats(x: nat, k: nat)
    requires 1 <= k < NumDigits(x) && NumDigits(x) % k == 0
    ensures x % RepUnit(k, NumDigits(x) / k) == 0 <==> RepeatsBlock(Decimal(x), k)
  {
    var n := NumDigits(x);
    AtLeastOnce(n, k);
    assert n == k * (n / k);
    MultipleIffRepeated(x, k, n / k);
  }

  /** The ids get_invalid_ids_in_range_2 finds in a piece are exactly those
      whose digits are one block written at least twice. */
  lemma InvalidIds2AreRepeated(start: nat, end: nat, x: int)
    requires NumDigits(start) == NumDigits(end)
    ensures (start <= x <= end && MultipleOfAny(x, DivisorsOf(NumDigits(start)))) <==>
      (start <= x <= end && exists k :: 1 <= k < NumDigits(x) && RepeatsBlock(Decimal(x), k))
  {
    if start <= x <= end {
      NumDigitsMonotone(start, x);
      NumDigitsMonotone(x, end);
      if MultipleOfAny(x, DivisorsOf(NumDigits(x))) {
        var k := MultipleHasBlock(x);
      }
      if exists k :: 1 <= k < NumDigits(x) && RepeatsBlock(Decimal(x), k) {
        var k :| 1 <= k < NumDigits(x) && RepeatsBlock(Decimal(x), k);
        BlockHasMultiple(x, k);
      }
    }
  }

  lemma MultipleHasBlock(x: nat) returns (k: nat)
    requires MultipleOfAny(x, DivisorsOf(NumDigits(x)))
    ensures 1 <= k < NumDigits(x) && RepeatsBlock(Decimal(x), k)
  {
    var n := NumDigits(x);
    var ds := DivisorsOf(n);
    var j :| 0 <= j < |ds| && ds[j] > 0 && x % ds[j] == 0;
    k := FactorAt(n, j);
    FactorRepeats(x, k);
  }

  /** The j-th proper factor of n and the divisor task 2 derives from it. */
  lemma FactorAt(n: nat, j: nat) returns (k: nat)
    requires j < |ProperFactors(n)|
    ensures k == ProperFactors(n)[j] && 1 <= k < n && n % k == 0
    ensures j < |DivisorsOf(n)| && DivisorsOf(n)[j] == RepUnit(k, n / k)
  {
    var fs := ProperFactors(n);
    k := fs[j];
    assert k in fs;
  }

  lemma BlockHasMultiple(x: nat, k: nat)
    requires 1 <= k < NumDigits(x) && RepeatsBlock(Decimal(x), k)
    ensures MultipleOfAny(x, DivisorsOf(NumDigits(x)))
  {
    var n := NumDigits(x);
    var fs := ProperFactors(n);
    assert k in fs;
    var j :| 0 <= j < |fs| && fs[j] == k;
    FactorRepeats(x, k);
    MultipleAt(x, DivisorsOf(n), j);
  }

  // ---------------------------------------------------------------------------
  // The tasks

  /** The sum of task 1's invalid ids over the ranges. */
  function TotalInvalid1(ranges: seq<IdRange>): int {
    if ranges == [] then 0
    else
      var r := ranges[|ranges| - 1];
      TotalInvalid1(ranges[..|ranges| - 1]) + Sum(InvalidIdsInRange(r.0, r.1))
  }

  /** task_1 */
  method Task1(ranges: seq<IdRange>) returns (invalidIdSum: int)
    ensures invalidIdSum == TotalInvalid1(ranges)
  {
    invalidIdSum := 0;
    for k := 0 to |ranges|
      invariant invalidIdSum == TotalInvalid1(ranges[..k])
    {
      var (start, end) := ranges[k];
      assert ranges[..k + 1][..k] == ranges[..k];
      var invalidIds := InvalidIdsInRange(start, end);
      invalidIdSum := invalidIdSum + Sum(invalidIds);
    }
    assert ranges[..|ranges|] == ranges;
  }

  /** The sum of the ids in [lo, hi] that are multiples of one of ds. */
  function SumMultiples(lo: int, hi: int, ds: seq<nat>): int
    decreases hi - lo
  {
    if hi < lo then 0
    else SumMultiples(lo, hi - 1, ds) + (if MultipleOfAny(hi, ds) then hi else 0)
  }

  /** Summing a duplicate-free list of exactly those ids gives the same,
      whatever its order. */
  lemma {:induction false} SumOfMultiples(ids: seq<int>, lo: int, hi: int, ds: seq<nat>)
    requires NoDuplicates(ids)
    requires forall x :: x in ids <==> lo <= x <= hi && MultipleOfAny(x, ds)
    ensures Sum(ids) == SumMultiples(lo, hi, ds)
    decreases hi - lo
  {
    if hi < lo {
      NoneInEmptyRange(ids, lo, hi);
    } else if MultipleOfAny(hi, ds) {
      var i :| 0 <= i < |ids| && ids[i] == hi;
      var rest := RemoveAt(ids, i);
      assert forall x :: x in rest <==> lo <= x <= hi - 1 && MultipleOfAny(x, ds);
      SumOfMultiples(rest, lo, hi - 1, ds);
    } else {
      SumOfMultiples(ids, lo, hi - 1, ds);
    }
  }

  /** No id lies in an empty interval, so a list of such ids is empty. */
  lemma NoneInEmptyRange(ids: seq<int>, lo: int, hi: int)
    requires hi < lo && forall x :: x in ids ==> lo <= x <= hi
    ensures ids == []
  {
    if ids != [] {
      var x := FirstIn(ids);
      assert false;
    }
  }

  /** A non-empty list has a member: its first entry. */
  lemma FirstIn(ids: seq<int>) returns (x: int)
    requires ids != []
    ensures x in ids && x == ids[0]
  {
    x := ids[0];
  }

  /** ids without its i-th entry keeps every other id once. */
  lemma RemoveAt(ids: seq<int>, i: nat) returns (rest: seq<int>)
    requires NoDuplicates(ids) && i < |ids|
    ensures NoDuplicates(rest)
    ensures forall x :: x in rest <==> x in ids && x != ids[i]
    ensures Sum(ids) == Sum(rest) + ids[i]
  {
    rest := ids[..i] + ids[i + 1..];
    RemoveAtSum(ids, i);
    RemoveAtMembers(ids, i);
    forall a, b | 0 <= a < b < |rest| ensures rest[a] != rest[b] {
      var a', b' := if a < i then a else a + 1, if b < i then b else b + 1;
      assert rest[a] == ids[a'] && rest[b] == ids[b'];
    }
  }

  lemma RemoveAtSum(ids: seq<int>, i: nat)
    requires i < |ids|
    ensures Sum(ids) == Sum(ids[..i] + ids[i + 1..]) + ids[i]
  {
    var front, back := ids[..i], ids[i + 1..];
    assert ids[..i + 1][..i] == front;
    assert ids == ids[..i + 1] + back;
    SumAppend(ids[..i + 1], back);
    SumAppend(front, back);
  }

  lemma RemoveAtMembers(ids: seq<int>, i: nat)
    requires NoDuplicates(ids) && i < |ids|
    ensures forall x :: x in ids[..i] + ids[i + 1..] <==> x in ids && x != ids[i]
  {
    var rest := ids[..i] + ids[i + 1..];
    forall x | x in rest ensures x in ids && x != ids[i] {
      var j :| 0 <= j < |rest| && rest[j] == x;
      if j < i {
        assert ids[j] == x && ids[j] != ids[i];
      } else {
        assert ids[j + 1] == x && ids[i] != ids[j + 1];
      }
    }
    forall x | x in ids && x != ids[i] ensures x in rest {
      var j :| 0 <= j < |ids| && ids[j] == x;
      if j < i {
        assert rest[j] == x;
      } else {
        assert rest[j - 1] == x;
      }
    }
  }

  /** The sum of task 2's invalid ids over the ranges. */
  function TotalInvalid2(ranges: seq<IdRange>): int {
    if ranges == [] then 0
    else
      var r := ranges[|ranges| - 1];
      TotalInvalid2(ranges[..|ranges| - 1]) + SumMultiples(r.0, r.1, DivisorsOf(NumDigits(r.0)))
  }

  /** task_2: whatever order the set hands the ids out in, the sum is the
      same. */
  method Task2(ranges: seq<IdRange>) returns (invalidIdSum: int)
    ensures invalidIdSum == TotalInvalid2(ranges)
  {
    invalidIdSum := 0;
    for k := 0 to |ranges|
      invariant invalidIdSum == TotalInvalid2(ranges[..k])
    {
      var (start, end) := ranges[k];
      assert ranges[..k + 1][..k] == ranges[..k];
      var invalidIds := InvalidIdsInRange2(start, end);
      SumOfMultiples(invalidIds, start, end, DivisorsOf(NumDigits(start)));
      invalidIdSum := invalidIdSum + Sum(invalidIds);
    }
    assert ranges[..|ranges|] == ranges;
  }

  // ---------------------------------------------------------------------------
  // Reading the input

  /** Python's `int(s)` of a field: surrounding whitespace is dropped, then
      the rest must be digits. */
  function PyInt(s: string): Option<nat> {
    ParseNat(Trim(s))
  }

  /** One field "a-b" of parse_ranges (None where the unpacking or `int` fails). */
  function ParseRange(field: string): (r: Option<IdRange>)
    ensures r.Some? <==> (|SplitOn(field, '-')| == 2 && PyInt(SplitOn(field, '-')[0]).Some? &&
      PyInt(SplitOn(field, '-')[1]).Some?)
  {
    var parts := SplitOn(field, '-');
    if |parts| != 2 then None
    else
      var a, b := PyInt(parts[0]), PyInt(parts[1]);
      if a.Some? && b.Some? then Some((a.value, b.value)) else None
  }

  /** parse_ranges: the comma-separated fields of the input. */
  function ParseRanges(text: string): Option<seq<IdRange>> {
    ReadAll(ParseRange, SplitOn(text, ','))
  }

  /** A range written "a-b" reads back as itself, even with the line break
      that ends the file after it. */
  lemma ParseRangeRendered(a: nat, b: nat)
    ensures ParseRange(Decimal(a) + "-" + Decimal(b) + "\n") == Some((a, b))
  {
    var da, db := Decimal(a), Decimal(b);
    var dbn := db + "\n";
    assert '-' !in da && '-' !in dbn by {
      forall k | 0 <= k < |da| ensures da[k] != '-' { assert IsDigit(da[k]); }
      forall k | 0 <= k < |dbn| ensures dbn[k] != '-' {
        if k < |db| { assert IsDigit(db[k]); }
      }
    }
    assert Join([da, dbn], "-") == da + "-" + db + "\n";
    SplitOnJoin([da, dbn], '-');
    DigitsTrimmed(da);
    DigitsTrimmed(db);
    DigitsTrimEnd(db);
    DecimalRoundTrip(a);
    DecimalRoundTrip(b);
  }

  lemma DigitsTrimmed(s: string)
    requires |s| >= 1 && AllDigits(s)
    ensures Trim(s) == s
  {
    TrimTrimmed(s);
  }

  lemma DigitsTrimEnd(s: string)
    requires |s| >= 1 && AllDigits(s)
    ensures Trim(s + "\n") == s
  {
    var t := s + "\n";
    assert IsDigit(s[0]) && IsDigit(s[|s| - 1]);
    assert t[0] == s[0] && t[..|s|] == s;
    assert TrimStart(t) == t;
    assert TrimEnd(s) == s;
    assert TrimEnd(t) == TrimEnd(s);
  }
}
