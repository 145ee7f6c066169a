// Battery banks: from a string of digits pick n batteries, in order, so that
// the n-digit number they spell is as large as possible; the program does it
// greedily, one window per digit (2025/day_03/main.py).

module BatteryBanks {
  import opened Basics

  type Digit = d: nat | d < 10

  /** The digits of a bank, as `int(digit_str[i])` reads them one by one. */
  function Digits(s: string): (ds: seq<Digit>)
    requires AllDigits(s)
  {
    seq(|s|, i requires 0 <= i < |s| => DigitValue(s[i]) as Digit)
  }

  lemma DigitsSlice(s: string, lo: nat, hi: nat)
    requires AllDigits(s) && lo <= hi <= |s|
    ensures AllDigits(s[lo..hi]) && Digits(s[lo..hi]) == Digits(s)[lo..hi]
  {
    assert forall i :: 0 <= i < hi - lo ==> s[lo..hi][i] == s[lo + i];
  }

  // ---------------------------------------------------------------------------
  // get_largest_digit

  /** get_largest_digit's pair (max_digit, max_digit_pos). */
  datatype Best = Best(digit: Digit, pos: int)

  /** The scan of get_largest_digit over the window bank[lo..hi] as a function,
      positions counted from lo: start from (0, -1) and replace the pair only
      on a strictly larger digit. A window whose bounds cross is empty. */
  function Scan(bank: seq<Digit>, lo: nat, hi: nat): (b: Best)
    requires hi <= |bank|
    ensures -1 <= b.pos && (b.pos >= 0 ==> lo + b.pos < hi)
    ensures hi <= lo ==> b == Best(0, -1)
    decreases hi
  {
    if hi <= lo then Best(0, -1)
    else
      var b := Scan(bank, lo, hi - 1);
      if bank[hi - 1] > b.digit then Best(bank[hi - 1], hi - 1 - lo) else b
  }

  /** What the pair means: the maximum digit of the window, found first at the
      position, and (0, -1) exactly when every digit is 0 (or there is none). */
  lemma {:induction false} ScanMeaning(bank: seq<Digit>, lo: nat, hi: nat)
    requires hi <= |bank|
    ensures var b := Scan(bank, lo, hi);
      && (forall j :: lo <= j < hi ==> bank[j] <= b.digit)
      && (b.pos == -1 <==> b.digit == 0)
      && (b.pos >= 0 ==> bank[lo + b.pos] == b.digit)
      && (forall j :: lo <= j < lo + b.pos ==> bank[j] < b.digit)
    decreases hi
  {
    if lo < hi {
      ScanMeaning(bank, lo, hi - 1);
    }
  }

  /** The scan of a window depends only on the digits inside it. */
  lemma {:induction false} ScanSlice(bank: seq<Digit>, lo: nat, hi: nat)
    requires lo <= hi <= |bank|
    ensures Scan(bank, lo, hi) == Scan(bank[lo..hi], 0, hi - lo)
    decreases hi
  {
    if lo < hi {
      ScanSlice(bank, lo, hi - 1);
      var w, w' := bank[lo..hi], bank[lo..hi - 1];
      ScanPrefix(w, hi - lo - 1);
      assert w[..hi - lo - 1] == w';
      assert w[hi - lo - 1] == bank[hi - 1];
    }
  }

  /** Scanning a prefix of a sequence is scanning the sequence up to that point. */
  lemma {:induction false} ScanPrefix(w: seq<Digit>, k: nat)
    requires k <= |w|
    ensures Scan(w, 0, k) == Scan(w[..k], 0, k)
    decreases k
  {
    if k > 0 {
      ScanPrefix(w, k - 1);
      ScanPrefix(w[..k], k - 1);
      assert w[..k][..k - 1] == w[..k - 1];
    }
  }

  /** A 0 at the front of the window changes neither the maximum nor, when
      the maximum is non-zero, which battery holds it. */
  lemma {:induction false} ScanSkipZero(bank: seq<Digit>, lo: nat, hi: nat)
    requires lo < hi <= |bank| && bank[lo] == 0
    ensures var b, b' := Scan(bank, lo, hi), Scan(bank, lo + 1, hi);
      b.digit == b'.digit && (if b.digit == 0 then b.pos == b'.pos == -1 else b.pos == b'.pos + 1)
    decreases hi
  {
    ScanMeaning(bank, lo, hi);
    ScanMeaning(bank, lo + 1, hi);
    if lo + 1 < hi {
      ScanSkipZero(bank, lo, hi - 1);
    }
  }

  /** get_largest_digit: a left-to-right scan keeping the best digit so far. */
  method LargestDigit(s: string) returns (maxDigit: nat, maxPos: int)
    requires AllDigits(s)
    ensures maxDigit < 10 && Best(maxDigit, maxPos) == Scan(Digits(s), 0, |s|)
  {
    ghost var ds := Digits(s);
    maxDigit, maxPos := 0, -1;
    for i := 0 to |s|
      invariant maxDigit < 10 && Best(maxDigit, maxPos) == Scan(ds, 0, i)
    {
      var d := DigitValue(s[i]);
      if d > maxDigit {
        maxDigit, maxPos := d, i;
      }
    }
  }

  // ---------------------------------------------------------------------------
  // get_joltage

  /** Where the window for digit i ends in a bank of length len: the slice end
      `-n + i + 1`, or None (the end of the bank) when that is 0, with Python's
      clamping of a negative bound. */
  function WindowEnd(len: nat, n: nat, i: nat): (hi: nat)
    requires i < n
    ensures hi <= len
    ensures n - i - 1 <= len ==> hi + (n - i - 1) == len
  {
    var k := n - i - 1;
    if k <= len then len - k else 0
  }

  /** The pair get_largest_digit returns for digit i when the window starts at left. */
  function Pick(bank: seq<Digit>, left: nat, n: nat, i: nat): Best
    requires i < n
  {
    Scan(bank, left, WindowEnd(|bank|, n, i))
  }

  /** Digit d at decimal place e: `10 ** e * d`, written as e multiplications by 10. */
  function Place(d: nat, e: nat): nat {
    if e == 0 then d else 10 * Place(d, e - 1)
  }

  lemma {:induction false} PlaceIsPow(d: nat, e: nat)
    ensures Place(d, e) == Pow(10, e) * d
  {
    if e > 0 {
      PlaceIsPow(d, e - 1);
      MulAssociative(10, Pow(10, e - 1), d);
    }
  }

  lemma {:induction false} PlaceAdd(a: nat, b: nat, e: nat)
    ensures Place(a + b, e) == Place(a, e) + Place(b, e)
  {
    if e > 0 {
      PlaceAdd(a, b, e - 1);
    }
  }

  lemma {:induction false} PlaceTen(d: nat, e: nat)
    ensures Place(10 * d, e) == 10 * Place(d, e)
  {
    if e > 0 {
      PlaceTen(d, e - 1);
    }
  }

  /** The greedy loop from digit i on, with the window starting at left. */
  function JoltageFrom(bank: seq<Digit>, n: nat, i: nat, left: nat): nat
    requires i <= n
    decreases n - i
  {
    if i == n then 0
    else
      var b := Pick(bank, left, n, i);
      Place(b.digit, n - i - 1) + JoltageFrom(bank, n, i + 1, left + b.pos + 1)
  }

  function Joltage(bank: seq<Digit>, n: nat): nat {
    JoltageFrom(bank, n, 0, 0)
  }

  /** get_joltage */
  method GetJoltage(bank: string, n: nat) returns (joltage: nat)
    requires AllDigits(bank)
    ensures joltage == Joltage(Digits(bank), n)
  {
    ghost var ds := Digits(bank);
    joltage := 0;
    var left: nat := 0;
    for i := 0 to n
      invariant joltage + JoltageFrom(ds, n, i, left) == Joltage(ds, n)
    {
      var right := WindowEnd(|bank|, n, i);
      var w := if left < right then bank[left..right] else [];
      WindowScan(bank, left, right);
      var maxDigit, maxPos := LargestDigit(w);
      left := left + maxPos + 1;
      joltage := joltage + Place(maxDigit, n - i - 1);
    }
  }

  /** The slice `bank[left:right]` handed to get_largest_digit scans like the window. */
  lemma WindowScan(bank: string, left: nat, right: nat)
    requires AllDigits(bank) && right <= |bank|
    ensures var w := if left < right then bank[left..right] else [];
      AllDigits(w) && Scan(Digits(w), 0, |w|) == Scan(Digits(bank), left, right)
  {
    if left < right {
      DigitsSlice(bank, left, right);
      ScanSlice(Digits(bank), left, right);
    }
  }

  /** One turn of the greedy loop: a digit at place n - i - 1, then the rest from a new left. */
  lemma Unfold(bank: seq<Digit>, n: nat, i: nat, left: nat) returns (m: Digit, next: nat)
    requires i < n
    ensures m == Pick(bank, left, n, i).digit && next == left + Pick(bank, left, n, i).pos + 1
    ensures JoltageFrom(bank, n, i, left) == Place(m, n - i - 1) + JoltageFrom(bank, n, i + 1, next)
  {
    var b := Pick(bank, left, n, i);
    m, next := b.digit, left + b.pos + 1;
  }

  lemma {:induction false} JoltageFromBound(bank: seq<Digit>, n: nat, i: nat, left: nat)
    requires i <= n
    ensures JoltageFrom(bank, n, i, left) < Place(1, n - i)
    decreases n - i
  {
    if i < n {
      var m, next := Unfold(bank, n, i, left);
      JoltageFromBound(bank, n, i + 1, next);
      DigitStep(m, n - i - 1, JoltageFrom(bank, n, i + 1, next));
    }
  }

  /** A digit d in front of a tail below 10^e stays below 10^(e+1). */
  lemma DigitStep(d: nat, e: nat, rest: nat)
    requires d < 10 && rest < Place(1, e)
    ensures Place(d, e) + rest < Place(1, e + 1)
  {
    PlaceAdd(d, 1, e);
    PlaceAdd(d + 1, 9 - d, e);
    PlaceTen(1, e);
  }

  /** A smaller digit at place e loses whatever follows it below 10^e. */
  lemma DigitLess(d: nat, m: nat, e: nat, rest: nat)
    requires d < m && rest < Place(1, e)
    ensures Place(d, e) + rest < Place(m, e)
  {
    PlaceAdd(d, 1, e);
    PlaceAdd(d + 1, m - d - 1, e);
  }

  /** The joltage of a bank has at most n digits. */
  lemma JoltageBound(bank: seq<Digit>, n: nat)
    ensures Joltage(bank, n) < Pow(10, n)
  {
    JoltageFromBound(bank, n, 0, 0);
    PlaceIsPow(1, n);
  }

  // ---------------------------------------------------------------------------
  // The greedy pick is optimal

  /** Positions strictly increasing inside [lo, hi). */
  predicate IsSelection(p: seq<int>, lo: int, hi: int) {
    (forall k :: 0 <= k < |p| ==> lo <= p[k] < hi) &&
    (forall k :: 0 <= k < |p| - 1 ==> p[k] < p[k + 1])
  }

  /** The number spelled by the batteries at the chosen positions, first digit most significant. */
  function Value(bank: seq<Digit>, p: seq<int>): nat
    requires IsSelection(p, 0, |bank|)
  {
    if p == [] then 0
    else
      assert IsSelection(p[1..], 0, |bank|);
      Place(bank[p[0]], |p| - 1) + Value(bank, p[1..])
  }

  lemma {:induction false} ValueBound(bank: seq<Digit>, p: seq<int>)
    requires IsSelection(p, 0, |bank|)
    ensures Value(bank, p) < Place(1, |p|)
    decreases |p|
  {
    if p != [] {
      assert IsSelection(p[1..], 0, |bank|);
      ValueBound(bank, p[1..]);
      DigitStep(bank[p[0]], |p| - 1, Value(bank, p[1..]));
    }
  }

  /** In a selection inside [lo, hi) the first position leaves room for the others. */
  lemma {:induction false} SelectionRoom(p: seq<int>, lo: int, hi: int)
    requires IsSelection(p, lo, hi) && p != []
    ensures p[0] + |p| <= hi
    decreases |p|
  {
    if |p| > 1 {
      assert IsSelection(p[1..], lo, hi);
      SelectionRoom(p[1..], lo, hi);
    }
  }

  /** Dropping the first position leaves a selection starting after it. */
  lemma SelectionTail(p: seq<int>, lo: int, hi: int, lo': int)
    requires IsSelection(p, lo, hi) && p != [] && lo' <= p[0] + 1
    ensures IsSelection(p[1..], lo', hi)
  {
    forall k | 0 <= k < |p| - 1 ensures lo' <= p[1..][k] < hi {
      SelectionOrdered(p, lo, hi, k + 1);
    }
  }

  lemma {:induction false} SelectionOrdered(p: seq<int>, lo: int, hi: int, k: nat)
    requires IsSelection(p, lo, hi) && 0 < k < |p|
    ensures p[0] < p[k]
    decreases k
  {
    if k > 1 {
      SelectionOrdered(p, lo, hi, k - 1);
    }
  }

  /** The battery at any position of the window is at most the window's
      maximum, and a position holding the maximum is not before its first occurrence. */
  lemma WindowHead(bank: seq<Digit>, n: nat, i: nat, left: nat, p0: int)
    requires i < n && left <= p0 && p0 + (n - i) <= |bank|
    ensures var b := Pick(bank, left, n, i);
      bank[p0] <= b.digit && (bank[p0] == b.digit ==> left + b.pos <= p0)
  {
    ScanMeaning(bank, left, WindowEnd(|bank|, n, i));
  }

  /** No selection of n - i batteries from left onwards beats the greedy loop. */
  lemma {:induction false} GreedyUpper(bank: seq<Digit>, n: nat, i: nat, left: nat, p: seq<int>)
    requires i <= n && |p| == n - i
    requires IsSelection(p, left, |bank|)
    ensures IsSelection(p, 0, |bank|) && Value(bank, p) <= JoltageFrom(bank, n, i, left)
    decreases n - i
  {
    assert IsSelection(p, 0, |bank|);
    if i < n {
      SelectionRoom(p, left, |bank|);
      var e := n - i - 1;
      var m, next := Unfold(bank, n, i, left);
      var rest := JoltageFrom(bank, n, i + 1, next);
      WindowHead(bank, n, i, left, p[0]);
      var d := bank[p[0]];
      assert IsSelection(p[1..], 0, |bank|);
      var v := Value(bank, p[1..]);
      assert Value(bank, p) == Place(d, e) + v;
      if d < m {
        ValueBound(bank, p[1..]);
        assert |p[1..]| == e && v < Place(1, e);
        DigitLess(d, m, e, v);
      } else {
        SelectionTail(p, left, |bank|, next);
        GreedyUpper(bank, n, i + 1, next, p[1..]);
      }
    } else {
      assert Value(bank, p) == 0 && JoltageFrom(bank, n, i, left) == 0;
    }
  }

  /** A leading zero battery at left does not change the greedy result. */
  lemma {:induction false} SkipZero(bank: seq<Digit>, n: nat, i: nat, left: nat)
    requires i <= n && left < |bank| && left + (n - i) <= |bank| && bank[left] == 0
    ensures JoltageFrom(bank, n, i, left) == JoltageFrom(bank, n, i, left + 1)
    decreases n - i
  {
    if i < n {
      var hi := WindowEnd(|bank|, n, i);
      ScanSkipZero(bank, left, hi);
      var m, next := Unfold(bank, n, i, left);
      var m', next' := Unfold(bank, n, i, left + 1);
      if m == 0 {
        SkipZero(bank, n, i + 1, left);
      }
    }
  }

  /** Some selection of n - i batteries from left onwards reaches the greedy result. */
  lemma {:induction false} GreedyAttained(bank: seq<Digit>, n: nat, i: nat, left: nat) returns (p: seq<int>)
    requires i <= n && left + (n - i) <= |bank|
    ensures |p| == n - i && IsSelection(p, left, |bank|)
    ensures IsSelection(p, 0, |bank|) && Value(bank, p) == JoltageFrom(bank, n, i, left)
    decreases n - i
  {
    if i == n {
      p := [];
    } else {
      var hi := WindowEnd(|bank|, n, i);
      ScanMeaning(bank, left, hi);
      var m, next := Unfold(bank, n, i, left);
      var rest := JoltageFrom(bank, n, i + 1, next);
      var x, p';
      if m > 0 {
        x := next - 1;
        p' := GreedyAttained(bank, n, i + 1, next);
      } else {
        assert bank[left] == 0;
        SkipZero(bank, n, i + 1, left);
        x := left;
        p' := GreedyAttained(bank, n, i + 1, left + 1);
      }
      assert bank[x] == m && Value(bank, p') == rest;
      p := [x] + p';
      SelectionCons(x, p', left, |bank|);
      ValueCons(bank, x, p');
    }
  }

  /** A position in front of a selection that starts after it extends the selection. */
  lemma SelectionCons(x: int, p: seq<int>, lo: nat, hi: int)
    requires lo <= x < hi && IsSelection(p, x + 1, hi)
    ensures IsSelection([x] + p, lo, hi) && IsSelection([x] + p, 0, hi)
  {
    assert forall k :: 0 <= k < |p| ==> ([x] + p)[k + 1] == p[k];
  }

  lemma ValueCons(bank: seq<Digit>, x: int, p: seq<int>)
    requires 0 <= x < |bank| && IsSelection([x] + p, 0, |bank|)
    ensures IsSelection(p, 0, |bank|)
    ensures Value(bank, [x] + p) == Place(bank[x], |p|) + Value(bank, p)
  {
    assert ([x] + p)[1..] == p;
  }

  /** The joltage is the largest number spelled by n batteries kept in order. */
  lemma JoltageIsOptimal(bank: seq<Digit>, n: nat)
    requires n <= |bank|
    ensures forall p :: |p| == n && IsSelection(p, 0, |bank|) ==> Value(bank, p) <= Joltage(bank, n)
    ensures exists p :: |p| == n && IsSelection(p, 0, |bank|) && Value(bank, p) == Joltage(bank, n)
  {
    forall p | |p| == n && IsSelection(p, 0, |bank|)
      ensures Value(bank, p) <= Joltage(bank, n)
    {
      GreedyUpper(bank, n, 0, 0, p);
    }
    var p := GreedyAttained(bank, n, 0, 0);
  }

  // ---------------------------------------------------------------------------
  // task_1 / task_2

  predicate AllBanks(banks: seq<string>) {
    forall k :: 0 <= k < |banks| ==> AllDigits(banks[k])
  }

  /** `sum(get_joltage(bank, n) for bank in banks)` */
  function TotalJoltage(banks: seq<string>, n: nat): nat
    requires AllBanks(banks)
  {
    if banks == [] then 0
    else TotalJoltage(banks[..|banks| - 1], n) + Joltage(Digits(banks[|banks| - 1]), n)
  }

  /** Each bank adds less than 10^n, so k banks add at most k * (10^n - 1). */
  lemma {:induction false} TotalJoltageBound(banks: seq<string>, n: nat)
    requires AllBanks(banks)
    ensures TotalJoltage(banks, n) + |banks| <= Place(|banks|, n)
    decreases |banks|
  {
    if banks != [] {
      var init := banks[..|banks| - 1];
      assert AllBanks(init) by {
        forall k | 0 <= k < |init| ensures AllDigits(init[k]) {
          assert init[k] == banks[k];
        }
      }
      TotalJoltageBound(init, n);
      JoltageFromBound(Digits(banks[|banks| - 1]), n, 0, 0);
      PlaceAdd(|init|, 1, n);
    }
  }

  /** The generator summed left to right. */
  method SumJoltages(banks: seq<string>, n: nat) returns (total: nat)
    requires AllBanks(banks)
    ensures total == TotalJoltage(banks, n)
  {
    total := 0;
    for k := 0 to |banks|
      invariant AllBanks(banks[..k]) && total == TotalJoltage(banks[..k], n)
    {
      assert banks[..k + 1][..k] == banks[..k];
      var j := GetJoltage(banks[k], n);
      total := total + j;
    }
    assert banks[..|banks|] == banks;
  }

  /** task_1 picks two batteries per bank. */
  method Task1(banks: seq<string>) returns (total: nat)
    requires AllBanks(banks)
    ensures total == TotalJoltage(banks, 2)
  {
    total := SumJoltages(banks, 2);
  }

  /** task_2 picks twelve. */
  method Task2(banks: seq<string>) returns (total: nat)
    requires AllBanks(banks)
    ensures total == TotalJoltage(banks, 12)
  {
    total := SumJoltages(banks, 12);
  }
}
