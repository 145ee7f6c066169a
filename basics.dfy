/** Small vocabulary shared by the puzzle models: optional values, powers,
    decimal digit strings, sums, lexicographic order and sorting. */
module Basics {

  datatype Option<T> = None | Some(value: T) {
    function GetOr(default: T): T {
      match this
      case Some(v) => v
      case None => default
    }
  }

  function Pow(b: nat, e: nat): (r: nat)
    ensures b >= 1 ==> r >= 1
    ensures b >= 2 ==> r > e
  {
    if e == 0 then 1 else b * Pow(b, e - 1)
  }

  lemma {:induction false} PowAdd(b: nat, e1: nat, e2: nat)
    ensures Pow(b, e1 + e2) == Pow(b, e1) * Pow(b, e2)
  {
    if e1 > 0 {
      PowAdd(b, e1 - 1, e2);
      var x, y := Pow(b, e1 - 1), Pow(b, e2);
      assert Pow(b, e1 + e2) == b * Pow(b, e1 - 1 + e2);
      MulAssociative(b, x, y);
    }
  }

  lemma PowDouble(b: nat, k: nat)
    ensures Pow(b, k + k) == Pow(b, k) * Pow(b, k)
  {
    PowAdd(b, k, k);
  }

  lemma MulAssociative(a: int, b: int, c: int)
    ensures a * (b * c) == (a * b) * c
  {
  }

  lemma {:induction false} PowMonotone(b: nat, e1: nat, e2: nat)
    requires b >= 1 && e1 <= e2
    ensures Pow(b, e1) <= Pow(b, e2)
  {
    if e1 < e2 {
      PowMonotone(b, e1, e2 - 1);
      assert Pow(b, e2) == b * Pow(b, e2 - 1);
      MulMono(1, b, Pow(b, e2 - 1));
    }
  }

  // ---------------------------------------------------------------------------
  // Division, remainders and bits

  lemma MulMono(a: int, b: int, d: int)
    requires a <= b && d >= 0
    ensures a * d <= b * d
  {
    assert b * d - a * d == (b - a) * d;
  }

  /** Euclidean division is determined by its defining equation. */
  lemma DivModUnique(n: int, d: int, q: int, r: int)
    requires d > 0 && n == q * d + r && 0 <= r < d
    ensures n / d == q && n % d == r
  {
    var q', r' := n / d, n % d;
    assert n == q' * d + r';
    if q' < q {
      MulMono(q' + 1, q, d);
      assert false;
    } else if q < q' {
      MulMono(q + 1, q', d);
      assert false;
    }
  }

  /** Adding an even multiple of p does not change the parity of the quotient by p. */
  lemma DivAddEven(a: nat, p: nat, m: nat)
    requires p > 0 && m % 2 == 0
    ensures ((a + m * p) / p) % 2 == (a / p) % 2
  {
    var q := a / p;
    assert a + m * p == (q + m) * p + a % p;
    DivModUnique(a + m * p, p, q + m, a % p);
    assert q + m == (q / 2 + m / 2) * 2 + q % 2;
    DivModUnique(q + m, 2, q / 2 + m / 2, q % 2);
  }

  /** Bit i of n, i.e. `n & (1 << i) != 0`. */
  predicate Bit(n: nat, i: nat) {
    (n / Pow(2, i)) % 2 == 1
  }

  /** Splitting q*p by the parity of q. */
  lemma HalveProduct(q: nat, p: nat)
    ensures q * p == (q / 2) * (2 * p) + (q % 2) * p
  {
    var h, b := q / 2, q % 2;
    assert q == h * 2 + b;
    assert q * p == (h * 2 + b) * p;
    assert (h * 2 + b) * p == h * (2 * p) + b * p;
  }

  /** n mod 2^(i+1) is n mod 2^i plus bit i of n. */
  lemma ModPowStep(n: nat, i: nat)
    ensures n % Pow(2, i + 1) == n % Pow(2, i) + (if Bit(n, i) then Pow(2, i) else 0)
  {
    var p := Pow(2, i);
    var q, r := n / p, n % p;
    var b := q % 2;
    HalveProduct(q, p);
    assert n == (q / 2) * (2 * p) + (b * p + r);
    assert b * p + r < 2 * p by { MulMono(b, 1, p); }
    DivModUnique(n, 2 * p, q / 2, b * p + r);
  }

  /** Numbers that agree on their low k bits agree modulo 2^k. */
  lemma {:induction false} EqualFromBits(t: nat, a: nat, k: nat)
    requires forall j :: 0 <= j < k ==> Bit(t, j) == Bit(a, j)
    ensures t % Pow(2, k) == a % Pow(2, k)
  {
    if k > 0 {
      EqualFromBits(t, a, k - 1);
      ModPowStep(t, k - 1);
      ModPowStep(a, k - 1);
    }
  }

  // ---------------------------------------------------------------------------
  // Decimal digits

  predicate IsDigit(c: char) {
    '0' <= c <= '9'
  }

  predicate AllDigits(s: string) {
    forall i :: 0 <= i < |s| ==> IsDigit(s[i])
  }

  function DigitValue(c: char): (d: nat)
    requires IsDigit(c)
    ensures d < 10
  {
    (c as int - '0' as int) as nat
  }

  function DigitChar(d: nat): (c: char)
    requires d < 10
    ensures IsDigit(c) && DigitValue(c) == d
  {
    ('0' as int + d) as char
  }

  /** The number a string of decimal digits denotes, most significant first
      (what `int(s)` in Python and `std::stoi` in C++ compute for such a string). */
  function DecimalValue(s: string): (n: nat)
    requires AllDigits(s)
    ensures n < Pow(10, |s|)
  {
    if s == [] then 0
    else
      var p := DecimalValue(s[..|s| - 1]);
      assert p + 1 <= Pow(10, |s| - 1);
      p * 10 + DigitValue(s[|s| - 1])
  }

  /** `int(s)` for a non-empty run of decimal digits, None for anything else. */
  function ParseNat(s: string): (r: Option<nat>)
    ensures r.Some? <==> s != [] && AllDigits(s)
    ensures r.Some? ==> r.value == DecimalValue(s)
  {
    if s != [] && AllDigits(s) then Some(DecimalValue(s)) else None
  }

  /** The digits of Rust's `parse` for an unsigned type, which accepts one
      leading '+'. */
  function UnsignedDigits(s: string): (d: string)
    ensures s != [] && s[0] == '+' ==> s == "+" + d
    ensures s == [] || s[0] != '+' ==> d == s
  {
    if s != [] && s[0] == '+' then s[1..] else s
  }

  /** The decimal representation of n without leading zeros (`str(n)`). */
  function Decimal(n: nat): (s: string)
    ensures |s| >= 1 && AllDigits(s)
    ensures (s[0] == '0') == (n == 0)
    decreases n
  {
    if n < 10 then [DigitChar(n)] else Decimal(n / 10) + [DigitChar(n % 10)]
  }

  lemma {:induction false} DecimalRoundTrip(n: nat)
    ensures DecimalValue(Decimal(n)) == n
    decreases n
  {
    if n >= 10 {
      DecimalRoundTrip(n / 10);
      var s := Decimal(n);
      assert s[..|s| - 1] == Decimal(n / 10);
    }
  }

  lemma DecimalInjective(m: nat, n: nat)
    requires Decimal(m) == Decimal(n)
    ensures m == n
  {
    DecimalRoundTrip(m);
    DecimalRoundTrip(n);
  }

  lemma AllDigitsAppend(a: string, b: string)
    requires AllDigits(a) && AllDigits(b)
    ensures AllDigits(a + b)
  {
    var s := a + b;
    forall i | 0 <= i < |s| ensures IsDigit(s[i]) {
      if i < |a| { assert s[i] == a[i]; } else { assert s[i] == b[i - |a|]; }
    }
  }

  /** The digits of a + b read as a number: a shifted past b's digits, plus b. */
  lemma {:induction false} DecimalValueAppend(a: string, b: string)
    requires AllDigits(a) && AllDigits(b)
    ensures AllDigits(a + b)
    ensures DecimalValue(a + b) == DecimalValue(a) * Pow(10, |b|) + DecimalValue(b)
    decreases |b|
  {
    AllDigitsAppend(a, b);
    if b == [] {
      assert a + b == a;
    } else {
      var b' := b[..|b| - 1];
      assert AllDigits(b');
      assert (a + b)[..|a + b| - 1] == a + b' && (a + b)[|a + b| - 1] == b[|b| - 1];
      DecimalValueAppend(a, b');
      var x, p, v, d := DecimalValue(a), Pow(10, |b'|), DecimalValue(b'), DigitValue(b[|b| - 1]);
      assert DecimalValue(a + b) == DecimalValue(a + b') * 10 + d;
      assert DecimalValue(b) == v * 10 + d;
      ShiftDigit(x, p, v, d);
    }
  }

  lemma ShiftDigit(x: int, p: int, v: int, d: int)
    ensures (x * p + v) * 10 + d == x * (10 * p) + (v * 10 + d)
  {
    MulAssociative(x, p, 10);
  }

  /** The number of decimal digits of n, i.e. `len(str(n))`. */
  function NumDigits(n: nat): (d: nat)
    ensures d == |Decimal(n)|
    ensures d >= 1
    decreases n
  {
    if n < 10 then 1 else NumDigits(n / 10) + 1
  }

  lemma {:induction false} NumDigitsBounds(n: nat)
    ensures n < Pow(10, NumDigits(n))
    ensures NumDigits(n) >= 2 ==> Pow(10, NumDigits(n) - 1) <= n
    decreases n
  {
    if n >= 10 {
      var q := n / 10;
      NumDigitsBounds(q);
      var d := NumDigits(q);
      assert NumDigits(n) == d + 1;
      var lo := Pow(10, d - 1);
      assert lo <= q by {
        if d < 2 { assert d - 1 == 0; }
      }
      assert Pow(10, d) == 10 * lo;
      assert Pow(10, d + 1) == 10 * Pow(10, d);
      ScaleByTen(n, q, lo, Pow(10, d));
    }
  }

  /** With q = n / 10: lo <= q < hi gives 10 lo <= n < 10 hi. */
  lemma ScaleByTen(n: nat, q: nat, lo: nat, hi: nat)
    requires q == n / 10 && lo <= q < hi
    ensures 10 * lo <= n < 10 * hi
  {
    assert n < (q + 1) * 10 && q * 10 <= n;
    MulMono(q + 1, hi, 10);
    MulMono(lo, q, 10);
    assert lo * 10 == 10 * lo && hi * 10 == 10 * hi;
  }

  // ---------------------------------------------------------------------------
  // Sums and counts

  function Sum(s: seq<int>): int {
    if s == [] then 0 else Sum(s[..|s| - 1]) + s[|s| - 1]
  }

  lemma {:induction false} SumAppend(s: seq<int>, t: seq<int>)
    ensures Sum(s + t) == Sum(s) + Sum(t)
    decreases |t|
  {
    if t == [] {
      assert s + t == s;
    } else {
      assert (s + t)[..|s + t| - 1] == s + t[..|t| - 1];
      SumAppend(s, t[..|t| - 1]);
    }
  }

  function Count<T(==)>(s: seq<T>, x: T): (n: nat)
    ensures n <= |s|
  {
    if s == [] then 0 else Count(s[..|s| - 1], x) + (if s[|s| - 1] == x then 1 else 0)
  }

  lemma {:induction false} CountIsMultiplicity<T>(s: seq<T>, x: T)
    ensures Count(s, x) == multiset(s)[x]
    decreases |s|
  {
    if s != [] {
      CountIsMultiplicity(s[..|s| - 1], x);
      assert s == s[..|s| - 1] + [s[|s| - 1]];
    }
  }

  // ---------------------------------------------------------------------------
  // Sorting integers ascending (the contract of Python's `list.sort()`)

  predicate SortedInts(s: seq<int>) {
    forall i, j :: 0 <= i < j < |s| ==> s[i] <= s[j]
  }

  /** Putting below a sorted sequence a value no larger than any of its elements keeps it sorted. */
  lemma SortedIntsCons(x: int, t: seq<int>)
    requires SortedInts(t) && forall k :: 0 <= k < |t| ==> x <= t[k]
    ensures SortedInts([x] + t)
  {
    var r := [x] + t;
    forall i, j | 0 <= i < j < |r| ensures r[i] <= r[j] {
      assert r[j] == t[j - 1];
      if i > 0 { assert r[i] == t[i - 1]; }
    }
  }

  /** Every element of a sequence with the multiset of a and the elements of s is a or in s. */
  lemma MultisetBound(a: int, s: seq<int>, t: seq<int>, lo: int)
    requires multiset(t) == multiset(s) + multiset{a}
    requires lo <= a && forall k :: 0 <= k < |s| ==> lo <= s[k]
    ensures forall k :: 0 <= k < |t| ==> lo <= t[k]
  {
    forall k | 0 <= k < |t| ensures lo <= t[k] {
      assert t[k] in multiset(t);
      if t[k] != a {
        assert t[k] in multiset(s);
      }
    }
  }

  function InsertInt(x: int, s: seq<int>): (r: seq<int>)
    requires SortedInts(s)
    ensures SortedInts(r) && multiset(r) == multiset(s) + multiset{x}
  {
    if s == [] || x <= s[0] then
      SortedIntsCons(x, s);
      [x] + s
    else
      var t := InsertInt(x, s[1..]);
      assert s == [s[0]] + s[1..];
      MultisetBound(x, s[1..], t, s[0]);
      SortedIntsCons(s[0], t);
      [s[0]] + t
  }

  function SortInts(s: seq<int>): (r: seq<int>)
    ensures SortedInts(r) && multiset(r) == multiset(s)
  {
    if s == [] then []
    else
      assert s == [s[0]] + s[1..];
      InsertInt(s[0], SortInts(s[1..]))
  }

  /** The least element of a non-empty sorted sequence is its first. */
  lemma SortedHead(s: seq<int>, t: seq<int>)
    requires SortedInts(s) && SortedInts(t) && multiset(s) == multiset(t) && s != []
    ensures t != [] && s[0] == t[0]
  {
    assert s[0] in multiset(t);
    var i :| 0 <= i < |t| && t[i] == s[0];
    assert t[0] in multiset(s);
    var j :| 0 <= j < |s| && s[j] == t[0];
    assert t[0] <= t[i] && s[0] <= s[j];
  }

  lemma MultisetTail<T>(s: seq<T>, t: seq<T>)
    requires s != [] && t != [] && s[0] == t[0] && multiset(s) == multiset(t)
    ensures multiset(s[1..]) == multiset(t[1..])
  {
    assert s == [s[0]] + s[1..] && t == [t[0]] + t[1..];
    assert multiset(s[1..]) == multiset(s) - multiset{s[0]};
    assert multiset(t[1..]) == multiset(t) - multiset{t[0]};
  }

  /** Two sorted sequences with the same elements are equal: the sorted order is unique. */
  lemma {:induction false} SortedUnique(s: seq<int>, t: seq<int>)
    requires SortedInts(s) && SortedInts(t) && multiset(s) == multiset(t)
    ensures s == t
    decreases |s|
  {
    if s == [] {
      assert |t| == |multiset(t)| == 0;
    } else {
      SortedHead(s, t);
      MultisetTail(s, t);
      assert s == [s[0]] + s[1..] && t == [t[0]] + t[1..];
      SortedUnique(s[1..], t[1..]);
    }
  }

  // ---------------------------------------------------------------------------
  // Set sizes

  /** A subset is no larger, and one as large is the whole set. */
  lemma {:induction false} SubsetCard<T>(a: set<T>, b: set<T>)
    requires a <= b
    ensures |a| <= |b|
    ensures |a| == |b| ==> a == b
    decreases |b|
  {
    if a != {} {
      var x :| x in a;
      SubsetCard(a - {x}, b - {x});
      assert a == (a - {x}) + {x} && b == (b - {x}) + {x};
    } else if b != {} {
      var y :| y in b;
      assert |b| >= |{y}| == 1;
    }
  }

  // ---------------------------------------------------------------------------
  // Lexicographic order on strings (Rust's `String` ordering, Python's `str` ordering)

  predicate StrLe(a: string, b: string)
    decreases |a|
  {
    a == [] || (b != [] && (a[0] < b[0] || (a[0] == b[0] && StrLe(a[1..], b[1..]))))
  }

  lemma {:induction false} StrLeTotal(a: string, b: string)
    ensures StrLe(a, b) || StrLe(b, a)
    decreases |a|
  {
    if a != [] && b != [] && a[0] == b[0] {
      StrLeTotal(a[1..], b[1..]);
    }
  }

  lemma {:induction false} StrLeTransitive(a: string, b: string, c: string)
    requires StrLe(a, b) && StrLe(b, c)
    ensures StrLe(a, c)
    decreases |a|
  {
    if a != [] && a[0] == b[0] && b[0] == c[0] {
      StrLeTransitive(a[1..], b[1..], c[1..]);
    }
  }

  lemma {:induction false} StrLeAntisymmetric(a: string, b: string)
    requires StrLe(a, b) && StrLe(b, a)
    ensures a == b
    decreases |a|
  {
    if a != [] {
      StrLeAntisymmetric(a[1..], b[1..]);
      assert a == [a[0]] + a[1..] && b == [b[0]] + b[1..];
    }
  }

  predicate SortedStrings(s: seq<string>) {
    forall i, j :: 0 <= i < j < |s| ==> StrLe(s[i], s[j])
  }

  lemma SortedStringsCons(x: string, t: seq<string>)
    requires SortedStrings(t) && forall k :: 0 <= k < |t| ==> StrLe(x, t[k])
    ensures SortedStrings([x] + t)
  {
    var r := [x] + t;
    forall i, j | 0 <= i < j < |r| ensures StrLe(r[i], r[j]) {
      assert r[j] == t[j - 1];
      if i > 0 { assert r[i] == t[i - 1]; }
    }
  }

  lemma StringsBound(a: string, s: seq<string>, t: seq<string>, lo: string)
    requires multiset(t) == multiset(s) + multiset{a}
    requires StrLe(lo, a) && forall k :: 0 <= k < |s| ==> StrLe(lo, s[k])
    ensures forall k :: 0 <= k < |t| ==> StrLe(lo, t[k])
  {
    forall k | 0 <= k < |t| ensures StrLe(lo, t[k]) {
      assert t[k] in multiset(t);
      if t[k] != a {
        assert t[k] in multiset(s);
      }
    }
  }

  function InsertString(x: string, s: seq<string>): (r: seq<string>)
    requires SortedStrings(s)
    ensures SortedStrings(r) && multiset(r) == multiset(s) + multiset{x}
  {
    if s == [] || StrLe(x, s[0]) then
      assert forall k :: 0 <= k < |s| ==> StrLe(x, s[k]) by {
        forall k | 0 <= k < |s| ensures StrLe(x, s[k]) {
          if k > 0 { StrLeTransitive(x, s[0], s[k]); }
        }
      }
      SortedStringsCons(x, s);
      [x] + s
    else
      StrLeTotal(x, s[0]);
      var t := InsertString(x, s[1..]);
      assert s == [s[0]] + s[1..];
      StringsBound(x, s[1..], t, s[0]);
      SortedStringsCons(s[0], t);
      [s[0]] + t
  }

  function SortStrings(s: seq<string>): (r: seq<string>)
    ensures SortedStrings(r) && multiset(r) == multiset(s)
  {
    if s == [] then []
    else
      assert s == [s[0]] + s[1..];
      InsertString(s[0], SortStrings(s[1..]))
  }

  /** A sequence of strings each at most the next is sorted. */
  lemma {:induction false} SortedStringsFromAdjacent(s: seq<string>)
    requires forall i :: 0 <= i < |s| - 1 ==> StrLe(s[i], s[i + 1])
    ensures SortedStrings(s)
    decreases |s|
  {
    if |s| > 1 {
      var t := s[1..];
      SortedStringsFromAdjacent(t);
      forall k | 0 <= k < |t| ensures StrLe(s[0], t[k]) {
        if k > 0 {
          StrLeTransitive(s[0], s[1], t[k]);
        }
      }
      SortedStringsCons(s[0], t);
      assert s == [s[0]] + t;
    }
  }

  lemma SortedStringsHead(s: seq<string>, t: seq<string>)
    requires SortedStrings(s) && SortedStrings(t) && multiset(s) == multiset(t) && s != []
    ensures t != [] && s[0] == t[0]
  {
    assert s[0] in multiset(t);
    var i :| 0 <= i < |t| && t[i] == s[0];
    assert t[0] in multiset(s);
    var j :| 0 <= j < |s| && s[j] == t[0];
    assert StrLe(t[0], t[i]) || i == 0;
    assert StrLe(s[0], s[j]) || j == 0;
    if i != 0 && j != 0 {
      StrLeAntisymmetric(s[0], t[0]);
    }
  }

  /** Two sorted sequences of strings with the same elements are equal. */
  lemma {:induction false} SortedStringsUnique(s: seq<string>, t: seq<string>)
    requires SortedStrings(s) && SortedStrings(t) && multiset(s) == multiset(t)
    ensures s == t
    decreases |s|
  {
    if s == [] {
      assert |t| == |multiset(t)| == 0;
    } else {
      SortedStringsHead(s, t);
      MultisetTail(s, t);
      assert s == [s[0]] + s[1..] && t == [t[0]] + t[1..];
      SortedStringsUnique(s[1..], t[1..]);
    }
  }

  /** `sep.join(parts)` */
  function Join(parts: seq<string>, sep: string): string {
    if parts == [] then []
    else if |parts| == 1 then parts[0]
    else parts[0] + sep + Join(parts[1..], sep)
  }
  // ---------------------------------------------------------------------------
  // Whitespace splitting (Python's `str.split()` without arguments)

  /** Python's whitespace (`str.isspace`): the ASCII controls '\t' to '\r',
      the separators U+001C to U+001F, the space, U+0085, and the Unicode
      spaces and line and paragraph separators. */
  predicate IsSpace(c: char) {
    || '\t' <= c <= '\r' || '\U{1C}' <= c <= ' ' || c == '\U{85}' || c == '\U{A0}'
    || c == '\U{1680}' || '\U{2000}' <= c <= '\U{200A}' || c == '\U{2028}' || c == '\U{2029}'
    || c == '\U{202F}' || c == '\U{205F}' || c == '\U{3000}'
  }

  /** A non-empty run of non-whitespace characters. */
  predicate IsWord(t: string) {
    t != [] && forall i :: 0 <= i < |t| ==> !IsSpace(t[i])
  }

  /** The longest prefix of s without whitespace. */
  function LeadingWord(s: string): (w: string)
    ensures |w| <= |s| && w == s[..|w|]
    ensures forall i :: 0 <= i < |w| ==> !IsSpace(w[i])
    ensures |w| < |s| ==> IsSpace(s[|w|])
  {
    if s == [] || IsSpace(s[0]) then [] else [s[0]] + LeadingWord(s[1..])
  }

  function Split(s: string): (ts: seq<string>)
    ensures forall k :: 0 <= k < |ts| ==> IsWord(ts[k])
    decreases |s|
  {
    if s == [] then []
    else if IsSpace(s[0]) then Split(s[1..])
    else
      var w := LeadingWord(s);
      [w] + Split(s[|w|..])
  }

  lemma {:induction false} LeadingWordOf(w: string, rest: string)
    requires IsWord(w) || w == []
    requires rest == [] || IsSpace(rest[0])
    ensures LeadingWord(w + rest) == w
    decreases |w|
  {
    if w == [] {
      assert w + rest == rest;
    } else {
      assert (w + rest)[1..] == w[1..] + rest;
      LeadingWordOf(w[1..], rest);
    }
  }

  /** A word followed by whitespace (or nothing) is split off as the first token. */
  lemma SplitWord(w: string, rest: string)
    requires IsWord(w)
    requires rest == [] || IsSpace(rest[0])
    ensures Split(w + rest) == [w] + Split(rest)
  {
    LeadingWordOf(w, rest);
    assert (w + rest)[|w|..] == rest;
  }

  lemma DecimalIsWord(n: nat)
    ensures IsWord(Decimal(n))
  {
    var s := Decimal(n);
    forall i | 0 <= i < |s| ensures !IsSpace(s[i]) {
      assert IsDigit(s[i]);
    }
  }

  /** Splitting words joined by single spaces gives the words back. */
  lemma {:induction false} SplitJoin(ts: seq<string>)
    requires forall k :: 0 <= k < |ts| ==> IsWord(ts[k])
    ensures Split(Join(ts, " ")) == ts
    decreases |ts|
  {
    if |ts| == 1 {
      SplitWord(ts[0], []);
      assert ts[0] + [] == ts[0];
    } else if |ts| > 1 {
      var rest := Join(ts[1..], " ");
      assert Join(ts, " ") == ts[0] + (" " + rest);
      SplitWord(ts[0], " " + rest);
      assert (" " + rest)[1..] == rest;
      SplitJoin(ts[1..]);
      assert ts == [ts[0]] + ts[1..];
    }
  }

  // ---------------------------------------------------------------------------
  // Splitting on one separator character (`s.split(c)`) and trimming

  /** `s.split(c)`: the fields between occurrences of c, always at least one. */
  function SplitOn(s: string, c: char): (r: seq<string>)
    ensures |r| >= 1
    ensures forall k :: 0 <= k < |r| ==> c !in r[k]
  {
    if s == [] then [[]]
    else
      var rest := SplitOn(s[1..], c);
      if s[0] == c then [[]] + rest
      else [[s[0]] + rest[0]] + rest[1..]
  }

  lemma JoinCons(x: char, parts: seq<string>, sep: string)
    requires |parts| >= 1
    ensures Join([[x] + parts[0]] + parts[1..], sep) == [x] + Join(parts, sep)
  {
    var q := [[x] + parts[0]] + parts[1..];
    assert q[1..] == parts[1..];
  }

  /** Joining the fields with the separator gives the string back. */
  lemma {:induction false} JoinSplitOn(s: string, c: char)
    ensures Join(SplitOn(s, c), [c]) == s
    decreases |s|
  {
    if s != [] {
      var rest := SplitOn(s[1..], c);
      JoinSplitOn(s[1..], c);
      if s[0] == c {
        var q := [[]] + rest;
        assert q[1..] == rest;
        assert Join(q, [c]) == [] + [c] + Join(rest, [c]);
      } else {
        JoinCons(s[0], rest, [c]);
      }
      assert s == [s[0]] + s[1..];
    }
  }

  /** A field without the separator runs on into the first field of what follows. */
  lemma {:induction false} SplitOnPrefix(w: string, t: string, c: char)
    requires c !in w
    ensures SplitOn(w + t, c) == [w + SplitOn(t, c)[0]] + SplitOn(t, c)[1..]
    decreases |w|
  {
    if w == [] {
      var tf := SplitOn(t, c);
      assert w + t == t && w + tf[0] == tf[0];
      assert tf == [tf[0]] + tf[1..];
    } else {
      var tf := SplitOn(t, c);
      assert (w + t)[1..] == w[1..] + t;
      assert (w + t)[0] == w[0] && w[0] != c;
      SplitOnPrefix(w[1..], t, c);
      var r := SplitOn(w[1..] + t, c);
      assert r[0] == w[1..] + tf[0] && r[1..] == tf[1..];
      assert SplitOn(w + t, c) == [[w[0]] + r[0]] + r[1..];
      assert [w[0]] + (w[1..] + tf[0]) == w + tf[0];
    }
  }

  /** A character in neither the parts nor the separator is not in their join. */
  lemma {:induction false} JoinExcludes(parts: seq<string>, sep: string, c: char)
    requires c !in sep && forall k :: 0 <= k < |parts| ==> c !in parts[k]
    ensures c !in Join(parts, sep)
    decreases |parts|
  {
    if |parts| > 1 {
      JoinExcludes(parts[1..], sep, c);
    }
  }

  /** There is one field more than there are separators. */
  lemma {:induction false} SplitOnCount(s: string, c: char)
    ensures |SplitOn(s, c)| == Count(s, c) + 1
  {
    SplitOnFields(s, c);
    CountIsMultiplicity(s, c);
  }

  lemma {:induction false} SplitOnFields(s: string, c: char)
    ensures |SplitOn(s, c)| == multiset(s)[c] + 1
    decreases |s|
  {
    if s != [] {
      SplitOnFields(s[1..], c);
      assert s == [s[0]] + s[1..];
    }
  }

  /** Splitting fields joined by the separator gives the fields back. */
  lemma {:induction false} SplitOnJoin(parts: seq<string>, c: char)
    requires |parts| >= 1
    requires forall k :: 0 <= k < |parts| ==> c !in parts[k]
    ensures SplitOn(Join(parts, [c]), c) == parts
    decreases |parts|
  {
    if |parts| == 1 {
      SplitOnPrefix(parts[0], [], c);
      assert parts[0] + [] == parts[0];
    } else {
      var rest := Join(parts[1..], [c]);
      assert Join(parts, [c]) == parts[0] + ([c] + rest);
      SplitOnPrefix(parts[0], [c] + rest, c);
      assert ([c] + rest)[1..] == rest;
      SplitOnJoin(parts[1..], c);
      assert parts[0] + [] == parts[0];
      assert parts == [parts[0]] + parts[1..];
    }
  }

  /** `s.lstrip()`: drop the leading whitespace. */
  function TrimStart(s: string): (r: string)
    ensures |r| <= |s| && r == s[|s| - |r|..]
    ensures r == [] || !IsSpace(r[0])
    ensures forall i :: 0 <= i < |s| - |r| ==> IsSpace(s[i])
  {
    if s != [] && IsSpace(s[0]) then TrimStart(s[1..]) else s
  }

  /** `s.rstrip()`: drop the trailing whitespace. */
  function TrimEnd(s: string): (r: string)
    ensures |r| <= |s| && r == s[..|r|]
    ensures r == [] || !IsSpace(r[|r| - 1])
    ensures forall i :: |r| <= i < |s| ==> IsSpace(s[i])
  {
    if s != [] && IsSpace(s[|s| - 1]) then TrimEnd(s[..|s| - 1]) else s
  }

  /** `s.strip()` / `s.trim()`: no whitespace at either end, and nothing but
      whitespace removed. */
  function Trim(s: string): (r: string)
    ensures |r| <= |s|
    ensures r == [] || (!IsSpace(r[0]) && !IsSpace(r[|r| - 1]))
  {
    TrimEnd(TrimStart(s))
  }

  /** Trim takes a slice of s, and all it leaves out is whitespace. */
  lemma TrimSlice(s: string) returns (i: nat)
    ensures i + |Trim(s)| <= |s| && Trim(s) == s[i..i + |Trim(s)|]
    ensures forall k :: 0 <= k < |s| && !(i <= k < i + |Trim(s)|) ==> IsSpace(s[k])
  {
    var t := TrimStart(s);
    i := |s| - |t|;
    TrimEndTail(t, s, i);
  }

  /** What TrimEnd drops from the tail t = s[i..] is whitespace of s. */
  lemma TrimEndTail(t: string, s: string, i: nat)
    requires i <= |s| && t == s[i..]
    requires forall k :: 0 <= k < i ==> IsSpace(s[k])
    ensures i + |TrimEnd(t)| <= |s| && TrimEnd(t) == s[i..i + |TrimEnd(t)|]
    ensures forall k :: 0 <= k < |s| && !(i <= k < i + |TrimEnd(t)|) ==> IsSpace(s[k])
  {
    var r := TrimEnd(t);
    forall k | 0 <= k < |s| && !(i <= k < i + |r|) ensures IsSpace(s[k]) {
      if k >= i {
        assert s[k] == t[k - i];
      }
    }
  }

  /** A string without whitespace at its ends is left as it is. */
  lemma TrimTrimmed(s: string)
    requires s == [] || (!IsSpace(s[0]) && !IsSpace(s[|s| - 1]))
    ensures Trim(s) == s
  {
  }

  /** A digit is not whitespace. */
  lemma DigitNotSpace(c: char)
    requires IsDigit(c)
    ensures !IsSpace(c)
  {
  }

  /** A number written out in decimal, with or without a leading '+', has
      nothing to trim, and its unsigned digits are the decimal digits. */
  lemma UnsignedDecimal(n: nat)
    ensures UnsignedDigits(Trim(Decimal(n))) == Decimal(n)
    ensures UnsignedDigits(Trim("+" + Decimal(n))) == Decimal(n)
  {
    var d := Decimal(n);
    var p := "+" + d;
    DigitNotSpace(d[0]);
    DigitNotSpace(d[|d| - 1]);
    TrimTrimmed(d);
    assert p[|p| - 1] == d[|d| - 1] && p[0] == '+';
    TrimTrimmed(p);
    assert p[1..] == d;
  }

  lemma TrimIdempotent(s: string)
    ensures Trim(Trim(s)) == Trim(s)
  {
    TrimTrimmed(Trim(s));
  }

  // ---------------------------------------------------------------------------
  // Reading many values

  /** Every element read by f, or None when one of them cannot be read
      (reading a whole list, where one bad element fails the lot). */
  function ReadAll<A, B>(f: A -> Option<B>, xs: seq<A>): (r: Option<seq<B>>)
    ensures r.Some? <==> forall k :: 0 <= k < |xs| ==> f(xs[k]).Some?
    ensures r.Some? ==> |r.value| == |xs|
    ensures r.Some? ==> forall k :: 0 <= k < |xs| ==> f(xs[k]) == Some(r.value[k])
  {
    if xs == [] then Some([])
    else
      var y := f(xs[0]);
      var rest := ReadAll(f, xs[1..]);
      assert forall k :: 0 < k < |xs| ==> xs[k] == xs[1..][k - 1];
      if y.Some? && rest.Some? then Some([y.value] + rest.value) else None
  }

  /** The values read from a list are determined element by element. */
  lemma ReadAllValues<A, B>(f: A -> Option<B>, xs: seq<A>, v: seq<B>)
    requires |v| == |xs| && forall k :: 0 <= k < |xs| ==> f(xs[k]) == Some(v[k])
    ensures ReadAll(f, xs) == Some(v)
  {
    assert forall k :: 0 <= k < |xs| ==> f(xs[k]).Some?;
    var w := ReadAll(f, xs).value;
    assert forall k :: 0 <= k < |xs| ==> w[k] == v[k];
    assert w == v;
  }

  /** Reading a list is reading all but its last element, then the last. */
  lemma ReadAllLast<A, B>(f: A -> Option<B>, xs: seq<A>)
    requires xs != []
    ensures var init := ReadAll(f, xs[..|xs| - 1]);
      var y := f(xs[|xs| - 1]);
      ReadAll(f, xs) == if init.Some? && y.Some? then Some(init.value + [y.value]) else None
  {
    var init := xs[..|xs| - 1];
    var y := f(xs[|xs| - 1]);
    if ReadAll(f, init).Some? && y.Some? {
      var r := ReadAll(f, init).value + [y.value];
      forall k | 0 <= k < |xs|
        ensures f(xs[k]) == Some(r[k])
      {
        if k < |init| {
          assert xs[k] == init[k];
        }
      }
      ReadAllValues(f, xs, r);
    } else if ReadAll(f, init).None? {
      var k :| 0 <= k < |init| && f(init[k]).None?;
      assert xs[k] == init[k];
    }
  }

  /** Reading the first i + 1 elements: the first i, then element i. */
  lemma ReadAllPrefix<A, B>(f: A -> Option<B>, xs: seq<A>, i: nat, v: seq<B>)
    requires i < |xs| && ReadAll(f, xs[..i]) == Some(v)
    ensures f(xs[i]).Some? ==> ReadAll(f, xs[..i + 1]) == Some(v + [f(xs[i]).value])
    ensures f(xs[i]).None? ==> ReadAll(f, xs).None?
  {
    ReadAllLast(f, xs[..i + 1]);
    assert xs[..i + 1][..i] == xs[..i];
  }

  // ---------------------------------------------------------------------------
  // Sequence algebra, stated once for any element type

  lemma SplitFirst<T>(a: seq<T>, b: seq<T>, c: seq<T>)
    requires a != []
    ensures (a + b + c)[0] == a[0] && (a + b + c)[1..] == a[1..] + b + c
  {
  }

  lemma AppendAssoc<T>(a: seq<T>, b: seq<T>, c: seq<T>)
    ensures a + (b + c) == a + b + c
  {
  }

  lemma SplitHead<T>(a: seq<T>, b: seq<T>)
    requires a != []
    ensures (a + b)[0] == a[0] && (a + b)[1..] == a[1..] + b
  {
  }

  lemma EmptyAppend<T>(a: seq<T>)
    ensures [] + a == a
  {
  }

  lemma ConsParts<T>(x: T, xs: seq<T>)
    ensures ([x] + xs)[0] == x && ([x] + xs)[1..] == xs
  {
  }

  lemma Assoc5<T>(a: seq<T>, b: seq<T>, c: seq<T>, d: seq<T>, e: seq<T>)
    ensures a + b + c + d + e == a + b + (c + (d + e + []))
  {
  }
}
