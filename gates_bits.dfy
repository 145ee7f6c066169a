/** Wire names of the 2024/day_24 adder network and the numbers they carry. */
module GateBits {
  import opened Basics

  /** `format!("{p}{:02}", i)`: the name of bit i of operand p, zero-padded to two digits. */
  function BitName(p: char, i: nat): (name: string)
    ensures |name| >= 3 && name[0] == p
  {
    [p] + (if i < 10 then ['0', DigitChar(i)] else Decimal(i))
  }

  lemma BitNameInjective(p: char, i: nat, j: nat)
    requires BitName(p, i) == BitName(p, j)
    ensures i == j
  {
    var a, b := BitName(p, i)[1..], BitName(p, j)[1..];
    if i < 10 && j < 10 {
      assert a[1] == DigitChar(i) && b[1] == DigitChar(j);
    } else if i >= 10 && j >= 10 {
      assert a == Decimal(i) && b == Decimal(j);
      DecimalInjective(i, j);
    }
  }

  /** The first n bit names of p are n different strings. */
  lemma {:induction false} BitNamesCount(p: char, n: nat, keys: set<string>)
    requires forall j :: 0 <= j < n ==> BitName(p, j) in keys
    ensures n <= |keys|
  {
    var names := set j | 0 <= j < n :: BitName(p, j);
    BitNameSetSize(p, n);
    assert names <= keys;
    SubsetCardinality(names, keys);
  }

  lemma {:induction false} BitNameSetSize(p: char, n: nat)
    ensures |set j | 0 <= j < n :: BitName(p, j)| == n
  {
    if n > 0 {
      BitNameSetSize(p, n - 1);
      var smaller := set j | 0 <= j < n - 1 :: BitName(p, j);
      assert (set j | 0 <= j < n :: BitName(p, j)) == smaller + {BitName(p, n - 1)};
      if BitName(p, n - 1) in smaller {
        var j :| 0 <= j < n - 1 && BitName(p, j) == BitName(p, n - 1);
        BitNameInjective(p, j, n - 1);
      }
    }
  }

  lemma SubsetCardinality<T>(a: set<T>, b: set<T>)
    requires a <= b
    ensures |a| <= |b|
  {
    assert b == a + (b - a);
  }

  /** The number whose binary digits, least significant first, are `bits`. */
  function BinaryValue(bits: seq<bool>): (n: nat)
    ensures n < Pow(2, |bits|)
  {
    if bits == [] then 0
    else
      var rest := BinaryValue(bits[..|bits| - 1]);
      rest + (if bits[|bits| - 1] then Pow(2, |bits| - 1) else 0)
  }

  /** `(1 << idx) * bit`: the weight of a set bit at position idx. */
  function ShiftedBit(bit: nat, idx: nat): (r: nat)
    requires bit <= 1
    ensures r == if bit == 1 then Pow(2, idx) else 0
  {
    Pow(2, idx) * bit
  }

  /** The weight 2^n of a set bit above position i, as an even multiple of 2^i. */
  lemma HigherWeight(i: nat, n: nat, bit: bool) returns (c: nat)
    requires i < n
    ensures c % 2 == 0 && c * Pow(2, i) == if bit then Pow(2, n) else 0
  {
    var p, e := Pow(2, i), Pow(2, n - i);
    PowAdd(2, i, n - i);
    assert i + (n - i) == n;
    assert e % 2 == 0 by {
      assert e == 2 * Pow(2, n - i - 1);
    }
    c := if bit then e else 0;
    assert p * e == e * p;
  }

  /** Reading the binary digits back: bit i of the value is bits[i]. */
  lemma {:induction false} BinaryValueBits(bits: seq<bool>, i: nat)
    requires i < |bits|
    ensures Bit(BinaryValue(bits), i) == bits[i]
  {
    var n := |bits| - 1;
    var rest := BinaryValue(bits[..n]);
    var p := Pow(2, i);
    if i < n {
      BinaryValueBits(bits[..n], i);
      var c := HigherWeight(i, n, bits[n]);
      assert BinaryValue(bits) == rest + c * p;
      DivAddEven(rest, p, c);
    } else {
      var c := if bits[n] then 1 else 0;
      assert BinaryValue(bits) == c * p + rest;
      DivModUnique(BinaryValue(bits), p, c, rest);
    }
  }
}
