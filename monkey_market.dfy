// Monkey market: every buyer's secret number evolves by a fixed mix of
// shifts and exclusive ors kept to 24 bits; the last decimal digit of each
// secret is a price, and a buyer sells the first time the last four price
// changes match the sequence the monkey was told (2024/day_22/src/main.rs).
//
// Secrets are Rust `u32`s, modelled as `bv32` so that `<<` drops the bits
// shifted out exactly as the program's shifts do.

module MonkeyMarket {
  import opened Basics

  type u32 = bv32

  /** The four most recent price changes. */
  type Changes4 = (int, int, int, int)

  const Mask24: u32 := 0xFF_FFFF

  // ---------------------------------------------------------------------------
  // The secret transform

  /** prune: the shift left then right by 8 keeps the low 24 bits. */
  function Prune(secret: u32): (r: u32)
    ensures r == secret & Mask24
    ensures r == secret % 0x100_0000
    ensures r < 0x100_0000
  {
    (secret << 8) >> 8
  }

  /** transform_num_step_1 */
  function Step1(secret: u32): u32 {
    Prune((secret << 6) ^ secret)
  }

  /** transform_num_step_2 */
  function Step2(secret: u32): u32 {
    Prune((secret >> 5) ^ secret)
  }

  /** transform_num_step_3 */
  function Step3(secret: u32): u32 {
    Prune((secret << 11) ^ secret)
  }

  /** transform_num */
  function Transform(secret: u32): (r: u32)
    ensures r < 0x100_0000
  {
    Step3(Step2(Step1(secret)))
  }

  /** The puzzle states the steps arithmetically: mix in the secret times 64,
      then the secret divided by 32, then the secret times 2048, each time
      keeping the remainder modulo 16777216. The shifts compute exactly that. */
  lemma StepsAreArithmetic(secret: u32)
    ensures Step1(secret) == ((secret * 64) ^ secret) % 16777216
    ensures Step2(secret) == ((secret / 32) ^ secret) % 16777216
    ensures Step3(secret) == ((secret * 2048) ^ secret) % 16777216
  {
  }

  /** Only the low 24 bits of a secret matter to the transform. */
  lemma TransformIgnoresHighBits(secret: u32)
    ensures Transform(secret) == Transform(Prune(secret))
  {
    assert Step1(secret) == Step1(Prune(secret));
  }

  lemma TransformExample()
    ensures Transform(123) == 15887950
  {
  }

  // ---------------------------------------------------------------------------
  // Repeating the transform

  /** The secret after n transforms. */
  function Iterate(secret: u32, n: nat): (r: u32)
    ensures n >= 1 ==> r < 0x100_0000
  {
    if n == 0 then secret else Transform(Iterate(secret, n - 1))
  }

  /** Transforming m times and then n more is transforming m + n times. */
  lemma {:induction false} IterateAdd(secret: u32, m: nat, n: nat)
    ensures Iterate(Iterate(secret, m), n) == Iterate(secret, m + n)
    decreases n
  {
    if n > 0 {
      IterateAdd(secret, m, n - 1);
    }
  }

  /** repeated_transform_num */
  method RepeatedTransform(secret: u32, numRepetitions: u32) returns (transformed: u32)
    ensures transformed == Iterate(secret, numRepetitions as int)
  {
    transformed := secret;
    for i := 0 to numRepetitions as int
      invariant transformed == Iterate(secret, i)
    {
      transformed := Transform(transformed);
    }
  }

  lemma RepeatedExample()
    ensures Iterate(123, 10) == 5908254
  {
  }

  /** The secrets a buyer goes through: the initial one and n transforms. */
  function Secrets(initial: u32, n: nat): (s: seq<u32>)
    ensures |s| == n + 1
  {
    seq(n + 1, i requires 0 <= i <= n => Iterate(initial, i))
  }

  /** The list starts at the initial secret, and each secret is the transform of the one before. */
  lemma SecretsStep(initial: u32, n: nat, i: nat)
    requires i < n
    ensures Secrets(initial, n)[0] == initial
    ensures Secrets(initial, n)[i + 1] == Transform(Secrets(initial, n)[i])
  {
  }

  /** One more transform appends the next secret. */
  lemma SecretsSnoc(initial: u32, n: nat)
    ensures Secrets(initial, n + 1) == Secrets(initial, n) + [Transform(Iterate(initial, n))]
  {
  }

  /** transform_num_sequence */
  method TransformSequence(initial: u32, numRepetitions: u32) returns (sequence: seq<u32>)
    ensures sequence == Secrets(initial, numRepetitions as int)
  {
    sequence := [initial];
    var current := initial;
    for k := 0 to numRepetitions as int
      invariant sequence == Secrets(initial, k) && current == Iterate(initial, k)
    {
      var next := Transform(current);
      SecretsSnoc(initial, k);
      sequence := sequence + [next];
      current := next;
    }
  }

  /** sum_transformed_nums: the sum of every buyer's last secret. */
  function SumTransformed(nums: seq<u32>, n: nat): (total: nat)
  {
    if nums == [] then 0
    else SumTransformed(nums[..|nums| - 1], n) + Iterate(nums[|nums| - 1], n) as int
  }

  /** Every term is a u32, so the u64 total cannot wrap for fewer than 2^32 buyers. */
  lemma {:induction false} SumTransformedBound(nums: seq<u32>, n: nat)
    ensures SumTransformed(nums, n) <= |nums| * 0xFFFF_FFFF
  {
    if nums != [] {
      SumTransformedBound(nums[..|nums| - 1], n);
    }
  }

  // ---------------------------------------------------------------------------
  // Prices and their changes

  /** The price a buyer offers at a secret: its last decimal digit. */
  function Price(secret: u32): (p: nat)
    ensures p < 10
  {
    DigitOf(secret % 10)
  }

  /** A remainder modulo 10 read as a number. */
  function DigitOf(d: u32): (p: nat)
    ensures p < 10 && (d < 10 ==> p as bv32 == d)
  {
    if d == 0 then 0 else if d == 1 then 1 else if d == 2 then 2 else if d == 3 then 3
    else if d == 4 then 4 else if d == 5 then 5 else if d == 6 then 6 else if d == 7 then 7
    else if d == 8 then 8 else 9
  }

  /** The prices offered along a list of secrets. */
  function PricesOf(nums: seq<u32>): (ps: seq<nat>)
    ensures |ps| == |nums|
    ensures forall i :: 0 <= i < |ps| ==> ps[i] < 10
  {
    seq(|nums|, i requires 0 <= i < |nums| => Price(nums[i]))
  }

  /** The consecutive differences of a list of numbers. */
  function Differences(ps: seq<int>): (d: seq<int>)
    ensures |d| == if ps == [] then 0 else |ps| - 1
  {
    seq(if ps == [] then 0 else |ps| - 1, i requires 0 <= i < |ps| - 1 => ps[i + 1] - ps[i])
  }

  /** sequence_of_changes: each secret's price minus the one before. */
  function ChangesOf(nums: seq<u32>): (ch: seq<int>)
    ensures |ch| == if nums == [] then 0 else |nums| - 1
    ensures forall i :: 0 <= i < |ch| ==> -9 <= ch[i] <= 9
  {
    var ps := PricesOf(nums);
    assert forall i :: 0 <= i < |ps| ==> 0 <= ps[i] < 10;
    Differences(ps)
  }

  /** Adding up the first k differences leads from the first number to the k-th. */
  lemma {:induction false} DifferencesTelescope(ps: seq<int>, k: nat)
    requires k < |ps|
    ensures ps[0] + Sum(Differences(ps)[..k]) == ps[k]
  {
    if k > 0 {
      var d := Differences(ps);
      DifferencesTelescope(ps, k - 1);
      assert d[..k][..k - 1] == d[..k - 1];
    }
  }

  /** So the changes determine every price from the first one. */
  lemma ChangesTelescope(nums: seq<u32>, k: nat)
    requires k < |nums|
    ensures Price(nums[0]) + Sum(ChangesOf(nums)[..k]) == Price(nums[k])
  {
    DifferencesTelescope(PricesOf(nums), k);
  }

  /** The buyer whose secret starts at 123 goes through these ten secrets. */
  lemma SecretsExample()
    ensures Secrets(123, 9) ==
      [123, 15887950, 16495136, 527345, 704524, 1553684, 12683156, 11100544, 12249484, 7753432]
  {
    var s := Secrets(123, 9);
    TransformSteps();
    forall i | 0 <= i < 9
      ensures s[i + 1] == Transform(s[i])
    {
      SecretsStep(123, 9, i);
    }
    assert s[0] == 123;
    assert s[1] == 15887950 && s[2] == 16495136 && s[3] == 527345;
    assert s[4] == 704524 && s[5] == 1553684 && s[6] == 12683156;
    assert s[7] == 11100544 && s[8] == 12249484 && s[9] == 7753432;
  }

  lemma TransformSteps()
    ensures Transform(123) == 15887950 && Transform(15887950) == 16495136
    ensures Transform(16495136) == 527345 && Transform(527345) == 704524
    ensures Transform(704524) == 1553684 && Transform(1553684) == 12683156
    ensures Transform(12683156) == 11100544 && Transform(11100544) == 12249484
    ensures Transform(12249484) == 7753432
  {
  }

  // ---------------------------------------------------------------------------
  // What each buyer would pay

  /** The four changes ending at change i. */
  function Window(ch: seq<int>, i: nat): Changes4
    requires 3 <= i < |ch|
  {
    (ch[i - 3], ch[i - 2], ch[i - 1], ch[i])
  }

  /** Change i ends the first occurrence of its four changes. */
  predicate FirstAt(ch: seq<int>, i: nat)
    requires 3 <= i < |ch|
  {
    forall j :: 3 <= j < i ==> Window(ch, j) != Window(ch, i)
  }

  /** The sell values gathered from the windows ending before change k: the
      first occurrence of four changes fixes the price paid for them, the
      price right after the last of the four. */
  function SellMap(ps: seq<nat>, ch: seq<int>, k: nat): (m: map<Changes4, nat>)
    requires k <= |ch| < |ps|
  {
    if k <= 3 then map[]
    else
      var m := SellMap(ps, ch, k - 1);
      var q := Window(ch, k - 1);
      if q in m then m else m[q := ps[k]]
  }

  /** The stored prices are among the prices. */
  lemma {:induction false} SellMapBelow(ps: seq<nat>, ch: seq<int>, k: nat, q: Changes4)
    requires k <= |ch| < |ps| && forall j :: 0 <= j < |ps| ==> ps[j] < 10
    requires q in SellMap(ps, ch, k)
    ensures SellMap(ps, ch, k)[q] < 10
  {
    if k > 3 && q in SellMap(ps, ch, k - 1) {
      SellMapBelow(ps, ch, k - 1, q);
    }
  }

  lemma SellMapStep(ps: seq<nat>, ch: seq<int>, k: nat)
    requires 3 <= k < |ch| < |ps|
    ensures var m := SellMap(ps, ch, k);
      SellMap(ps, ch, k + 1) == if Window(ch, k) in m then m else m[Window(ch, k) := ps[k + 1]]
  {
  }

  /** Every four changes that occur are a key. */
  lemma {:induction false} SellMapHas(ps: seq<nat>, ch: seq<int>, k: nat, i: nat)
    requires k <= |ch| < |ps| && 3 <= i < k
    ensures Window(ch, i) in SellMap(ps, ch, k)
  {
    if i < k - 1 {
      SellMapHas(ps, ch, k - 1, i);
    }
  }

  /** The price stored for four changes is the one right after their first
      occurrence. */
  lemma {:induction false} SellMapFirst(ps: seq<nat>, ch: seq<int>, k: nat, i: nat)
    requires k <= |ch| < |ps| && 3 <= i < k && FirstAt(ch, i)
    ensures Window(ch, i) in SellMap(ps, ch, k) && SellMap(ps, ch, k)[Window(ch, i)] == ps[i + 1]
  {
    SellMapHas(ps, ch, k, i);
    if i < k - 1 {
      SellMapHas(ps, ch, k - 1, i);
      SellMapFirst(ps, ch, k - 1, i);
    } else if Window(ch, i) in SellMap(ps, ch, k - 1) {
      var j := SellMapOrigin(ps, ch, k - 1, Window(ch, i));
      assert false;
    }
  }

  /** Every key is four changes that occur, from their first occurrence. */
  lemma {:induction false} SellMapOrigin(ps: seq<nat>, ch: seq<int>, k: nat, q: Changes4) returns (i: nat)
    requires k <= |ch| < |ps| && q in SellMap(ps, ch, k)
    ensures 3 <= i < k && Window(ch, i) == q && FirstAt(ch, i)
  {
    var m := SellMap(ps, ch, k - 1);
    if q in m {
      i := SellMapOrigin(ps, ch, k - 1, q);
    } else {
      i := k - 1;
      forall j | 3 <= j < i
        ensures Window(ch, j) != q
      {
        SellMapHas(ps, ch, k - 1, j);
      }
    }
  }

  /** The sell values of a buyer after n transforms. */
  function BuyerSellValues(initial: u32, n: nat): map<Changes4, nat> {
    var nums := Secrets(initial, n);
    var ch := ChangesOf(nums);
    SellMap(PricesOf(nums), ch, |ch|)
  }

  /** get_all_possible_sell_values */
  method GetSellValues(initial: u32, numRepetitions: u32) returns (result: map<Changes4, nat>)
    ensures result == BuyerSellValues(initial, numRepetitions as int)
  {
    var transformed := TransformSequence(initial, numRepetitions);
    assert transformed == Secrets(initial, numRepetitions as int);
    ghost var ps := PricesOf(transformed);
    var changes := ChangesOf(transformed);
    result := map[];
    if 3 <= |changes| {
      for idx := 3 to |changes|
        invariant result == SellMap(ps, changes, idx)
      {
        var len4Change := Window(changes, idx);
        SellMapStep(ps, changes, idx);
        assert Price(transformed[idx + 1]) == ps[idx + 1];
        if len4Change !in result {
          result := result[len4Change := Price(transformed[idx + 1])];
        }
      }
    }
  }

  // ---------------------------------------------------------------------------
  // The four changes worth asking for

  /** The changes between five consecutive prices. */
  function Diffs(a: int, b: int, c: int, d: int, e: int): Changes4 {
    (b - a, c - b, d - c, e - d)
  }

  /** Four changes some five digits can show. */
  ghost predicate Realisable(q: Changes4) {
    exists a, b, c, d, e :: 0 <= a < 10 && 0 <= b < 10 && 0 <= c < 10 && 0 <= d < 10 && 0 <= e < 10 &&
      Diffs(a, b, c, d, e) == q
  }

  /** Every four consecutive changes of digits can be realised by digits. */
  lemma WindowRealisable(ps: seq<nat>, i: nat)
    requires forall j :: 0 <= j < |ps| ==> ps[j] < 10
    requires 3 <= i < |Differences(ps)|
    ensures Realisable(Window(Differences(ps), i))
  {
    var a, b, c, d, e := ps[i - 3], ps[i - 2], ps[i - 1], ps[i], ps[i + 1];
    assert Diffs(a, b, c, d, e) == Window(Differences(ps), i);
  }

  /** Each realisable change lies in [-9, 9]. */
  lemma RealisableBounds(q: Changes4)
    requires Realisable(q)
    ensures -9 <= q.0 <= 9 && -9 <= q.1 <= 9 && -9 <= q.2 <= 9 && -9 <= q.3 <= 9
  {
  }

  predicate Distinct(qs: seq<Changes4>) {
    forall i, j :: 0 <= i < j < |qs| ==> qs[i] != qs[j]
  }

  /** The five digits numbered t in the loops' order, as their changes. */
  function Code(t: nat): Changes4 {
    Diffs(t / 10000, t / 1000 % 10, t / 100 % 10, t / 10 % 10, t % 10)
  }

  /** Every tuple the loops have visited before number t has been inserted. */
  predicate Covered(seen: set<Changes4>, t: nat) {
    forall u :: 0 <= u < t ==> Code(u) in seen
  }

  lemma CodeOf(a: nat, b: nat, c: nat, d: nat, e: nat)
    requires a < 10 && b < 10 && c < 10 && d < 10 && e < 10
    ensures Code(a * 10000 + b * 1000 + c * 100 + d * 10 + e) == Diffs(a, b, c, d, e)
  {
    var t := a * 10000 + b * 1000 + c * 100 + d * 10 + e;
    var q1, q2, q3 := a * 10 + b, a * 100 + b * 10 + c, a * 1000 + b * 100 + c * 10 + d;
    DivModUnique(t, 10000, a, b * 1000 + c * 100 + d * 10 + e);
    DivModUnique(t, 1000, q1, c * 100 + d * 10 + e);
    DivModUnique(q1, 10, a, b);
    DivModUnique(t, 100, q2, d * 10 + e);
    DivModUnique(q2, 10, q1, c);
    DivModUnique(t, 10, q3, e);
    DivModUnique(q3, 10, q2, d);
  }

  /** What the loops of get_all_len4_change_sequences keep: the list holds
      the inserted changes once each, and each of them is realisable. */
  ghost predicate Listed(seen: set<Changes4>, result: seq<Changes4>) {
    (forall q :: q in result <==> q in seen) && Distinct(result) && forall q :: q in seen ==> Realisable(q)
  }

  /** One pass of the innermost loop body: insert the changes of five digits. */
  lemma InsertStep(seen: set<Changes4>, result: seq<Changes4>, t: nat, a: nat, b: nat, c: nat, d: nat, e: nat)
    requires a < 10 && b < 10 && c < 10 && d < 10 && e < 10
    requires t == a * 10000 + b * 1000 + c * 100 + d * 10 + e
    requires Listed(seen, result) && Covered(seen, t)
    ensures Diffs(a, b, c, d, e) in seen ==> Covered(seen, t + 1)
    ensures Diffs(a, b, c, d, e) !in seen ==>
      Listed(seen + {Diffs(a, b, c, d, e)}, result + [Diffs(a, b, c, d, e)]) &&
      Covered(seen + {Diffs(a, b, c, d, e)}, t + 1)
  {
    var q := Diffs(a, b, c, d, e);
    CodeOf(a, b, c, d, e);
    if q !in seen {
      var seen', result' := seen + {q}, result + [q];
      assert forall x :: x in result' <==> x in result || x == q;
    }
  }

  /** Once all 100000 digit tuples are covered, the changes of any five digits are in. */
  lemma CoveredAll(seen: set<Changes4>, a: nat, b: nat, c: nat, d: nat, e: nat)
    requires Covered(seen, 100000)
    requires a < 10 && b < 10 && c < 10 && d < 10 && e < 10
    ensures Diffs(a, b, c, d, e) in seen
  {
    var t := a * 10000 + b * 1000 + c * 100 + d * 10 + e;
    CodeOf(a, b, c, d, e);
    assert Code(t) in seen;
  }

  /** get_all_len4_change_sequences: the set of all realisable changes,
      listed once each (in the order they were first inserted). */
  method AllChangeSequences() returns (result: seq<Changes4>)
    ensures Distinct(result)
    ensures forall q :: q in result <==> Realisable(q)
  {
    var seen: set<Changes4> := {};
    result := [];
    for a := 0 to 10
      invariant Listed(seen, result) && Covered(seen, a * 10000)
    {
      for b := 0 to 10
        invariant Listed(seen, result) && Covered(seen, a * 10000 + b * 1000)
      {
        for c := 0 to 10
          invariant Listed(seen, result) && Covered(seen, a * 10000 + b * 1000 + c * 100)
        {
          for d := 0 to 10
            invariant Listed(seen, result) && Covered(seen, a * 10000 + b * 1000 + c * 100 + d * 10)
          {
            for e := 0 to 10
              invariant Listed(seen, result) && Covered(seen, a * 10000 + b * 1000 + c * 100 + d * 10 + e)
            {
              InsertStep(seen, result, a * 10000 + b * 1000 + c * 100 + d * 10 + e, a, b, c, d, e);
              var q := Diffs(a, b, c, d, e);
              if q !in seen {
                seen := seen + {q};
                result := result + [q];
              }
            }
          }
        }
      }
    }
    forall a: nat, b: nat, c: nat, d: nat, e: nat | a < 10 && b < 10 && c < 10 && d < 10 && e < 10
      ensures Diffs(a, b, c, d, e) in seen
    {
      CoveredAll(seen, a, b, c, d, e);
    }
  }

  // ---------------------------------------------------------------------------
  // The best four changes

  /** Every key a buyer's sell values hold is realisable. */
  lemma BuyerKeysRealisable(initial: u32, n: nat, q: Changes4)
    requires q in BuyerSellValues(initial, n)
    ensures Realisable(q)
  {
    var nums := Secrets(initial, n);
    var ps, ch := PricesOf(nums), ChangesOf(nums);
    var i := SellMapOrigin(ps, ch, |ch|, q);
    WindowRealisable(ps, i);
  }

  /** The prices a buyer pays are digits. */
  lemma BuyerValuesBelowTen(initial: u32, n: nat, q: Changes4)
    requires q in BuyerSellValues(initial, n)
    ensures BuyerSellValues(initial, n)[q] < 10
  {
    var nums := Secrets(initial, n);
    var ps, ch := PricesOf(nums), ChangesOf(nums);
    SellMapBelow(ps, ch, |ch|, q);
  }

  /** f applied to each element, in order. */
  function MapEach<A, B>(f: A -> B, xs: seq<A>): (ys: seq<B>)
    ensures |ys| == |xs|
  {
    if xs == [] then [] else MapEach(f, xs[..|xs| - 1]) + [f(xs[|xs| - 1])]
  }

  lemma {:induction false} MapEachAt<A, B>(f: A -> B, xs: seq<A>, i: nat)
    requires i < |xs|
    ensures MapEach(f, xs)[i] == f(xs[i])
  {
    var init := xs[..|xs| - 1];
    if i < |init| {
      MapEachAt(f, init, i);
      assert init[i] == xs[i];
    }
  }

  lemma MapEachSnoc<A, B>(f: A -> B, xs: seq<A>, i: nat)
    requires i < |xs|
    ensures MapEach(f, xs[..i + 1]) == MapEach(f, xs[..i]) + [f(xs[i])]
  {
    assert xs[..i + 1][..i] == xs[..i];
  }

  /** The sell values of every buyer, in order. */
  function AllSellValues(initialNums: seq<u32>, n: nat): (maps: seq<map<Changes4, nat>>)
    ensures |maps| == |initialNums|
  {
    MapEach((x: u32) => BuyerSellValues(x, n), initialNums)
  }

  /** The i-th entry is the i-th buyer's sell values. */
  lemma AllSellValuesAt(initialNums: seq<u32>, n: nat, i: nat)
    requires i < |initialNums|
    ensures AllSellValues(initialNums, n)[i] == BuyerSellValues(initialNums[i], n)
  {
    MapEachAt((x: u32) => BuyerSellValues(x, n), initialNums, i);
  }

  lemma AllSellValuesSnoc(initialNums: seq<u32>, n: nat, i: nat)
    requires i < |initialNums|
    ensures AllSellValues(initialNums[..i + 1], n) ==
      AllSellValues(initialNums[..i], n) + [BuyerSellValues(initialNums[i], n)]
  {
    MapEachSnoc((x: u32) => BuyerSellValues(x, n), initialNums, i);
  }

  /** get_total_sell_value_for_changes: what all buyers pay for the changes q,
      a buyer that never shows them paying nothing. */
  function TotalFor(maps: seq<map<Changes4, nat>>, q: Changes4): nat {
    if maps == [] then 0
    else
      var m := maps[|maps| - 1];
      TotalFor(maps[..|maps| - 1], q) + (if q in m then m[q] else 0)
  }

  /** Nobody pays for changes none of them shows. */
  lemma {:induction false} TotalForAbsent(maps: seq<map<Changes4, nat>>, q: Changes4)
    requires forall i :: 0 <= i < |maps| ==> q !in maps[i]
    ensures TotalFor(maps, q) == 0
  {
    if maps != [] {
      TotalForAbsent(maps[..|maps| - 1], q);
    }
  }

  /** Each buyer pays at most 9. */
  lemma {:induction false} TotalForBound(maps: seq<map<Changes4, nat>>, q: Changes4)
    requires forall i :: 0 <= i < |maps| ==> q in maps[i] ==> maps[i][q] < 10
    ensures TotalFor(maps, q) <= 9 * |maps|
  {
    if maps != [] {
      TotalForBound(maps[..|maps| - 1], q);
    }
  }

  /** Asking for unrealisable changes earns nothing. */
  lemma UnrealisableEarnsNothing(initialNums: seq<u32>, n: nat, q: Changes4)
    requires !Realisable(q)
    ensures TotalFor(AllSellValues(initialNums, n), q) == 0
  {
    var maps := AllSellValues(initialNums, n);
    forall i | 0 <= i < |maps|
      ensures q !in maps[i]
    {
      AllSellValuesAt(initialNums, n, i);
      if q in maps[i] {
        BuyerKeysRealisable(initialNums[i], n, q);
      }
    }
    TotalForAbsent(maps, q);
  }

  /** Whatever the changes, the bananas earned are at most 9 per buyer. */
  lemma TotalForAtMostNine(initialNums: seq<u32>, n: nat, q: Changes4)
    ensures TotalFor(AllSellValues(initialNums, n), q) <= 9 * |initialNums|
  {
    var maps := AllSellValues(initialNums, n);
    forall i | 0 <= i < |maps| && q in maps[i]
      ensures maps[i][q] < 10
    {
      AllSellValuesAt(initialNums, n, i);
      BuyerValuesBelowTen(initialNums[i], n, q);
    }
    TotalForBound(maps, q);
  }

  /** `.map(total).max().unwrap_or(0)` over the candidate changes (the
      totals are never negative, so starting from 0 changes nothing). */
  function MaxTotal(maps: seq<map<Changes4, nat>>, qs: seq<Changes4>): (best: nat)
    ensures forall i :: 0 <= i < |qs| ==> TotalFor(maps, qs[i]) <= best
  {
    if qs == [] then 0
    else
      var rest := MaxTotal(maps, qs[..|qs| - 1]);
      var last := TotalFor(maps, qs[|qs| - 1]);
      if rest < last then last else rest
  }

  /** The maximum is reached by one of the candidates. */
  lemma {:induction false} MaxTotalAttained(maps: seq<map<Changes4, nat>>, qs: seq<Changes4>) returns (k: nat)
    requires qs != []
    ensures k < |qs| && MaxTotal(maps, qs) == TotalFor(maps, qs[k])
  {
    var rest := qs[..|qs| - 1];
    if rest == [] || MaxTotal(maps, rest) < TotalFor(maps, qs[|qs| - 1]) {
      k := |qs| - 1;
    } else {
      k := MaxTotalAttained(maps, rest);
    }
  }

  /** get_total_sell_value: the most bananas any four changes earn. */
  method GetTotalSellValue(initialNums: seq<u32>, numRepetitions: u32) returns (best: nat)
    ensures var maps := AllSellValues(initialNums, numRepetitions as int);
      forall q :: TotalFor(maps, q) <= best
    ensures var maps := AllSellValues(initialNums, numRepetitions as int);
      exists q :: Realisable(q) && TotalFor(maps, q) == best
  {
    ghost var n := numRepetitions as int;
    var len4Changes := AllChangeSequences();
    var possibleSellValues: seq<map<Changes4, nat>> := [];
    for i := 0 to |initialNums|
      invariant possibleSellValues == AllSellValues(initialNums[..i], n)
    {
      var values := GetSellValues(initialNums[i], numRepetitions);
      AllSellValuesSnoc(initialNums, n, i);
      possibleSellValues := possibleSellValues + [values];
    }
    assert initialNums[..|initialNums|] == initialNums;
    best := MaxTotal(possibleSellValues, len4Changes);
    MaxOverRealisable(initialNums, n, len4Changes);
  }

  /** Taking the maximum over the realisable changes finds the best of all changes. */
  lemma MaxOverRealisable(initialNums: seq<u32>, n: nat, qs: seq<Changes4>)
    requires forall q :: q in qs <==> Realisable(q)
    ensures var maps := AllSellValues(initialNums, n);
      forall q :: TotalFor(maps, q) <= MaxTotal(maps, qs)
    ensures var maps := AllSellValues(initialNums, n);
      exists q :: Realisable(q) && TotalFor(maps, q) == MaxTotal(maps, qs)
  {
    var maps := AllSellValues(initialNums, n);
    var best := MaxTotal(maps, qs);
    forall q
      ensures TotalFor(maps, q) <= best
    {
      if q in qs {
        var i :| 0 <= i < |qs| && qs[i] == q;
      } else {
        UnrealisableEarnsNothing(initialNums, n, q);
      }
    }
    assert Diffs(0, 0, 0, 0, 0) == (0, 0, 0, 0);
    assert (0, 0, 0, 0) in qs;
    var k := MaxTotalAttained(maps, qs);
    assert Realisable(qs[k]);
  }

  // ---------------------------------------------------------------------------
  // Reading the input

  /** One line: `x.trim().parse::<u32>()`, None where the program would panic. */
  function ParseSecret(line: string): (r: Option<u32>)
    ensures var d := UnsignedDigits(Trim(line));
      r.Some? <==> d != [] && AllDigits(d) && DecimalValue(d) < 0x1_0000_0000
    ensures r.Some? ==> r.value == DecimalValue(UnsignedDigits(Trim(line))) as u32
  {
    var d := UnsignedDigits(Trim(line));
    if d != [] && AllDigits(d) && DecimalValue(d) < 0x1_0000_0000 then Some(DecimalValue(d) as u32) else None
  }

  /** parse_file over the lines of the file: every line must hold a number. */
  function ParseSecrets(lines: seq<string>): Option<seq<u32>> {
    ReadAll(ParseSecret, lines)
  }

  /** A line whose trimmed digits, after an optional '+', are d reads as d's value. */
  lemma ParseSecretDigits(line: string, d: string, v: nat)
    requires UnsignedDigits(Trim(line)) == d && d != [] && AllDigits(d) && DecimalValue(d) == v < 0x1_0000_0000
    ensures ParseSecret(line) == Some(v as u32)
  {
  }

  /** A number written out in decimal reads back as itself. */
  lemma ParseSecretRendered(v: nat)
    requires v < 0x1_0000_0000
    ensures ParseSecret(Decimal(v)) == Some(v as u32)
  {
    var d := Decimal(v);
    DecimalRoundTrip(v);
    UnsignedDecimal(v);
    ParseSecretDigits(d, d, v);
  }

  /** So does one written with a leading '+', which `parse::<u32>` accepts. */
  lemma ParseSecretPlus(v: nat)
    requires v < 0x1_0000_0000
    ensures ParseSecret("+" + Decimal(v)) == Some(v as u32)
  {
    var d := Decimal(v);
    DecimalRoundTrip(v);
    UnsignedDecimal(v);
    ParseSecretDigits("+" + d, d, v);
  }
}
