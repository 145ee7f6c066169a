// Plutonian stones: every blink rewrites each engraved number by the first
// rule that applies (0 becomes 1, an even number of digits splits in half,
// anything else is multiplied by 2024); the question is how many stones
// there are after some blinks (2024/day_11/src/main.rs).

module Stones {
  import opened Basics

  /** rule_1: only a 0 stone is rewritten, into a single 1. */
  function Rule1(stone: nat): (r: Option<seq<nat>>)
    ensures r.Some? <==> stone == 0
    ensures r.Some? ==> r.value == [1]
  {
    if stone == 0 then Some([1]) else None
  }

  /** rule_2: `stone.to_string()` split at half its length, both halves parsed
      (the right half may start with zeros, which parsing drops). */
  function Rule2(stone: nat): (r: Option<seq<nat>>)
    ensures r.Some? <==> NumDigits(stone) % 2 == 0
    ensures r.Some? ==> |r.value| == 2
  {
    var s := Decimal(stone);
    if |s| % 2 == 1 then None
    else
      var h := |s| / 2;
      Some([DecimalValue(s[..h]), DecimalValue(s[h..])])
  }

  /** rule_3 */
  function Rule3(stone: nat): seq<nat> {
    [stone * 2024]
  }

  /** ruleset: the first rule that applies. */
  function Ruleset(stone: nat): (r: seq<nat>)
    ensures 1 <= |r| <= 2
  {
    var r1 := Rule1(stone);
    if r1.Some? then r1.value
    else
      var r2 := Rule2(stone);
      if r2.Some? then r2.value else Rule3(stone)
  }

  /** What rule_2 computes: for a stone with 2h digits, the halves are the
      quotient and the remainder by 10^h. */
  lemma Rule2Halves(stone: nat)
    requires NumDigits(stone) % 2 == 0
    ensures var h := NumDigits(stone) / 2;
      Rule2(stone) == Some([stone / Pow(10, h), stone % Pow(10, h)])
  {
    var s := Decimal(stone);
    var h := |s| / 2;
    var left, right := s[..h], s[h..];
    assert s == left + right;
    assert AllDigits(left) && AllDigits(right) by {
      forall i | 0 <= i < h ensures IsDigit(left[i]) && IsDigit(right[i]) {
        assert left[i] == s[i] && right[i] == s[h + i];
      }
    }
    DecimalValueAppend(left, right);
    DecimalRoundTrip(stone);
    DivModUnique(stone, Pow(10, h), DecimalValue(left), DecimalValue(right));
  }

  /** The three cases of ruleset, each with its own outcome. */
  lemma RulesetCases(stone: nat)
    ensures stone == 0 ==> Ruleset(stone) == [1]
    ensures stone != 0 && NumDigits(stone) % 2 == 0 ==>
      var h := NumDigits(stone) / 2;
      Ruleset(stone) == [stone / Pow(10, h), stone % Pow(10, h)]
    ensures stone != 0 && NumDigits(stone) % 2 == 1 ==> Ruleset(stone) == [stone * 2024]
  {
    if stone != 0 && NumDigits(stone) % 2 == 0 {
      Rule2Halves(stone);
    }
  }

  // ---------------------------------------------------------------------------
  // Counting

  /** num_stones_after_blinking_single, for a rewrite rule; the program's rule is Ruleset. */
  function NumStones(rule: nat -> seq<nat>, stone: nat, blinks: nat): nat
    decreases blinks, 0, 0
  {
    if blinks == 0 then 1 else SumStones(rule, rule(stone), blinks - 1)
  }

  /** num_stones_after_blinking: the counts of the stones, summed. */
  function SumStones(rule: nat -> seq<nat>, stones: seq<nat>, blinks: nat): nat
    decreases blinks, 1, |stones|
  {
    if stones == [] then 0
    else SumStones(rule, stones[..|stones| - 1], blinks) + NumStones(rule, stones[|stones| - 1], blinks)
  }

  /** The reference meaning: one blink rewrites the whole row, stone by stone,
      in order, under a rewrite rule (the program's rule is Ruleset). */
  function Blink(rule: nat -> seq<nat>, stones: seq<nat>): seq<nat> {
    if stones == [] then []
    else Blink(rule, stones[..|stones| - 1]) + rule(stones[|stones| - 1])
  }

  function BlinkTimes(rule: nat -> seq<nat>, stones: seq<nat>, blinks: nat): seq<nat>
    decreases blinks
  {
    if blinks == 0 then stones else BlinkTimes(rule, Blink(rule, stones), blinks - 1)
  }

  lemma {:induction false} BlinkAppend(rule: nat -> seq<nat>, a: seq<nat>, b: seq<nat>)
    ensures Blink(rule, a + b) == Blink(rule, a) + Blink(rule, b)
    decreases |b|
  {
    if b == [] {
      assert a + b == a;
    } else {
      var b', x := b[..|b| - 1], b[|b| - 1];
      assert (a + b)[..|a + b| - 1] == a + b' && (a + b)[|a + b| - 1] == x;
      BlinkAppend(rule, a, b');
    }
  }

  lemma {:induction false} BlinkTimesAppend(rule: nat -> seq<nat>, a: seq<nat>, b: seq<nat>, blinks: nat)
    ensures BlinkTimes(rule, a + b, blinks) == BlinkTimes(rule, a, blinks) + BlinkTimes(rule, b, blinks)
    decreases blinks
  {
    if blinks > 0 {
      var a', b' := Blink(rule, a), Blink(rule, b);
      BlinkAppend(rule, a, b);
      BlinkTimesAppend(rule, a', b', blinks - 1);
      assert BlinkTimes(rule, a + b, blinks) == BlinkTimes(rule, a' + b', blinks - 1);
    }
  }

  /** The memoised count is the length of the row after that many blinks. */
  lemma {:induction false} SumStonesIsLength(rule: nat -> seq<nat>, stones: seq<nat>, blinks: nat)
    ensures SumStones(rule, stones, blinks) == |BlinkTimes(rule, stones, blinks)|
    decreases blinks, |stones|
  {
    if stones == [] {
      BlinkTimesEmpty(rule, blinks);
    } else if blinks == 0 {
      SumStonesOfZero(rule, stones);
    } else {
      var init, x := stones[..|stones| - 1], stones[|stones| - 1];
      SumStonesIsLength(rule, init, blinks);
      var r := rule(x);
      SumStonesIsLength(rule, r, blinks - 1);
      var row := Blink(rule, init);
      assert Blink(rule, stones) == row + r;
      BlinkTimesAppend(rule, row, r, blinks - 1);
      assert |BlinkTimes(rule, init, blinks)| == |BlinkTimes(rule, row, blinks - 1)|;
    }
  }

  lemma {:induction false} BlinkTimesEmpty(rule: nat -> seq<nat>, blinks: nat)
    ensures BlinkTimes(rule, [], blinks) == []
    decreases blinks
  {
    if blinks > 0 {
      BlinkTimesEmpty(rule, blinks - 1);
    }
  }

  lemma {:induction false} SumStonesOfZero(rule: nat -> seq<nat>, stones: seq<nat>)
    ensures SumStones(rule, stones, 0) == |stones|
    decreases |stones|
  {
    if stones != [] {
      SumStonesOfZero(rule, stones[..|stones| - 1]);
    }
  }

  /** Under a rule that yields one or two stones, a stone becomes at least one
      and at most 2^blinks stones. */
  lemma {:induction false} NumStonesBounds(rule: nat -> seq<nat>, stone: nat, blinks: nat)
    requires forall x :: 1 <= |rule(x)| <= 2
    ensures 1 <= NumStones(rule, stone, blinks) <= Pow(2, blinks)
    decreases blinks, 0
  {
    if blinks > 0 {
      SumStonesBounds(rule, rule(stone), blinks - 1);
      var p := Pow(2, blinks - 1);
      var k := |rule(stone)|;
      MulMono(k, 2, p);
    }
  }

  lemma {:induction false} SumStonesBounds(rule: nat -> seq<nat>, stones: seq<nat>, blinks: nat)
    requires forall x :: 1 <= |rule(x)| <= 2
    ensures |stones| <= SumStones(rule, stones, blinks) <= |stones| * Pow(2, blinks)
    decreases blinks, 1, |stones|
  {
    if stones != [] {
      var init := stones[..|stones| - 1];
      SumStonesBounds(rule, init, blinks);
      NumStonesBounds(rule, stones[|stones| - 1], blinks);
      var p := Pow(2, blinks);
      assert (|init| + 1) * p == |init| * p + p;
    }
  }

  /** Counting stone by stone adds up: the row can be split anywhere. */
  lemma {:induction false} SumStonesAppend(rule: nat -> seq<nat>, a: seq<nat>, b: seq<nat>, blinks: nat)
    ensures SumStones(rule, a + b, blinks) == SumStones(rule, a, blinks) + SumStones(rule, b, blinks)
    decreases |b|
  {
    if b == [] {
      assert a + b == a;
    } else {
      var b' := b[..|b| - 1];
      assert (a + b)[..|a + b| - 1] == a + b';
      SumStonesAppend(rule, a, b', blinks);
    }
  }

  // ---------------------------------------------------------------------------
  // The program's rule

  /** num_stones_after_blinking: the number of stones in the row after the blinks. */
  function NumStonesAfterBlinking(stones: seq<nat>, blinks: nat): (n: nat)
    ensures n == |BlinkTimes(Ruleset, stones, blinks)|
    ensures |stones| <= n <= |stones| * Pow(2, blinks)
  {
    SumStonesIsLength(Ruleset, stones, blinks);
    SumStonesBounds(Ruleset, stones, blinks);
    SumStones(Ruleset, stones, blinks)
  }

  /** num_stones_after_blinking_single: one stone becomes between 1 and 2^blinks stones. */
  function NumStonesAfterBlinkingSingle(stone: nat, blinks: nat): (n: nat)
    ensures n == |BlinkTimes(Ruleset, [stone], blinks)|
    ensures 1 <= n <= Pow(2, blinks)
    ensures blinks > 0 ==> n == NumStonesAfterBlinking(Ruleset(stone), blinks - 1)
  {
    NumStonesBounds(Ruleset, stone, blinks);
    assert SumStones(Ruleset, [stone], blinks) == NumStones(Ruleset, stone, blinks) by {
      assert [stone][..0] == [];
    }
    SumStonesIsLength(Ruleset, [stone], blinks);
    NumStones(Ruleset, stone, blinks)
  }
}
