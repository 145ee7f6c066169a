// Print-queue page ordering: rules "l|r" say page l must be printed before
// page r; an update (a comma-separated list of pages) is in the right order
// when no page is preceded by one of its own successors. Challenge 1 sums
// the middle pages of the correct updates, challenge 2 sorts the incorrect
// ones by the rules and sums their middle pages (day_05/src/main.rs).

module PageOrdering {
  import opened Basics

  /** `HashMap<u32, HashSet<u32>>`: for each page, the pages that must follow it. */
  type SuccessorMap = map<nat, set<nat>>

  const U32Limit: nat := 0x1_0000_0000

  /** The rule "a|b" is among the successors: a must come before b. */
  predicate Before(succ: SuccessorMap, a: nat, b: nat) {
    a in succ && b in succ[a]
  }

  // ---------------------------------------------------------------------------
  // Reading the input

  /** `str::split_once`: the text before and after the first c, if any. */
  function SplitOnce(s: string, c: char): (r: Option<(string, string)>)
    ensures r.Some? <==> c in s
    ensures r.Some? ==> r.value.0 + [c] + r.value.1 == s && c !in r.value.0
  {
    if s == [] then None
    else if s[0] == c then Some(([], s[1..]))
    else
      var t := SplitOnce(s[1..], c);
      if t.None? then None
      else
        assert [s[0]] + t.value.0 + [c] + t.value.1 == [s[0]] + s[1..];
        Some(([s[0]] + t.value.0, t.value.1))
  }

  lemma {:induction false} SplitOnceAt(w: string, t: string, c: char)
    requires c !in w
    ensures SplitOnce(w + [c] + t, c) == Some((w, t))
    decreases |w|
  {
    var s := w + [c] + t;
    if w == [] {
      assert s == [c] + t;
    } else {
      assert s[0] == w[0] != c;
      assert s[1..] == w[1..] + [c] + t;
      SplitOnceAt(w[1..], t, c);
      assert [w[0]] + w[1..] == w;
    }
  }

  /** `s.parse::<u32>()`: an optional '+' and then a non-empty run of digits
      whose value fits in 32 bits. */
  function ParseU32(s: string): (r: Option<nat>)
    ensures var d := UnsignedDigits(s); r.Some? <==> d != [] && AllDigits(d) && DecimalValue(d) < U32Limit
    ensures r.Some? ==> r.value == DecimalValue(UnsignedDigits(s)) < U32Limit
  {
    var d := UnsignedDigits(s);
    if d != [] && AllDigits(d) && DecimalValue(d) < U32Limit then Some(DecimalValue(d)) else None
  }

  lemma ParseU32Decimal(n: nat)
    requires n < U32Limit
    ensures ParseU32(Decimal(n)) == Some(n)
    ensures ParseU32("+" + Decimal(n)) == Some(n)
  {
    DecimalRoundTrip(n);
    assert ("+" + Decimal(n))[1..] == Decimal(n);
  }

  /** A sign other than one '+' is refused: "", "+", "-n" and "++n" give None. */
  lemma ParseU32Signs(t: string)
    ensures ParseU32([]) == None && ParseU32("+") == None
    ensures ParseU32("-" + t) == None && ParseU32("++" + t) == None
  {
    assert ("-" + t)[0] == '-' && !IsDigit('-');
    assert ("++" + t)[1..] == "+" + t && !IsDigit('+');
  }

  /** One line of get_successors: "l|r" with both sides numbers, or None
      where `expect` panics. */
  function ParseRule(line: string): (r: Option<(nat, nat)>)
    requires '|' in line
    ensures r.Some? <==>
      var (left, right) := SplitOnce(line, '|').value;
      ParseU32(left).Some? && ParseU32(right).Some?
  {
    var (left, right) := SplitOnce(line, '|').value;
    var l, r := ParseU32(left), ParseU32(right);
    if l.Some? && r.Some? then Some((l.value, r.value)) else None
  }

  /** A rule written out as "l|r" reads back as itself. */
  lemma ParseRuleRendered(a: nat, b: nat)
    requires a < U32Limit && b < U32Limit
    ensures '|' in Decimal(a) + "|" + Decimal(b)
    ensures ParseRule(Decimal(a) + "|" + Decimal(b)) == Some((a, b))
  {
    var da, db := Decimal(a), Decimal(b);
    assert '|' !in da by {
      forall k | 0 <= k < |da| ensures da[k] != '|' { assert IsDigit(da[k]); }
    }
    assert (da + "|" + db)[|da|] == '|';
    SplitOnceAt(da, db, '|');
    ParseU32Decimal(a);
    ParseU32Decimal(b);
  }

  /** The rules of all lines with a '|', in order (the filter_map and map of
      get_successors), or None if one of them does not parse. */
  function GetRules(lines: seq<string>): (r: Option<seq<(nat, nat)>>)
    ensures r.Some? <==> forall k :: 0 <= k < |lines| && '|' in lines[k] ==> ParseRule(lines[k]).Some?
  {
    if lines == [] then Some([])
    else
      var n := |lines| - 1;
      var rest := GetRules(lines[..n]);
      if '|' !in lines[n] then rest
      else
        var p := ParseRule(lines[n]);
        if p.None? || rest.None? then None else Some(rest.value + [p.value])
  }

  /** Line k is a rule line that reads as the rule p. */
  predicate RuleAt(lines: seq<string>, k: nat, p: (nat, nat)) {
    k < |lines| && '|' in lines[k] && ParseRule(lines[k]) == Some(p)
  }

  /** Every rule read comes from a rule line. */
  lemma {:induction false} GetRulesSound(lines: seq<string>, p: (nat, nat)) returns (k: nat)
    requires GetRules(lines).Some? && p in GetRules(lines).value
    ensures RuleAt(lines, k, p)
    decreases |lines|
  {
    var n := |lines| - 1;
    var rest := GetRules(lines[..n]);
    if '|' in lines[n] && p == ParseRule(lines[n]).value {
      k := n;
    } else {
      assert p in rest.value;
      k := GetRulesSound(lines[..n], p);
      assert lines[..n][k] == lines[k];
    }
  }

  /** Every rule line's rule is read. */
  lemma {:induction false} GetRulesComplete(lines: seq<string>, k: nat, p: (nat, nat))
    requires GetRules(lines).Some? && RuleAt(lines, k, p)
    ensures p in GetRules(lines).value
    decreases |lines|
  {
    var n := |lines| - 1;
    if k < n {
      assert lines[..n][k] == lines[k];
      GetRulesComplete(lines[..n], k, p);
    }
  }

  /** `map.entry(left).or_default().insert(right)` */
  function AddRule(succ: SuccessorMap, rule: (nat, nat)): SuccessorMap {
    succ[rule.0 := (if rule.0 in succ then succ[rule.0] else {}) + {rule.1}]
  }

  /** The fold of get_successors: b is a successor of a exactly when "a|b" is a
      rule, and every page in the map has at least one successor. */
  function Successors(rules: seq<(nat, nat)>): (m: SuccessorMap)
    ensures forall a: nat, b: nat :: Before(m, a, b) <==> (a, b) in rules
    ensures forall a :: a in m ==> m[a] != {}
  {
    if rules == [] then map[]
    else
      var init := rules[..|rules| - 1];
      var m0 := Successors(init);
      var m := AddRule(m0, rules[|rules| - 1]);
      assert rules == init + [rules[|rules| - 1]];
      assert forall a: nat, b: nat :: Before(m, a, b) <==> (Before(m0, a, b) || (a, b) == rules[|rules| - 1]);
      m
  }

  /** get_successors */
  function GetSuccessors(lines: seq<string>): Option<SuccessorMap> {
    var rules := GetRules(lines);
    if rules.Some? then Some(Successors(rules.value)) else None
  }

  /** Every "l|r" line of the input puts r among the successors of l. */
  lemma RuleLineIsSuccessor(lines: seq<string>, k: nat)
    requires GetSuccessors(lines).Some?
    requires k < |lines| && '|' in lines[k]
    ensures ParseRule(lines[k]).Some?
    ensures Before(GetSuccessors(lines).value, ParseRule(lines[k]).value.0, ParseRule(lines[k]).value.1)
  {
    var rules := GetRules(lines).value;
    var p := ParseRule(lines[k]).value;
    GetRulesComplete(lines, k, p);
    assert p == (p.0, p.1);
  }

  /** The lines get_orderings reads: non-empty and without '|', in order. */
  function OrderingLines(lines: seq<string>): (r: seq<string>)
    ensures forall l :: l in r ==> l in lines && l != [] && '|' !in l
    ensures forall k :: 0 <= k < |lines| && lines[k] != [] && '|' !in lines[k] ==> lines[k] in r
  {
    if lines == [] then []
    else
      var rest := OrderingLines(lines[1..]);
      assert forall k :: 0 < k < |lines| ==> lines[k] == lines[1..][k - 1];
      if lines[0] != [] && '|' !in lines[0] then [lines[0]] + rest else rest
  }

  /** Each field parsed as a u32, or None if one does not parse. */
  function ParseNumbers(fields: seq<string>): (r: Option<seq<nat>>)
    ensures r.Some? <==> forall k :: 0 <= k < |fields| ==> ParseU32(fields[k]).Some?
    ensures r.Some? ==> |r.value| == |fields|
    ensures r.Some? ==> forall k :: 0 <= k < |fields| ==> ParseU32(fields[k]) == Some(r.value[k])
  {
    ReadAll(ParseU32, fields)
  }

  /** One update line: its pages split at ','; every update read has at
      least one page. */
  function ParseOrdering(line: string): (r: Option<seq<nat>>)
    ensures r.Some? ==> |r.value| == |SplitOn(line, ',')| >= 1
  {
    ParseNumbers(SplitOn(line, ','))
  }

  /** The updates of the ordering lines, or None if one of them does not parse. */
  function ParseOrderings(ls: seq<string>): (r: Option<seq<seq<nat>>>)
    ensures r.Some? <==> forall k :: 0 <= k < |ls| ==> ParseOrdering(ls[k]).Some?
    ensures r.Some? ==> |r.value| == |ls|
    ensures r.Some? ==> forall k :: 0 <= k < |ls| ==> ParseOrdering(ls[k]) == Some(r.value[k])
    ensures r.Some? ==> forall k :: 0 <= k < |ls| ==> |r.value[k]| >= 1
  {
    ReadAll(ParseOrdering, ls)
  }

  /** get_orderings */
  function GetOrderings(lines: seq<string>): Option<seq<seq<nat>>> {
    ParseOrderings(OrderingLines(lines))
  }

  /** The pages written out in decimal. */
  function Decimals(o: seq<nat>): (r: seq<string>)
    ensures |r| == |o|
    ensures forall k :: 0 <= k < |o| ==> r[k] == Decimal(o[k])
  {
    if o == [] then [] else [Decimal(o[0])] + Decimals(o[1..])
  }

  /** An update written out as comma-separated pages reads back as itself. */
  lemma OrderingRendered(o: seq<nat>)
    requires |o| >= 1
    requires forall k :: 0 <= k < |o| ==> o[k] < U32Limit
    ensures ParseNumbers(SplitOn(Join(Decimals(o), ","), ',')) == Some(o)
  {
    var ds := Decimals(o);
    forall k | 0 <= k < |ds| ensures ',' !in ds[k] && ParseU32(ds[k]) == Some(o[k]) {
      ParseU32Decimal(o[k]);
      forall i | 0 <= i < |ds[k]| ensures ds[k][i] != ',' { assert IsDigit(ds[k][i]); }
    }
    SplitOnJoin(ds, ',');
    assert SplitOn(Join(ds, ","), ',') == ds;
    var r := ParseNumbers(ds);
    assert r.Some?;
    assert r.value == o;
  }

  // ---------------------------------------------------------------------------
  // Checking an update

  /** violation: the second page must come before the first. */
  predicate Violation(first: nat, second: nat, succ: SuccessorMap) {
    Before(succ, second, first)
  }

  /** No page of the update is preceded by one of its successors. */
  predicate NoViolations(o: seq<nat>, succ: SuccessorMap) {
    forall i, j :: 0 <= i < j < |o| ==> !Violation(o[i], o[j], succ)
  }

  /** correct_order: `all` over the positions i of `all` over the positions
      after it. */
  predicate CorrectOrder(o: seq<nat>, succ: SuccessorMap) {
    CorrectFrom(o, 0, succ)
  }

  predicate CorrectFrom(o: seq<nat>, i: nat, succ: SuccessorMap)
    decreases |o| - i
  {
    i >= |o| || (NoneAfterViolates(o, i, i + 1, succ) && CorrectFrom(o, i + 1, succ))
  }

  predicate NoneAfterViolates(o: seq<nat>, i: nat, j: nat, succ: SuccessorMap)
    requires i < |o|
    decreases |o| - j
  {
    j >= |o| || (!Violation(o[i], o[j], succ) && NoneAfterViolates(o, i, j + 1, succ))
  }

  lemma {:induction false} NoneAfterViolatesIff(o: seq<nat>, i: nat, j: nat, succ: SuccessorMap)
    requires i < |o|
    ensures NoneAfterViolates(o, i, j, succ) <==>
      forall j' :: j <= j' < |o| ==> !Violation(o[i], o[j'], succ)
    decreases |o| - j
  {
    if j < |o| {
      NoneAfterViolatesIff(o, i, j + 1, succ);
    }
  }

  lemma {:induction false} CorrectFromIff(o: seq<nat>, i: nat, succ: SuccessorMap)
    ensures CorrectFrom(o, i, succ) <==>
      forall i', j :: i <= i' < j < |o| ==> !Violation(o[i'], o[j], succ)
    decreases |o| - i
  {
    if i < |o| {
      NoneAfterViolatesIff(o, i, i + 1, succ);
      CorrectFromIff(o, i + 1, succ);
    }
  }

  /** correct_order holds exactly when no later page must come before an earlier one. */
  lemma CorrectOrderIff(o: seq<nat>, succ: SuccessorMap)
    ensures CorrectOrder(o, succ) <==> NoViolations(o, succ)
  {
    CorrectFromIff(o, 0, succ);
  }

  // ---------------------------------------------------------------------------
  // Reordering

  datatype Comparison = Less | Equal | Greater

  /** The comparator of reorder: Less when a rule puts the first page before
      the second, otherwise Greater when one puts the second before the first,
      otherwise Equal. */
  function Compare(first: nat, second: nat, succ: SuccessorMap): (c: Comparison)
    ensures c == Less <==> Before(succ, first, second)
    ensures c == Greater <==> !Before(succ, first, second) && Before(succ, second, first)
    ensures c == Equal <==> !Before(succ, first, second) && !Before(succ, second, first)
  {
    if first in succ && second in succ[first] then Less
    else if second in succ && first in succ[second] then Greater
    else Equal
  }

  /** Without a pair of contradicting rules, swapping the pages swaps Less and Greater. */
  lemma CompareSwapped(a: nat, b: nat, succ: SuccessorMap)
    requires !(Before(succ, a, b) && Before(succ, b, a))
    ensures Compare(a, b, succ) == Less <==> Compare(b, a, succ) == Greater
    ensures Compare(a, b, succ) == Equal <==> Compare(b, a, succ) == Equal
  {
  }

  /** The stable sort by the comparator, as a value: the last page is inserted
      into the sorted rest, moving left past every page it compares Less to. */
  function SortBy(s: seq<nat>, succ: SuccessorMap): (r: seq<nat>)
    ensures |r| == |s|
  {
    if s == [] then []
    else
      InsertBack(s[|s| - 1], SortBy(s[..|s| - 1], succ), succ)
  }

  function InsertBack(x: nat, t: seq<nat>, succ: SuccessorMap): (r: seq<nat>)
    ensures |r| == |t| + 1
  {
    if t != [] && Compare(x, t[|t| - 1], succ) == Less then
      InsertBack(x, t[..|t| - 1], succ) + [t[|t| - 1]]
    else t + [x]
  }

  lemma {:induction false} InsertBackPermutes(x: nat, t: seq<nat>, succ: SuccessorMap)
    ensures multiset(InsertBack(x, t, succ)) == multiset(t) + multiset{x}
    decreases |t|
  {
    if t != [] && Compare(x, t[|t| - 1], succ) == Less {
      InsertBackPermutes(x, t[..|t| - 1], succ);
      assert t == t[..|t| - 1] + [t[|t| - 1]];
    }
  }

  /** reorder only rearranges the pages of the update. */
  lemma {:induction false} SortByPermutes(s: seq<nat>, succ: SuccessorMap)
    ensures multiset(SortBy(s, succ)) == multiset(s)
    decreases |s|
  {
    if s != [] {
      var init, x := s[..|s| - 1], s[|s| - 1];
      var t := SortBy(init, succ);
      assert SortBy(s, succ) == InsertBack(x, t, succ);
      SortByPermutes(init, succ);
      InsertBackPermutes(x, t, succ);
      assert multiset(s) == multiset(init) + multiset{x} by { assert s == init + [x]; }
    }
  }

  /** The rules order a set of pages strictly and totally: no page before
      itself, any two different pages ordered one way, and transitively. */
  predicate StrictTotal(succ: SuccessorMap, pages: set<nat>) {
    (forall a :: a in pages ==> !Before(succ, a, a)) &&
    (forall a, b :: a in pages && b in pages && a != b ==> Before(succ, a, b) || Before(succ, b, a)) &&
    (forall a, b, c :: a in pages && b in pages && c in pages && Before(succ, a, b) && Before(succ, b, c) ==>
      Before(succ, a, c))
  }

  predicate Within(s: seq<nat>, pages: set<nat>) {
    forall k :: 0 <= k < |s| ==> s[k] in pages
  }

  lemma {:induction false} InsertBackSorted(x: nat, t: seq<nat>, succ: SuccessorMap, pages: set<nat>)
    requires StrictTotal(succ, pages) && Within(t, pages) && x in pages
    requires NoViolations(t, succ)
    ensures NoViolations(InsertBack(x, t, succ), succ)
    decreases |t|
  {
    if t != [] && Compare(x, t[|t| - 1], succ) == Less {
      var init, last := t[..|t| - 1], t[|t| - 1];
      InsertBackSorted(x, init, succ, pages);
      var r' := InsertBack(x, init, succ);
      InsertBackPermutes(x, init, succ);
      var r := r' + [last];
      forall i | 0 <= i < |r'| ensures !Before(succ, last, r'[i]) {
        assert r'[i] in multiset(init) + multiset{x};
        if r'[i] != x {
          var k :| 0 <= k < |init| && init[k] == r'[i];
          assert t[k] == init[k];
        }
      }
      forall i, j | 0 <= i < j < |r| ensures !Violation(r[i], r[j], succ) {
        if j < |r'| {
          assert r[i] == r'[i] && r[j] == r'[j];
        }
      }
    } else if t != [] {
      var last := t[|t| - 1];
      var r := t + [x];
      forall i | 0 <= i < |t| ensures !Before(succ, x, t[i]) {
        if i < |t| - 1 && t[i] != last {
          assert !Before(succ, last, t[i]);
        }
      }
      forall i, j | 0 <= i < j < |r| ensures !Violation(r[i], r[j], succ) {
        if j < |t| {
          assert r[i] == t[i] && r[j] == t[j];
        }
      }
    }
  }

  /** When the rules order the pages of an update strictly and totally, the
      reordered update is in the right order. */
  lemma {:induction false} SortBySorted(s: seq<nat>, succ: SuccessorMap, pages: set<nat>)
    requires StrictTotal(succ, pages) && Within(s, pages)
    ensures NoViolations(SortBy(s, succ), succ)
    decreases |s|
  {
    if s != [] {
      var init := s[..|s| - 1];
      SortBySorted(init, succ, pages);
      var t := SortBy(init, succ);
      SortByPermutes(init, succ);
      forall k | 0 <= k < |t| ensures t[k] in pages {
        assert t[k] in multiset(init);
        var i :| 0 <= i < |init| && init[i] == t[k];
        assert s[i] == init[i];
      }
      InsertBackSorted(s[|s| - 1], t, succ, pages);
    }
  }

  /** An update already in the right order is left as it is. */
  lemma {:induction false} SortByCorrect(s: seq<nat>, succ: SuccessorMap)
    requires NoViolations(s, succ)
    ensures SortBy(s, succ) == s
    decreases |s|
  {
    if s != [] {
      var init := s[..|s| - 1];
      assert NoViolations(init, succ) by {
        forall i, j | 0 <= i < j < |init| ensures !Violation(init[i], init[j], succ) {
          assert init[i] == s[i] && init[j] == s[j];
        }
      }
      SortByCorrect(init, succ);
      if |init| > 0 {
        assert !Violation(s[|s| - 2], s[|s| - 1], succ);
      }
      assert s == init + [s[|s| - 1]];
    }
  }

  /** The sort by the comparator, in place in the array (reorder's `sort_by`). */
  method Reorder(ordering: array<nat>, succ: SuccessorMap)
    modifies ordering
    ensures ordering[..] == SortBy(old(ordering[..]), succ)
  {
    ghost var s := ordering[..];
    var i := 0;
    while i < ordering.Length
      invariant 0 <= i <= ordering.Length
      invariant ordering[..i] == SortBy(s[..i], succ)
      invariant forall k :: i <= k < ordering.Length ==> ordering[k] == s[k]
    {
      SortByStep(s, i, succ);
      InsertLast(ordering, i, succ);
      i := i + 1;
    }
    assert ordering[..] == ordering[..i] && s == s[..i];
  }

  lemma SortByStep(s: seq<nat>, i: nat, succ: SuccessorMap)
    requires i < |s|
    ensures SortBy(s[..i + 1], succ) == InsertBack(s[i], SortBy(s[..i], succ), succ)
  {
    assert s[..i + 1][..i] == s[..i] && s[..i + 1][i] == s[i];
  }

  /** Moves a[i] left into the sorted prefix a[..i]. */
  method InsertLast(a: array<nat>, i: nat, succ: SuccessorMap)
    requires i < a.Length
    modifies a
    ensures a[..i + 1] == InsertBack(old(a[i]), old(a[..i]), succ)
    ensures forall k :: i < k < a.Length ==> a[k] == old(a[k])
  {
    ghost var t := a[..i];
    var x := a[i];
    var j := MakeRoom(a, i, x, succ);
    a[j] := x;
    ghost var r := t[..j] + [x] + t[j..];
    forall k | 0 <= k <= i ensures a[k] == r[k] {
      if k < j {
        assert r[k] == t[k];
      } else if k > j {
        assert r[k] == t[k - 1];
      }
    }
    assert a[..i + 1] == r;
  }

  /** The loop of the insertion: shifts right the pages of a[..i] that x
      compares Less to, and returns the place left free for x. */
  method MakeRoom(a: array<nat>, i: nat, x: nat, succ: SuccessorMap) returns (j: nat)
    requires i < a.Length
    modifies a
    ensures j <= i
    ensures forall k :: 0 <= k < j ==> a[k] == old(a[k])
    ensures forall k :: j < k <= i ==> a[k] == old(a[k - 1])
    ensures forall k :: i < k < a.Length ==> a[k] == old(a[k])
    ensures InsertBack(x, old(a[..i]), succ) == old(a[..i])[..j] + [x] + old(a[..i])[j..]
  {
    ghost var t := a[..i];
    j := i;
    assert t[..j] == t && t[j..] == [];
    while j > 0 && Compare(x, a[j - 1], succ) == Less
      invariant 0 <= j <= i
      invariant forall k :: 0 <= k < j ==> a[k] == t[k]
      invariant forall k :: j < k <= i ==> a[k] == t[k - 1]
      invariant forall k :: i < k < a.Length ==> a[k] == old(a[k])
      invariant InsertBack(x, t, succ) == InsertBack(x, t[..j], succ) + t[j..]
      decreases j
    {
      assert a[j - 1] == t[j - 1];
      InsertBackStep(x, t, j, succ);
      a[j] := a[j - 1];
      j := j - 1;
    }
    InsertBackStop(x, t, j, succ);
  }

  /** One move of the inserted page past a page it compares Less to. */
  lemma InsertBackStep(x: nat, t: seq<nat>, j: nat, succ: SuccessorMap)
    requires 0 < j <= |t| && Compare(x, t[j - 1], succ) == Less
    ensures InsertBack(x, t[..j], succ) + t[j..] == InsertBack(x, t[..j - 1], succ) + t[j - 1..]
  {
    assert t[..j][..j - 1] == t[..j - 1] && t[..j][j - 1] == t[j - 1];
    AppendAssoc(InsertBack(x, t[..j - 1], succ), [t[j - 1]], t[j..]);
    assert [t[j - 1]] + t[j..] == t[j - 1..];
  }

  /** The inserted page stops before a page it does not compare Less to. */
  lemma InsertBackStop(x: nat, t: seq<nat>, j: nat, succ: SuccessorMap)
    requires j <= |t| && (j == 0 || Compare(x, t[j - 1], succ) != Less)
    ensures InsertBack(x, t[..j], succ) + t[j..] == t[..j] + [x] + t[j..]
  {
  }

  // ---------------------------------------------------------------------------
  // The challenges

  predicate AllNonEmpty(orderings: seq<seq<nat>>) {
    forall k :: 0 <= k < |orderings| ==> |orderings[k]| >= 1
  }

  /** `ordering[ordering.len() / 2]` */
  function Middle(o: seq<nat>): (m: nat)
    requires |o| >= 1
    ensures m in o
  {
    o[|o| / 2]
  }

  /** challenge_1's sum: the middle pages of the correct updates. */
  function SumCorrectMiddles(orderings: seq<seq<nat>>, succ: SuccessorMap): nat
    requires AllNonEmpty(orderings)
  {
    if orderings == [] then 0
    else
      var o := orderings[|orderings| - 1];
      SumCorrectMiddles(orderings[..|orderings| - 1], succ) + (if CorrectOrder(o, succ) then Middle(o) else 0)
  }

  /** challenge_2's sum: the middle pages of the incorrect updates once reordered. */
  function SumReorderedMiddles(orderings: seq<seq<nat>>, succ: SuccessorMap): nat
    requires AllNonEmpty(orderings)
  {
    if orderings == [] then 0
    else
      var o := orderings[|orderings| - 1];
      SumReorderedMiddles(orderings[..|orderings| - 1], succ) +
        (if !CorrectOrder(o, succ) then Middle(SortBy(o, succ)) else 0)
  }

  /** The middle pages of every update after reordering. */
  function SumSortedMiddles(orderings: seq<seq<nat>>, succ: SuccessorMap): nat
    requires AllNonEmpty(orderings)
  {
    if orderings == [] then 0
    else
      var o := orderings[|orderings| - 1];
      SumSortedMiddles(orderings[..|orderings| - 1], succ) + Middle(SortBy(o, succ))
  }

  /** The two challenges split the updates between them: together they sum the
      middle page of every update once it is reordered, a correct update
      being its own reordering. */
  lemma {:induction false} ChallengesPartition(orderings: seq<seq<nat>>, succ: SuccessorMap)
    requires AllNonEmpty(orderings)
    ensures SumCorrectMiddles(orderings, succ) + SumReorderedMiddles(orderings, succ) ==
      SumSortedMiddles(orderings, succ)
    decreases |orderings|
  {
    if orderings != [] {
      var o := orderings[|orderings| - 1];
      ChallengesPartition(orderings[..|orderings| - 1], succ);
      if CorrectOrder(o, succ) {
        CorrectOrderIff(o, succ);
        SortByCorrect(o, succ);
      }
    }
  }

  /** The number of updates that are (or are not) in the right order. */
  function CountCorrect(orderings: seq<seq<nat>>, succ: SuccessorMap, correct: bool): (n: nat)
    ensures n <= |orderings|
  {
    if orderings == [] then 0
    else
      var o := orderings[|orderings| - 1];
      CountCorrect(orderings[..|orderings| - 1], succ, correct) + (if CorrectOrder(o, succ) == correct then 1 else 0)
  }

  /** Every update is selected by exactly one of the two challenges' filters. */
  lemma {:induction false} FiltersPartition(orderings: seq<seq<nat>>, succ: SuccessorMap)
    ensures CountCorrect(orderings, succ, true) + CountCorrect(orderings, succ, false) == |orderings|
    decreases |orderings|
  {
    if orderings != [] {
      FiltersPartition(orderings[..|orderings| - 1], succ);
    }
  }

  /** challenge_1 on the lines of the input, or None where reading panics. */
  function Challenge1(lines: seq<string>): (r: Option<nat>)
    ensures r.Some? <==> GetSuccessors(lines).Some? && GetOrderings(lines).Some?
    ensures r.Some? ==> r.value == SumCorrectMiddles(GetOrderings(lines).value, GetSuccessors(lines).value)
  {
    var succ, orderings := GetSuccessors(lines), GetOrderings(lines);
    if succ.Some? && orderings.Some? then Some(SumCorrectMiddles(orderings.value, succ.value)) else None
  }

  /** challenge_2 on parsed updates: each incorrect update is copied into a
      buffer, reordered in place, and its middle page added. */
  method Challenge2(orderings: seq<seq<nat>>, succ: SuccessorMap) returns (total: nat)
    requires AllNonEmpty(orderings)
    ensures total == SumReorderedMiddles(orderings, succ)
  {
    total := 0;
    var k := 0;
    while k < |orderings|
      invariant 0 <= k <= |orderings|
      invariant total == SumReorderedMiddles(orderings[..k], succ)
    {
      var o := orderings[k];
      assert orderings[..k + 1][..k] == orderings[..k] && orderings[..k + 1][k] == o;
      if !CorrectOrder(o, succ) {
        var buffer := new nat[|o|](i requires 0 <= i < |o| => o[i]);
        assert buffer[..] == o;
        Reorder(buffer, succ);
        total := total + buffer[buffer.Length / 2];
      }
      k := k + 1;
    }
    assert orderings[..k] == orderings;
  }

  /** When the rules order the pages of every update strictly and totally,
      challenge 2 sums middle pages of correctly ordered updates. */
  lemma ReorderedAreCorrect(o: seq<nat>, succ: SuccessorMap, pages: set<nat>)
    requires StrictTotal(succ, pages) && Within(o, pages)
    ensures CorrectOrder(SortBy(o, succ), succ)
    ensures multiset(SortBy(o, succ)) == multiset(o)
  {
    SortBySorted(o, succ, pages);
    SortByPermutes(o, succ);
    CorrectOrderIff(SortBy(o, succ), succ);
  }
}
