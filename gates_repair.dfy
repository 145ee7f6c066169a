/** The search of 2024/day_24 for the pairs of gates whose output wires must be
    exchanged so that the circuit adds its two operands. */
module GateRepair {
  import opened Basics
  import opened LogicGates
  import opened MistakeScan

  type Switch = (string, string)

  /** `Aborted` is a panic of the search (an `unwrap` or `assert_eq!` that fails). */
  datatype SearchResult = Found(switches: seq<Switch>) | NotFound | Aborted

  /** The names of a list of switches, pair by pair. */
  function Flatten(switches: seq<Switch>): (names: seq<string>)
    ensures |names| == 2 * |switches|
    ensures forall i :: 0 <= i < |switches| ==> names[2 * i] == switches[i].0 && names[2 * i + 1] == switches[i].1
  {
    if switches == [] then []
    else
      var n := |switches| - 1;
      Flatten(switches[..n]) + [switches[n].0, switches[n].1]
  }

  lemma FlattenAppend(switches: seq<Switch>, s: Switch)
    ensures Flatten(switches + [s]) == Flatten(switches) + [s.0, s.1]
  {
    assert (switches + [s])[..|switches|] == switches;
  }

  /** `flatten_switches`: every name of every switch, sorted. */
  method FlattenSwitches(switches: seq<Switch>) returns (names: seq<string>)
    ensures SortedStrings(names) && multiset(names) == multiset(Flatten(switches))
  {
    var flat := [];
    for i := 0 to |switches|
      invariant flat == Flatten(switches[..i])
    {
      FlattenAppend(switches[..i], switches[i]);
      assert switches[..i + 1] == switches[..i] + [switches[i]];
      flat := flat + [switches[i].0, switches[i].1];
    }
    assert switches[..|switches|] == switches;
    names := SortStrings(flat);
  }

  lemma FlattenTwo(p: Switch, q: Switch)
    ensures Flatten([p, q]) == [p.0, p.1, q.0, q.1]
  {
    assert [p, q][..1] == [p];
  }

  lemma FourMultiset<T>(a: T, b: T, c: T, d: T)
    ensures multiset([b, c, a, d]) == multiset([a, b, c, d])
  {
    assert multiset([b, c, a, d]) == multiset{b, c, a, d};
    assert multiset{b, c, a, d} == multiset{a, b, c, d};
    assert multiset([a, b, c, d]) == multiset{a, b, c, d};
  }

  lemma FourSorted(a: string, b: string, c: string, d: string)
    requires StrLe(a, b) && StrLe(b, c) && StrLe(c, d)
    ensures SortedStrings([a, b, c, d])
  {
    var s := [a, b, c, d];
    assert forall i :: 0 <= i < |s| - 1 ==> StrLe(s[i], s[i + 1]);
    SortedStringsFromAdjacent(s);
  }

  /** Sorting the names of two switches whose four names are in the order a, b, c, d. */
  lemma FlattenFour(names: seq<string>, a: string, b: string, c: string, d: string)
    requires StrLe(a, b) && StrLe(b, c) && StrLe(c, d)
    requires SortedStrings(names) && multiset(names) == multiset(Flatten([(b, c), (a, d)]))
    ensures names == [a, b, c, d]
  {
    FlattenTwo((b, c), (a, d));
    FourMultiset(a, b, c, d);
    FourSorted(a, b, c, d);
    SortedStringsUnique(names, [a, b, c, d]);
  }

  /** The test at main.rs:520-532: whatever `FlattenSwitches` returns for
      [(b, c), (a, d)] is [a, b, c, d]. */
  lemma FlattenExample(names: seq<string>)
    requires SortedStrings(names) && multiset(names) == multiset(Flatten([("b", "c"), ("a", "d")]))
    ensures names == ["a", "b", "c", "d"]
  {
    assert StrLe("a", "b") && StrLe("b", "c") && StrLe("c", "d");
    FlattenFour(names, "a", "b", "c", "d");
  }

  /** The names of `switches` are distinct names of `keys` outside `bl`. */
  ghost predicate Fresh(switches: seq<Switch>, keys: seq<string>, bl: set<string>) {
    var names := Flatten(switches);
    && (forall i :: 0 <= i < |names| ==> names[i] in keys && names[i] !in bl)
    && (forall i, j :: 0 <= i < j < |names| ==> names[i] != names[j])
  }

  /** A pair the search may try: two distinct names of `keys`, neither in `bl`. */
  ghost predicate Candidate(s: Switch, keys: seq<string>, bl: set<string>) {
    s.0 in keys && s.1 in keys && s.0 != s.1 && s.0 !in bl && s.1 !in bl
  }

  /** Appending a switch of two fresh names keeps the names fresh. */
  lemma FreshExtend(switches: seq<Switch>, s: Switch, keys: seq<string>, bl: set<string>)
    requires Fresh(switches, keys, bl + {s.0, s.1}) && Candidate(s, keys, bl)
    ensures Fresh(switches + [s], keys, bl)
  {
    FlattenAppend(switches, s);
    var names := Flatten(switches + [s]);
    var n := |Flatten(switches)|;
    forall i, j | 0 <= i < j < |names| ensures names[i] != names[j] {
      if j == n + 1 && i < n {
        assert names[i] == Flatten(switches)[i];
      } else if j == n {
        assert names[i] == Flatten(switches)[i];
      }
    }
  }

  lemma AddRemove(bl: set<string>, a: string, b: string)
    requires a !in bl && b !in bl
    ensures bl + {a, b} - {a, b} == bl
  {
  }

  /** Every pair ranked by `quality` is a candidate that moves the first mistake above `position`. */
  ghost predicate Ranking(quality: map<Switch, nat>, keys: seq<string>, bl: set<string>, position: nat) {
    forall s :: s in quality ==> Candidate(s, keys, bl) && quality[s] > position
  }

  lemma RankingInsert(quality: map<Switch, nat>, keys: seq<string>, bl: set<string>, position: nat, s: Switch, v: nat)
    requires Ranking(quality, keys, bl, position) && Candidate(s, keys, bl) && v > position
    ensures Ranking(quality[s := v], keys, bl, position)
  {
  }

  /** `quality` holds exactly the probed switches whose position is above `position`,
      each with that position. */
  ghost predicate RankedBy<V>(quality: map<Switch, nat>, probes: map<Switch, (Option<nat>, V)>, position: nat)
  {
    && (forall s :: s in quality ==> s in probes && probes[s].0 == Some(quality[s]))
    && (forall s {:trigger probes[s]} :: s in probes && probes[s].0.Some? && probes[s].0.value > position ==> s in quality)
  }

  /** Recording one more probe, and ranking its switch when its position is above
      `position`, keeps the ranking exact. */
  lemma RankedByProbe<V>(quality: map<Switch, nat>, probes: map<Switch, (Option<nat>, V)>, position: nat,
                         s: Switch, p: Option<nat>, v: V)
    requires RankedBy(quality, probes, position) && s !in probes
    ensures var q := if p.Some? && p.value > position then quality[s := p.value] else quality;
            RankedBy(q, probes[s := (p, v)], position)
  {
  }

  /** Distinct keys: key i is not among the keys before it. */
  lemma NotInPrefix(keys: seq<string>, i: nat)
    requires i < |keys| && forall a, b :: 0 <= a < b < |keys| ==> keys[a] != keys[b]
    ensures keys[i] !in keys[..i]
  {
  }

  /** Distinct keys: key j is not among the keys lo .. j-1. */
  lemma NotInSlice(keys: seq<string>, lo: nat, j: nat)
    requires lo <= j < |keys| && forall a, b :: 0 <= a < b < |keys| ==> keys[a] != keys[b]
    ensures keys[j] !in keys[lo..j]
  {
  }

  /** Widening the slice lo .. j-1 by key j keeps its keys and adds key j. */
  lemma SliceGrows(keys: seq<string>, lo: nat, j: nat)
    requires lo <= j < |keys|
    ensures keys[j] in keys[lo..j + 1]
    ensures forall x :: x in keys[lo..j] ==> x in keys[lo..j + 1]
  {
    assert keys[lo..j + 1] == keys[lo..j] + [keys[j]];
  }

  lemma PrefixGrows(keys: seq<string>, i: nat)
    requires i < |keys|
    ensures keys[i] in keys[..i + 1]
    ensures forall x :: x in keys[..i] ==> x in keys[..i + 1]
  {
    SliceGrows(keys, 0, i);
    assert keys[..i] == keys[0..i] && keys[..i + 1] == keys[0..i + 1];
  }

  /** Row i of the ranking after the pairs (keys[i], keys[i+1]) .. (keys[i], keys[j-1]):
      the probes before the row are kept, the new ones pair keys[i] with one of those
      keys, and each of them that is not on the blacklist has been probed. */
  ghost predicate RowSoFar<V>(probes: map<Switch, V>, probes0: map<Switch, V>, keys: seq<string>, bl: set<string>,
                              i: nat, j: nat)
    requires i < j <= |keys|
  {
    && (forall s :: s in probes0 ==> s in probes)
    && (forall s :: s in probes ==> s in probes0 || (s.0 == keys[i] && s.1 in keys[i + 1..j]))
    && (forall k :: i < k < j && keys[k] !in bl ==> (keys[i], keys[k]) in probes)
  }

  /** The pair (keys[i], keys[j]) is not yet among the probes of the ranking's row i. */
  lemma ProbeFresh<V>(probes: map<Switch, V>, probes0: map<Switch, V>, keys: seq<string>, bl: set<string>, i: nat, j: nat)
    requires i < j < |keys| && forall a, b :: 0 <= a < b < |keys| ==> keys[a] != keys[b]
    requires RowsSoFar(probes0, keys, bl, i) && RowSoFar(probes, probes0, keys, bl, i, j)
    ensures (keys[i], keys[j]) !in probes
  {
    NotInPrefix(keys, i);
    NotInSlice(keys, i + 1, j);
  }

  /** Probing the pair (keys[i], keys[j]) unless keys[j] is on the blacklist extends the row. */
  lemma RowStep<V>(probes: map<Switch, V>, probes2: map<Switch, V>, probes0: map<Switch, V>, keys: seq<string>,
                   bl: set<string>, i: nat, j: nat, next: nat)
    requires i < j < |keys| && next == j + 1 && RowSoFar(probes, probes0, keys, bl, i, j)
    requires probes2.Keys == if keys[j] in bl then probes.Keys else probes.Keys + {(keys[i], keys[j])}
    ensures RowSoFar(probes2, probes0, keys, bl, i, next)
  {
    SliceGrows(keys, i + 1, j);
  }

  /** Rows 0 .. i-1 of the ranking: every probe pairs a key before keys[i] with another,
      and every pair of keys off the blacklist that starts there has been probed. */
  ghost predicate RowsSoFar<V>(probes: map<Switch, V>, keys: seq<string>, bl: set<string>, i: nat)
    requires i <= |keys|
  {
    && (forall s :: s in probes ==> s.0 in keys[..i])
    && (forall a, b :: 0 <= a < i && a < b < |keys| && keys[a] !in bl && keys[b] !in bl ==> (keys[a], keys[b]) in probes)
  }

  /** Row i, when keys[i] is off the blacklist, extends the rows before it. */
  lemma RowsStep<V>(probes: map<Switch, V>, probes2: map<Switch, V>, keys: seq<string>, bl: set<string>, i: nat)
    requires i < |keys| && RowsSoFar(probes, keys, bl, i)
    requires keys[i] in bl ==> probes2 == probes
    requires keys[i] !in bl ==> RowSoFar(probes2, probes, keys, bl, i, |keys|)
    ensures RowsSoFar(probes2, keys, bl, i + 1)
  {
    PrefixGrows(keys, i);
  }

  lemma RemoveKey(q: map<Switch, nat>, k: Switch, keys: seq<string>, bl: set<string>, position: nat)
    requires k in q && Ranking(q, keys, bl, position)
    ensures |q - {k}| < |q| && Ranking(q - {k}, keys, bl, position)
  {
    assert (q - {k}).Keys == q.Keys - {k};
  }

  /** Every name of a maximum-weight key of a non-empty map exists: `max_by_key` has an answer. */
  lemma {:induction false} MaxKeyExists(q: map<Switch, nat>)
    requires q != map[]
    ensures exists key :: key in q && forall k :: k in q ==> q[k] <= q[key]
    decreases |q|
  {
    var x :| x in q;
    var rest := q - {x};
    if rest == map[] {
      forall k | k in q ensures k == x {
        assert k !in rest;
      }
    } else {
      assert |rest| < |q| by {
        assert rest.Keys == q.Keys - {x};
      }
      MaxKeyExists(rest);
      var y :| y in rest && forall k :: k in rest ==> rest[k] <= rest[y];
      if q[x] <= q[y] {
        assert forall k :: k in q ==> q[k] <= q[y] by {
          forall k | k in q ensures q[k] <= q[y] {
            if k != x { assert k in rest; }
          }
        }
      } else {
        assert forall k :: k in q ==> q[k] <= q[x] by {
          forall k | k in q ensures q[k] <= q[x] {
            if k != x { assert k in rest; }
          }
        }
      }
    }
  }

  /** `_find_fixing_switches_inner` with its fixed arguments: the circuit, the
      candidate names `all_keys`, the wanted sum and, in place of the random
      inputs `check_gates` draws, the trials it runs. */
  class FixingSearch {
    const net: Network
    const allKeys: seq<string>
    const target: nat
    const trials: seq<seq<bool>>
    /** The names already switched on the current branch of the search. */
    var blacklist: set<string>

    ghost predicate Valid()
      reads this, net
    {
      && net.Valid() && net.Idle() && net.WidthsFit() && target < Pow(2, 64)
      && (forall k :: 0 <= k < |allKeys| ==> allKeys[k] in net.gateIndex)
      && (forall i, j :: 0 <= i < j < |allKeys| ==> allKeys[i] != allKeys[j])
      && (forall k :: 0 <= k < |trials| ==> |trials[k]| == |net.inputNames|)
    }

    /** The wiring and the gate operations, which the search puts back after each switch. */
    ghost function Shape(): (Wiring, seq<Op>)
      reads this, net
    {
      (net.WiringOf(), Ops(net.gates))
    }

    constructor (net: Network, allKeys: seq<string>, target: nat, trials: seq<seq<bool>>)
      requires net.Valid() && net.Idle() && net.WidthsFit() && target < Pow(2, 64)
      requires forall k :: 0 <= k < |allKeys| ==> allKeys[k] in net.gateIndex
      requires forall i, j :: 0 <= i < j < |allKeys| ==> allKeys[i] != allKeys[j]
      requires forall k :: 0 <= k < |trials| ==> |trials[k]| == |net.inputNames|
      ensures Valid() && blacklist == {}
      ensures this.net == net && this.allKeys == allKeys && this.target == target && this.trials == trials
    {
      this.net := net;
      this.allKeys := allKeys;
      this.target := target;
      this.trials := trials;
      blacklist := {};
    }

    /** The body of `_find_fixing_switches_inner`: propagate the inputs, give up on a
        circular connection or on a first wrong output bit below `minMistake`; with no
        switch left, run `check_gates`; with the sum already right, pad with further
        switches; otherwise try the switches that move the first mistake up. */
    method Inner(minMistake: nat, numSwitches: nat) returns (r: SearchResult)
      requires Valid()
      modifies this, net
      ensures Valid()
      ensures r != Aborted ==> Shape() == old(Shape()) && blacklist == old(blacklist)
      ensures r.Found? ==> |r.switches| == numSwitches && Fresh(r.switches, allKeys, old(blacklist))
      decreases numSwitches, 3
    {
      var acyclic, mistake := Assess();
      if !acyclic || (mistake.Some? && (mistake.value < minMistake || numSwitches == 0)) {
        r := NotFound;
      } else if numSwitches == 0 {
        ghost var start, seen;
        r, start, seen := Verify();
      } else if mistake.None? {
        r := Pad(numSwitches);
        if r == NotFound {
          // `mistake_position_opt.unwrap()` on None
          r := Aborted;
        }
      } else {
        var quality;
        ghost var probes;
        quality, probes := RankSwitches(mistake.value);
        r := TryRanked(quality, mistake.value, numSwitches);
      }
    }

    /** Propagate the inputs; on success, the first output bit that differs from the
        wanted sum. */
    method Assess() returns (acyclic: bool, mistake: Option<nat>)
      requires Valid()
      modifies net
      ensures Valid() && Shape() == old(Shape())
      ensures InputValues(net.values, net.wireIndex, net.inputNames) == old(InputValues(net.values, net.wireIndex, net.inputNames))
      ensures old(net.Acyclic()) ==> acyclic
      ensures acyclic ==> net.ReadableIn(net.values) && FirstMistake(target, net.OutputIn(net.values), mistake)
      ensures !acyclic ==> mistake.None?
    {
      var st := net.ForwardInput();
      acyclic := st == Ok;
      mistake := None;
      if acyclic {
        var output := net.GetOutputValue();
        mistake := FindFirstMistakeOutput(target, output);
      }
    }

    /** With every switch spent and the sum right: `check_gates` decides. */
    method Verify() returns (r: SearchResult, ghost start: seq<Option<bool>>, ghost seen: seq<seq<Option<bool>>>)
      requires Valid()
      modifies net
      ensures Valid()
      ensures r != Aborted ==> Shape() == old(Shape())
      ensures r.Found? ==> r.switches == []
      ensures r != Aborted ==> net.ReadableIn(start) && net.AddsIn(start) && net.TrialsReport(trials, seen, Done(r.Found?))
      ensures old(net.Acyclic()) ==> net.ReadableIn(start) && (r != Aborted <==> net.AddsIn(start))
    {
      var ok;
      ok, start, seen := net.CheckGates(trials);
      r := if ok.Panicked? then Aborted else if ok.value then Found([]) else NotFound;
    }

    /** Switch a and b and put them on the blacklist. */
    method Enter(a: string, b: string)
      requires Valid() && a in net.gateIndex && b in net.gateIndex
      modifies this, net
      ensures Valid() && blacklist == old(blacklist) + {a, b}
      ensures Switchable(old(net.WiringOf()), a, b) && Drives(old(net.WiringOf()))
      ensures net.WiringOf() == Switched(old(net.WiringOf()), a, b) && Ops(net.gates) == old(Ops(net.gates))
    {
      assert Drives(net.WiringOf());
      net.SwitchGateOutputs(a, b);
      blacklist := blacklist + {a, b};
    }

    /** Take a and b off the blacklist and switch them back. */
    method Leave(a: string, b: string, ghost w0: Wiring)
      requires Valid() && Switchable(w0, a, b) && Drives(w0) && net.WiringOf() == Switched(w0, a, b)
      modifies this, net
      ensures Valid() && blacklist == old(blacklist) - {a, b}
      ensures net.WiringOf() == w0 && Ops(net.gates) == old(Ops(net.gates))
    {
      SwitchedTwice(w0, a, b);
      net.SwitchGateOutputs(a, b);
      blacklist := blacklist - {a, b};
    }

    /** Switch a and b, search on with one switch fewer, then switch back; a found
        fix gets (a, b) appended. */
    method Explore(a: string, b: string, minMistake: nat, numSwitches: nat) returns (r: SearchResult)
      requires Valid() && numSwitches >= 1 && Candidate((a, b), allKeys, blacklist)
      modifies this, net
      ensures Valid()
      ensures r != Aborted ==> Shape() == old(Shape()) && blacklist == old(blacklist)
      ensures r.Found? ==> |r.switches| == numSwitches && Fresh(r.switches, allKeys, old(blacklist))
      decreases numSwitches, 0
    {
      ghost var w0 := net.WiringOf();
      ghost var bl0 := blacklist;
      Enter(a, b);
      r := Inner(minMistake, numSwitches - 1);
      if r != Aborted {
        Leave(a, b, w0);
        AddRemove(bl0, a, b);
        if r.Found? {
          FreshExtend(r.switches, (a, b), allKeys, bl0);
          r := Found(r.switches + [(a, b)]);
        }
      }
    }

    /** The padding loops: with the sum already right, try every pair of candidates
        not yet switched, with the width of the output plus one as the new bound. */
    method Pad(numSwitches: nat) returns (r: SearchResult)
      requires Valid() && numSwitches >= 1
      modifies this, net
      ensures Valid()
      ensures r != Aborted ==> Shape() == old(Shape()) && blacklist == old(blacklist)
      ensures r.Found? ==> |r.switches| == numSwitches && Fresh(r.switches, allKeys, old(blacklist))
      decreases numSwitches, 2
    {
      // The number of output wires does not depend on the wiring.
      var width := net.NumOutputs();
      r := NotFound;
      var i := 0;
      while i < |allKeys| && r == NotFound
        invariant i <= |allKeys| && Valid()
        invariant r != Aborted ==> Shape() == old(Shape()) && blacklist == old(blacklist)
        invariant r.Found? ==> |r.switches| == numSwitches && Fresh(r.switches, allKeys, old(blacklist))
      {
        if allKeys[i] !in blacklist {
          r := PadRow(i, width + 1, numSwitches);
        }
        i := i + 1;
      }
    }

    /** The inner padding loop for the i-th candidate. */
    method PadRow(i: nat, minMistake: nat, numSwitches: nat) returns (r: SearchResult)
      requires Valid() && numSwitches >= 1 && i < |allKeys| && allKeys[i] !in blacklist
      modifies this, net
      ensures Valid()
      ensures r != Aborted ==> Shape() == old(Shape()) && blacklist == old(blacklist)
      ensures r.Found? ==> |r.switches| == numSwitches && Fresh(r.switches, allKeys, old(blacklist))
      decreases numSwitches, 1
    {
      var a := allKeys[i];
      r := NotFound;
      var j := i + 1;
      while j < |allKeys| && r == NotFound
        invariant j <= |allKeys| && Valid()
        invariant r != Aborted ==> Shape() == old(Shape()) && blacklist == old(blacklist)
        invariant r.Found? ==> |r.switches| == numSwitches && Fresh(r.switches, allKeys, old(blacklist))
      {
        var b := allKeys[j];
        if b !in blacklist {
          r := Explore(a, b, minMistake, numSwitches);
        }
        j := j + 1;
      }
    }

    /** What a probe of the switch s reports with the wire values `vals` left by the
        switched circuit: a position is the first wrong output bit against the wanted
        sum, or one past the width of the output when the sum is right; a switch that
        leaves the wiring w0 acyclic always gives a position. */
    ghost predicate Probed(s: Switch, position: Option<nat>, vals: seq<Option<bool>>, w0: Wiring)
    {
      && (position.Some? ==> net.ReadableIn(vals))
      && (position.Some? && net.OutputIn(vals) == target ==> position.value == net.Width('z') + 1)
      && (position.Some? && net.OutputIn(vals) != target ==> FirstMistake(target, net.OutputIn(vals), position))
      && (Switchable(w0, s.0, s.1) && net.AcyclicWith(Switched(w0, s.0, s.1).outs) ==> position.Some?)
    }

    /** Every recorded probe reports as `Probed` says. */
    ghost predicate ProbesHold(probes: map<Switch, (Option<nat>, seq<Option<bool>>)>, w0: Wiring)
    {
      forall s {:trigger Probed(s, probes[s].0, probes[s].1, w0)} :: s in probes ==> Probed(s, probes[s].0, probes[s].1, w0)
    }

    /** The state of the ranking between two probes: the search is intact, its wiring is
        `shape` again, and `quality` ranks exactly the recorded probes whose first mistake
        lies above `position`, each recorded against the wiring `w0`. */
    ghost predicate Kept(quality: map<Switch, nat>, probes: map<Switch, (Option<nat>, seq<Option<bool>>)>,
                         w0: Wiring, shape: (Wiring, seq<Op>), position: nat)
      reads this, net
    {
      && Valid() && Shape() == shape
      && Ranking(quality, allKeys, blacklist, position)
      && RankedBy(quality, probes, position) && ProbesHold(probes, w0)
    }

    lemma ProbesHoldAdd(probes: map<Switch, (Option<nat>, seq<Option<bool>>)>, w0: Wiring,
                        s: Switch, p: Option<nat>, vals: seq<Option<bool>>)
      requires ProbesHold(probes, w0) && Probed(s, p, vals, w0)
      ensures ProbesHold(probes[s := (p, vals)], w0)
    {
      var pr := probes[s := (p, vals)];
      forall t | t in pr ensures Probed(t, pr[t].0, pr[t].1, w0) {
        if t != s {
          assert pr[t] == probes[t];
        }
      }
    }

    /** The first loop of the ranking: every pair of candidates whose switch leaves
        the circuit acyclic and moves the first wrong output bit above `position`
        (a right sum counts as one past the width of the output), with that new position.
        `probes` records what each pair's probe gave and the wire values it left. */
    method RankSwitches(position: nat) returns (quality: map<Switch, nat>, ghost probes: map<Switch, (Option<nat>, seq<Option<bool>>)>)
      requires Valid()
      modifies net
      ensures Valid() && Shape() == old(Shape())
      ensures Ranking(quality, allKeys, blacklist, position)
      ensures RankedBy(quality, probes, position) && ProbesHold(probes, old(net.WiringOf()))
      ensures forall i, j :: 0 <= i < j < |allKeys| && allKeys[i] !in blacklist && allKeys[j] !in blacklist ==>
                (allKeys[i], allKeys[j]) in probes
    {
      ghost var w0 := net.WiringOf();
      quality, probes := map[], map[];
      for i := 0 to |allKeys|
        invariant Kept(quality, probes, w0, old(Shape()), position)
        invariant RowsSoFar(probes, allKeys, blacklist, i)
      {
        ghost var before := probes;
        if allKeys[i] !in blacklist {
          quality, probes := RankRow(i, position, quality, probes);
        }
        RowsStep(before, probes, allKeys, blacklist, i);
      }
    }

    /** The inner loop of the ranking for the i-th candidate. */
    method RankRow(i: nat, position: nat, quality0: map<Switch, nat>, ghost probes0: map<Switch, (Option<nat>, seq<Option<bool>>)>)
      returns (quality: map<Switch, nat>, ghost probes: map<Switch, (Option<nat>, seq<Option<bool>>)>)
      requires Kept(quality0, probes0, net.WiringOf(), Shape(), position)
      requires i < |allKeys| && allKeys[i] !in blacklist && RowsSoFar(probes0, allKeys, blacklist, i)
      modifies net
      ensures Kept(quality, probes, old(net.WiringOf()), old(Shape()), position)
      ensures RowSoFar(probes, probes0, allKeys, blacklist, i, |allKeys|)
    {
      ghost var w0, bl := net.WiringOf(), blacklist;
      quality, probes := quality0, probes0;
      var j := i + 1;
      while j < |allKeys|
        invariant i < j <= |allKeys|
        invariant Kept(quality, probes, w0, old(Shape()), position)
        invariant RowSoFar(probes, probes0, allKeys, bl, i, j)
      {
        ProbeFresh(probes, probes0, allKeys, bl, i, j);
        ghost var before, previous := probes, j;
        quality, probes := RankPair(i, j, position, quality, probes);
        j := j + 1;
        RowStep(before, probes, probes0, allKeys, bl, i, previous, j);
      }
    }

    /** One step of the inner loop: probe the pair (allKeys[i], allKeys[j]) unless the
        second name is switched already, and rank it when it moves the first mistake up. */
    method RankPair(i: nat, j: nat, position: nat, quality0: map<Switch, nat>,
                    ghost probes0: map<Switch, (Option<nat>, seq<Option<bool>>)>)
      returns (quality: map<Switch, nat>, ghost probes: map<Switch, (Option<nat>, seq<Option<bool>>)>)
      requires Kept(quality0, probes0, net.WiringOf(), Shape(), position)
      requires i < j < |allKeys| && allKeys[i] !in blacklist && (allKeys[i], allKeys[j]) !in probes0
      modifies net
      ensures Kept(quality, probes, old(net.WiringOf()), old(Shape()), position)
      ensures probes.Keys == if allKeys[j] in blacklist then probes0.Keys else probes0.Keys + {(allKeys[i], allKeys[j])}
    {
      ghost var w0 := net.WiringOf();
      quality, probes := quality0, probes0;
      var a, b := allKeys[i], allKeys[j];
      if b !in blacklist {
        var newPosition;
        ghost var after;
        newPosition, after := Probe(a, b);
        RankedByProbe(quality, probes, position, (a, b), newPosition, after);
        ProbesHoldAdd(probes, w0, (a, b), newPosition, after);
        if newPosition.Some? && newPosition.value > position {
          RankingInsert(quality, allKeys, blacklist, position, (a, b), newPosition.value);
          quality := quality[(a, b) := newPosition.value];
        }
        probes := probes[(a, b) := (newPosition, after)];
      }
    }

    /** One pair of the ranking: switch, propagate, switch back; the first wrong
        output bit of the switched circuit (one past the width of the output when
        the sum is right), or None on a circular connection. `after` is the wire values
        the switched circuit left. */
    method Probe(a: string, b: string) returns (position: Option<nat>, ghost after: seq<Option<bool>>)
      requires Valid() && a in net.gateIndex && b in net.gateIndex
      modifies net
      ensures Valid() && Shape() == old(Shape())
      ensures net.values == after && Probed((a, b), position, after, old(net.WiringOf()))
    {
      ghost var w0 := net.WiringOf();
      assert Drives(w0);
      net.SwitchGateOutputs(a, b);
      if net.AcyclicWith(Switched(w0, a, b).outs) {
        ghost var rk :| RankOrder(Switched(w0, a, b).outs, net.dependents, rk);
        assert net.Ranked(rk);
      }
      var acyclic, mistake := Assess();
      position := None;
      if acyclic {
        if mistake.Some? {
          position := mistake;
        } else {
          var width := net.NumOutputs();
          position := Some(width + 1);
        }
      }
      after := net.values;
      SwitchedTwice(w0, a, b);
      net.SwitchGateOutputs(a, b);
    }

    /** The second loop of the ranking: try the pairs best first until one leads to a
        fix (`max_by_key` breaks ties in hash order; here any best pair may come first). */
    method TryRanked(quality: map<Switch, nat>, position: nat, numSwitches: nat) returns (r: SearchResult)
      requires Valid() && numSwitches >= 1
      requires Ranking(quality, allKeys, blacklist, position)
      modifies this, net
      ensures Valid()
      ensures r != Aborted ==> Shape() == old(Shape()) && blacklist == old(blacklist)
      ensures r.Found? ==> |r.switches| == numSwitches && Fresh(r.switches, allKeys, old(blacklist))
      decreases numSwitches, 1
    {
      var remaining := quality;
      while remaining != map[]
        invariant Valid() && Shape() == old(Shape()) && blacklist == old(blacklist)
        invariant Ranking(remaining, allKeys, blacklist, position)
        decreases |remaining|
      {
        MaxKeyExists(remaining);
        var best :| best in remaining && forall k :: k in remaining ==> remaining[k] <= remaining[best];
        r := Explore(best.0, best.1, remaining[best], numSwitches);
        if r != NotFound {
          return;
        }
        RemoveKey(remaining, best, allKeys, blacklist, position);
        remaining := remaining - {best};
      }
      return NotFound;
    }
  }

  /** `find_fixing_switches`: search from an empty blacklist with no bound on the first
      mistake; `allKeys` are the names of the wires that are not primary inputs, which
      are the names of the gates, each once, in the map's (arbitrary) order. */
  method FindFixingSwitches(net: Network, allKeys: seq<string>, numSwitches: nat, trials: seq<seq<bool>>)
    returns (r: SearchResult)
    requires net.Valid() && net.Idle() && net.WidthsFit()
    requires forall k :: 0 <= k < |allKeys| ==> allKeys[k] in net.gateIndex
    requires forall n :: n in net.gateIndex ==> n in allKeys
    requires forall i, j :: 0 <= i < j < |allKeys| ==> allKeys[i] != allKeys[j]
    requires forall k :: 0 <= k < |trials| ==> |trials[k]| == |net.inputNames|
    modifies net
    ensures net.Valid() && net.Idle()
    ensures r != Aborted ==> net.WiringOf() == old(net.WiringOf()) && Ops(net.gates) == old(Ops(net.gates))
    ensures r.Found? ==> |r.switches| == numSwitches
    ensures r.Found? ==> var names := Flatten(r.switches);
      && (forall i :: 0 <= i < |names| ==> names[i] in allKeys)
      && (forall i, j :: 0 <= i < j < |names| ==> names[i] != names[j])
  {
    net.TargetSumFits();
    var target := net.TargetSum();
    var search := new FixingSearch(net, allKeys, target, trials);
    r := search.Inner(0, numSwitches);
  }
}
