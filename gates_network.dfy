/** The logic-gate network of 2024/day_24: wires and gates in an arena, eager
    depth-first propagation, and re-entrancy detection of circular wiring. */
module LogicGates {
  import opened Basics
  import opened GateBits

  datatype Op = And | Or | Xor

  /** The operation a gate applies (`new_and`, `new_or`, `new_xor`). */
  function Apply(op: Op, a: bool, b: bool): bool {
    match op
    case And => a && b
    case Or => a || b
    case Xor => a != b
  }

  /** Input slot of a gate: index 0 is `input1`, index 1 is `input2`. */
  datatype Slot = Input1 | Input2

  /** One entry of a wire's `user_gates`: the gate it feeds and the slot. */
  datatype Dependent = Dependent(gate: nat, slot: Slot)

  datatype Gate = Gate(op: Op, input1: Option<bool>, input2: Option<bool>, output: nat) {
    function Input(s: Slot): Option<bool> {
      if s == Input1 then input1 else input2
    }

    function WithInput(s: Slot, v: bool): (g: Gate)
      ensures g.op == op && g.output == output
      ensures g.Input(s) == Some(v)
      ensures forall t :: t != s ==> g.Input(t) == Input(t)
    {
      if s == Input1 then this.(input1 := Some(v)) else this.(input2 := Some(v))
    }

    predicate Ready() {
      input1.Some? && input2.Some?
    }
  }

  datatype Status = Ok | CircularConnectionError

  /** The result of a computation that may panic (`unwrap` on an error, `assert_eq!`). */
  datatype Outcome<T> = Done(value: T) | Panicked

  /** Gates not currently mid-activation; their number bounds the depth of propagation. */
  ghost function Inactive(active: seq<bool>): set<nat> {
    set g | 0 <= g < |active| && !active[g]
  }

  lemma InactiveActivate(active: seq<bool>, g: nat)
    requires g < |active| && !active[g]
    ensures |Inactive(active[g := true])| == |Inactive(active)| - 1
  {
    assert Inactive(active[g := true]) == Inactive(active) - {g};
  }

  /** The wire each gate drives. */
  function Outputs(gates: seq<Gate>): (outs: seq<nat>)
    ensures |outs| == |gates| && forall g :: 0 <= g < |gates| ==> outs[g] == gates[g].output
  {
    seq(|gates|, g requires 0 <= g < |gates| => gates[g].output)
  }

  function Ops(gates: seq<Gate>): (ops: seq<Op>)
    ensures |ops| == |gates| && forall g :: 0 <= g < |gates| ==> ops[g] == gates[g].op
  {
    seq(|gates|, g requires 0 <= g < |gates| => gates[g].op)
  }

  /** The two input slots of every gate. */
  function Slots(gates: seq<Gate>): (slots: seq<(Option<bool>, Option<bool>)>)
    ensures |slots| == |gates| && forall g :: 0 <= g < |gates| ==> slots[g] == (gates[g].input1, gates[g].input2)
  {
    seq(|gates|, g requires 0 <= g < |gates| => (gates[g].input1, gates[g].input2))
  }

  /** Same gates with the same operations and output wires (input slots may differ). */
  ghost predicate SameWiring(a: seq<Gate>, b: seq<Gate>) {
    Outputs(a) == Outputs(b) && Ops(a) == Ops(b)
  }

  lemma WiringUpdate(gates: seq<Gate>, g: nat, x: Gate)
    requires g < |gates| && x.op == gates[g].op && x.output == gates[g].output
    ensures SameWiring(gates, gates[g := x])
  {
    assert Outputs(gates[g := x]) == Outputs(gates);
    assert Ops(gates[g := x]) == Ops(gates);
  }

  /** Wire w is driven by no gate (driver -1) or by a gate that is mid-activation. */
  ghost predicate Settled(driver: seq<int>, active: seq<bool>, w: nat) {
    w < |driver| && (driver[w] < 0 || (driver[w] < |active| && active[driver[w]]))
  }

  /** A ranking of the gates that strictly increases from each gate to every gate its output feeds. */
  ghost predicate RankOrder(outs: seq<nat>, dependents: seq<seq<Dependent>>, rank: seq<nat>) {
    && |rank| == |outs|
    && (forall g :: 0 <= g < |outs| ==> outs[g] < |dependents|)
    && (forall w, k :: 0 <= w < |dependents| && 0 <= k < |dependents[w]| ==> dependents[w][k].gate < |outs|)
    && forall g, k :: 0 <= g < |outs| && 0 <= k < |dependents[outs[g]]| ==>
         rank[g] < rank[dependents[outs[g]][k].gate]
  }

  /** Every `user_gates` entry names an existing gate, and `feeder` locates it. */
  ghost predicate Fed(dependents: seq<seq<Dependent>>, feeder: map<Dependent, (nat, nat)>, numGates: nat) {
    forall w, k :: 0 <= w < |dependents| && 0 <= k < |dependents[w]| ==>
      dependents[w][k].gate < numGates && dependents[w][k] in feeder && feeder[dependents[w][k]] == (w, k)
  }

  /** What a propagation step from (vals0, gates0) to (vals1, gates1) leaves alone, given the
      borrow flags `act` at its start: the wiring, every wire settled with respect to `act`
      (except `w`), every borrowed gate, and every slot fed by such a settled wire other than
      `w`, except the slot `ex`. */
  ghost predicate Frame(deps: seq<seq<Dependent>>, driver: seq<int>, act: seq<bool>,
                        vals0: seq<Option<bool>>, gates0: seq<Gate>, vals1: seq<Option<bool>>, gates1: seq<Gate>,
                        w: int, ex: Option<Dependent>) {
    && |vals1| == |vals0| && |gates1| == |gates0| && SameWiring(gates0, gates1)
    && (forall i :: 0 <= i < |vals0| && i != w && Settled(driver, act, i) ==> vals1[i] == vals0[i])
    && (forall h :: 0 <= h < |gates0| && h < |act| && act[h] ==> gates1[h] == gates0[h])
    && (forall u, k :: (0 <= u < |deps| && 0 <= k < |deps[u]| && u != w && Settled(driver, act, u) &&
                        Some(deps[u][k]) != ex && deps[u][k].gate < |gates0|) ==>
          gates1[deps[u][k].gate].Input(deps[u][k].slot) == gates0[deps[u][k].gate].Input(deps[u][k].slot))
  }

  /** Storing a value on wire w and then propagating from w leaves alone what the propagation does. */
  lemma FrameAfterStore(deps: seq<seq<Dependent>>, driver: seq<int>, act: seq<bool>,
                        vals0: seq<Option<bool>>, gates0: seq<Gate>, vals1: seq<Option<bool>>, gates1: seq<Gate>,
                        w: nat, x: Option<bool>)
    requires w < |vals0|
    requires Frame(deps, driver, act, vals0[w := x], gates0, vals1, gates1, w, None)
    ensures Frame(deps, driver, act, vals0, gates0, vals1, gates1, w, None)
  {
  }

  /** Borrowing gate g, storing x into it and activating it leaves alone everything except
      the slot just written; gate g ends as x. */
  lemma FrameBorrow(deps: seq<seq<Dependent>>, driver: seq<int>, act: seq<bool>,
                    vals0: seq<Option<bool>>, gates0: seq<Gate>, vals1: seq<Option<bool>>, gates1: seq<Gate>,
                    g: nat, s: Slot, v: bool)
    requires g < |act| && !act[g] && g < |gates0|
    requires gates0[g].output < |driver| && driver[gates0[g].output] == g
    requires Frame(deps, driver, act[g := true], vals0, gates0[g := gates0[g].WithInput(s, v)], vals1, gates1,
                   gates0[g].output, None)
    ensures Frame(deps, driver, act, vals0, gates0, vals1, gates1, -1, Some(Dependent(g, s)))
    ensures gates1[g] == gates0[g].WithInput(s, v)
  {
    var x := gates0[g].WithInput(s, v);
    var mid := gates0[g := x];
    var act1 := act[g := true];
    var out := x.output;
    WiringUpdate(gates0, g, x);
    assert !Settled(driver, act, out);
    forall i | 0 <= i < |vals0| && Settled(driver, act, i)
      ensures vals1[i] == vals0[i]
    {
      assert Settled(driver, act1, i) && i != out;
    }
    forall u, k | (0 <= u < |deps| && 0 <= k < |deps[u]| && Settled(driver, act, u) &&
                   deps[u][k] != Dependent(g, s) && deps[u][k].gate < |gates0|)
      ensures gates1[deps[u][k].gate].Input(deps[u][k].slot) == gates0[deps[u][k].gate].Input(deps[u][k].slot)
    {
      assert Settled(driver, act1, u) && u != out;
      var d := deps[u][k];
      assert mid[d.gate].Input(d.slot) == gates0[d.gate].Input(d.slot);
    }
  }

  /** One round of the propagation loop from wire w: the frame from the loop's start extends
      over the k-th dependent, and slots already written keep their value. */
  lemma PropagateStep(deps: seq<seq<Dependent>>, driver: seq<int>, feeder: map<Dependent, (nat, nat)>, act: seq<bool>,
                      vals0: seq<Option<bool>>, gates0: seq<Gate>, valsk: seq<Option<bool>>, gatesk: seq<Gate>,
                      vals1: seq<Option<bool>>, gates1: seq<Gate>, w: nat, k: nat, v: Option<bool>)
    requires Fed(deps, feeder, |gates0|) && w < |deps| && w < |vals0| && k < |deps[w]| && Settled(driver, act, w)
    requires Frame(deps, driver, act, vals0, gates0, valsk, gatesk, w, None)
    requires Frame(deps, driver, act, valsk, gatesk, vals1, gates1, -1, Some(deps[w][k]))
    requires gates1[deps[w][k].gate].Input(deps[w][k].slot) == v
    requires forall j :: 0 <= j < k ==> gatesk[deps[w][j].gate].Input(deps[w][j].slot) == v
    ensures Frame(deps, driver, act, vals0, gates0, vals1, gates1, w, None)
    ensures vals1[w] == valsk[w]
    ensures forall j :: 0 <= j <= k ==> gates1[deps[w][j].gate].Input(deps[w][j].slot) == v
  {
    forall u, j | (0 <= u < |deps| && 0 <= j < |deps[u]| && u != w && Settled(driver, act, u) && deps[u][j].gate < |gates0|)
      ensures gates1[deps[u][j].gate].Input(deps[u][j].slot) == gates0[deps[u][j].gate].Input(deps[u][j].slot)
    {
      assert feeder[deps[u][j]] != feeder[deps[w][k]];
    }
    forall j | 0 <= j < k
      ensures gates1[deps[w][j].gate].Input(deps[w][j].slot) == v
    {
      assert feeder[deps[w][j]] != feeder[deps[w][k]];
    }
  }

  /** What propagation relies on: every index in range, `driver` names the one gate driving
      each wire (-1 for none), and `feeder` locates the single `user_gates` entry of each gate slot. */
  ghost predicate Wired(dependents: seq<seq<Dependent>>, numWires: nat, outs: seq<nat>, numActive: nat,
                        driver: seq<int>, feeder: map<Dependent, (nat, nat)>) {
    && numWires == |dependents| == |driver|
    && numActive == |outs|
    && Fed(dependents, feeder, |outs|)
    && (forall g :: 0 <= g < |outs| ==> outs[g] < numWires && driver[outs[g]] == g)
    && (forall i :: 0 <= i < |driver| && driver[i] >= 0 ==> driver[i] < |outs| && outs[driver[i]] == i)
  }

  /** The values on the wires called `names`, in order. */
  function InputValues(vals: seq<Option<bool>>, wireIndex: map<string, nat>, names: seq<string>): (r: seq<Option<bool>>)
    requires forall i :: 0 <= i < |names| ==> names[i] in wireIndex && wireIndex[names[i]] < |vals|
    ensures |r| == |names| && forall i :: 0 <= i < |names| ==> r[i] == vals[wireIndex[names[i]]]
  {
    if names == [] then [] else InputValues(vals, wireIndex, names[..|names| - 1]) + [vals[wireIndex[names[|names| - 1]]]]
  }

  /** Propagating from w changes no primary input: each is driven by no gate, and w keeps its value. */
  lemma InputsStay(deps: seq<seq<Dependent>>, driver: seq<int>, act: seq<bool>,
                   vals0: seq<Option<bool>>, gates0: seq<Gate>, vals1: seq<Option<bool>>, gates1: seq<Gate>,
                   w: nat, wireIndex: map<string, nat>, inputNames: seq<string>)
    requires Frame(deps, driver, act, vals0, gates0, vals1, gates1, w, None) && w < |vals0| && vals1[w] == vals0[w]
    requires forall i :: 0 <= i < |inputNames| ==> inputNames[i] in wireIndex && wireIndex[inputNames[i]] < |vals0|
    requires |driver| == |vals0|
    requires forall i :: 0 <= i < |inputNames| ==> inputNames[i] in wireIndex && driver[wireIndex[inputNames[i]]] < 0
    ensures InputValues(vals1, wireIndex, inputNames) == InputValues(vals0, wireIndex, inputNames)
  {
    var a, b := InputValues(vals1, wireIndex, inputNames), InputValues(vals0, wireIndex, inputNames);
    forall j | 0 <= j < |inputNames| ensures a[j] == b[j] {
      assert Settled(driver, act, wireIndex[inputNames[j]]);
    }
  }

  /** One round of assigning the primary inputs in order: input i now holds its bit and the
      inputs before it keep theirs. */
  lemma AssignStep(deps: seq<seq<Dependent>>, driver: seq<int>, act: seq<bool>,
                   vals0: seq<Option<bool>>, gates0: seq<Gate>, vals1: seq<Option<bool>>, gates1: seq<Gate>,
                   outs: seq<nat>, wireIndex: map<string, nat>, gateIndex: map<string, nat>, inputNames: seq<string>,
                   bits: seq<bool>, i: nat)
    requires i < |inputNames| == |bits|
    requires Named(|vals0|, outs, driver, wireIndex, gateIndex, inputNames)
    requires Frame(deps, driver, act, vals0, gates0, vals1, gates1, wireIndex[inputNames[i]], None)
    requires vals1[wireIndex[inputNames[i]]] == Some(bits[i])
    requires forall j :: 0 <= j < i ==> vals0[wireIndex[inputNames[j]]] == Some(bits[j])
    ensures forall j :: 0 <= j <= i ==> vals1[wireIndex[inputNames[j]]] == Some(bits[j])
  {
    forall j | 0 <= j < i ensures vals1[wireIndex[inputNames[j]]] == Some(bits[j]) {
      assert inputNames[j] != inputNames[i];
      assert Settled(driver, act, wireIndex[inputNames[j]]);
    }
  }

  /** What the loader guarantees about the names: every named wire exists, the gate map is
      keyed by output wire names, and primary inputs are distinct and driven by no gate. */
  ghost predicate Named(numWires: nat, outs: seq<nat>, driver: seq<int>,
                        wireIndex: map<string, nat>, gateIndex: map<string, nat>, inputNames: seq<string>) {
    && |driver| == numWires
    && (forall n :: n in wireIndex ==> wireIndex[n] < numWires)
    && (forall a, b :: a in wireIndex && b in wireIndex && a != b ==> wireIndex[a] != wireIndex[b])
    && (forall n :: n in gateIndex ==> n in wireIndex && gateIndex[n] < |outs| && outs[gateIndex[n]] == wireIndex[n])
    && (forall i :: 0 <= i < |inputNames| ==> inputNames[i] in wireIndex && driver[wireIndex[inputNames[i]]] < 0)
    && (forall i, j :: 0 <= i < j < |inputNames| ==> inputNames[i] != inputNames[j])
  }

  ghost predicate WellFormed(dependents: seq<seq<Dependent>>, numWires: nat, outs: seq<nat>, numActive: nat,
                             driver: seq<int>, feeder: map<Dependent, (nat, nat)>,
                             wireIndex: map<string, nat>, gateIndex: map<string, nat>, inputNames: seq<string>) {
    && Wired(dependents, numWires, outs, numActive, driver, feeder)
    && Named(numWires, outs, driver, wireIndex, gateIndex, inputNames)
  }

  /** The part of the arena that switching outputs rewires: each gate's output wire, the
      gate map, and the gate driving each wire. */
  datatype Wiring = Wiring(outs: seq<nat>, gateIndex: map<string, nat>, driver: seq<int>)

  ghost predicate Switchable(w: Wiring, n1: string, n2: string) {
    && n1 in w.gateIndex && n2 in w.gateIndex
    && w.gateIndex[n1] < |w.outs| && w.gateIndex[n2] < |w.outs|
    && w.outs[w.gateIndex[n1]] < |w.driver| && w.outs[w.gateIndex[n2]] < |w.driver|
  }

  /** `switch_gate_outputs`: the gates keyed n1 and n2 exchange their output wires and
      their entries in the gate map; the wires they now drive change driver accordingly. */
  ghost function Switched(w: Wiring, n1: string, n2: string): (r: Wiring)
    requires Switchable(w, n1, n2)
    ensures |r.outs| == |w.outs| && |r.driver| == |w.driver| && r.gateIndex.Keys == w.gateIndex.Keys
  {
    var g1, g2 := w.gateIndex[n1], w.gateIndex[n2];
    var o1, o2 := w.outs[g1], w.outs[g2];
    Wiring(w.outs[g1 := o2][g2 := o1], w.gateIndex[n1 := g2][n2 := g1], w.driver[o1 := g2][o2 := g1])
  }

  /** The gates with the output wires of g1 and g2 exchanged. */
  function SwapOutputs(gates: seq<Gate>, g1: nat, g2: nat): (r: seq<Gate>)
    requires g1 < |gates| && g2 < |gates|
    ensures Ops(r) == Ops(gates) && Slots(r) == Slots(gates)
    ensures Outputs(r) == Outputs(gates)[g1 := Outputs(gates)[g2]][g2 := Outputs(gates)[g1]]
  {
    var o1, o2 := gates[g1].output, gates[g2].output;
    var r := gates[g1 := gates[g1].(output := o2)][g2 := gates[g2].(output := o1)];
    assert Ops(r) == Ops(gates);
    assert Slots(r) == Slots(gates);
    assert Outputs(r) == Outputs(gates)[g1 := o2][g2 := o1];
    r
  }

  /** Each gate drives the wire recorded as its output. */
  ghost predicate Drives(w: Wiring) {
    forall g :: 0 <= g < |w.outs| ==> w.outs[g] < |w.driver| && w.driver[w.outs[g]] == g
  }

  /** Switching the same two names twice restores the wiring (the test at main.rs:511-517
      relies on the first switch; the search on the second). */
  lemma SwitchedTwice(w: Wiring, n1: string, n2: string)
    requires Switchable(w, n1, n2) && Drives(w)
    ensures Switchable(Switched(w, n1, n2), n1, n2)
    ensures Switched(Switched(w, n1, n2), n1, n2) == w
  {
    var g1, g2 := w.gateIndex[n1], w.gateIndex[n2];
    var o1, o2 := w.outs[g1], w.outs[g2];
    var v := Switched(w, n1, n2);
    var u := Switched(v, n1, n2);
    if n1 == n2 {
      assert v.gateIndex == w.gateIndex;
      assert v.outs == w.outs;
      assert v.driver == w.driver;
    } else if g1 == g2 {
      assert v.gateIndex == w.gateIndex;
      assert v.outs == w.outs;
      assert v.driver == w.driver;
    } else {
      assert o1 != o2;
      assert v.gateIndex[n1] == g2 && v.gateIndex[n2] == g1;
      assert v.outs[g2] == o1 && v.outs[g1] == o2;
      assert u.outs == w.outs;
      assert u.gateIndex == w.gateIndex;
      assert u.driver == w.driver;
    }
  }

  /** Switching two gate keys keeps each gate driving its own output wire. */
  lemma SwitchedDrives(w: Wiring, n1: string, n2: string, numWires: nat)
    requires Switchable(w, n1, n2) && Drives(w) && |w.driver| == numWires
    requires forall i :: 0 <= i < |w.driver| && w.driver[i] >= 0 ==> w.driver[i] < |w.outs| && w.outs[w.driver[i]] == i
    ensures var v := Switched(w, n1, n2);
            && (forall g :: 0 <= g < |v.outs| ==> v.outs[g] < numWires && v.driver[v.outs[g]] == g)
            && (forall i :: 0 <= i < |v.driver| && v.driver[i] >= 0 ==> v.driver[i] < |v.outs| && v.outs[v.driver[i]] == i)
  {
    var g1, g2 := w.gateIndex[n1], w.gateIndex[n2];
    var o1, o2 := w.outs[g1], w.outs[g2];
    var v := Switched(w, n1, n2);
    assert g1 == g2 <==> o1 == o2;
    forall g | 0 <= g < |v.outs| ensures v.outs[g] < numWires && v.driver[v.outs[g]] == g {
      if g != g1 && g != g2 {
        assert w.driver[w.outs[g]] == g;
      }
    }
    forall i | 0 <= i < |v.driver| && v.driver[i] >= 0 ensures v.driver[i] < |v.outs| && v.outs[v.driver[i]] == i {
      if i != o1 && i != o2 {
        assert w.outs[w.driver[i]] == i;
        assert w.driver[i] != g1 && w.driver[i] != g2;
      }
    }
  }

  /** Switching two gate keys keeps the gate map keyed by output wire names and the primary
      inputs undriven. */
  lemma SwitchedNamed(w: Wiring, n1: string, n2: string, numWires: nat,
                      wireIndex: map<string, nat>, inputNames: seq<string>)
    requires Named(numWires, w.outs, w.driver, wireIndex, w.gateIndex, inputNames)
    requires n1 in w.gateIndex && n2 in w.gateIndex && Drives(w)
    ensures Switchable(w, n1, n2)
    ensures var v := Switched(w, n1, n2);
            Named(numWires, v.outs, v.driver, wireIndex, v.gateIndex, inputNames)
  {
    var g1, g2 := w.gateIndex[n1], w.gateIndex[n2];
    var o1, o2 := w.outs[g1], w.outs[g2];
    var v := Switched(w, n1, n2);
    assert o1 == wireIndex[n1] && o2 == wireIndex[n2];
    forall n | n in v.gateIndex
      ensures n in wireIndex && v.gateIndex[n] < |v.outs| && v.outs[v.gateIndex[n]] == wireIndex[n]
    {
      if n != n1 && n != n2 {
        var g := w.gateIndex[n];
        assert w.outs[g] == wireIndex[n];
        assert g != g1 && g != g2;
      }
    }
    forall i | 0 <= i < |inputNames| ensures v.driver[wireIndex[inputNames[i]]] < 0 {
      assert w.driver[wireIndex[inputNames[i]]] < 0;
    }
  }

  /** Switching two gate keys keeps the loader's guarantees: (outs1, gateIndex1, driver1)
      is the switched wiring of (outs0, gateIndex0, driver0). */
  lemma SwitchedWellFormed(dependents: seq<seq<Dependent>>, numWires: nat, numActive: nat,
                           feeder: map<Dependent, (nat, nat)>, wireIndex: map<string, nat>, inputNames: seq<string>,
                           outs0: seq<nat>, gateIndex0: map<string, nat>, driver0: seq<int>,
                           outs1: seq<nat>, gateIndex1: map<string, nat>, driver1: seq<int>, n1: string, n2: string)
    requires WellFormed(dependents, numWires, outs0, numActive, driver0, feeder, wireIndex, gateIndex0, inputNames)
    requires Switchable(Wiring(outs0, gateIndex0, driver0), n1, n2)
    requires Wiring(outs1, gateIndex1, driver1) == Switched(Wiring(outs0, gateIndex0, driver0), n1, n2)
    ensures WellFormed(dependents, numWires, outs1, numActive, driver1, feeder, wireIndex, gateIndex1, inputNames)
  {
    var w := Wiring(outs0, gateIndex0, driver0);
    SwitchedNamed(w, n1, n2, numWires, wireIndex, inputNames);
    SwitchedDrives(w, n1, n2, numWires);
  }

  class Network {
    /** `user_gates` of every wire; the loader fixes them. */
    const dependents: seq<seq<Dependent>>
    /** `value` of every wire. */
    var values: seq<Option<bool>>
    var gates: seq<Gate>
    /** Gates currently borrowed by a propagation further up the call stack. */
    var active: seq<bool>
    /** `variables`: wire of each name. */
    const wireIndex: map<string, nat>
    /** `gates`: each gate keyed by the name of the wire it drives. */
    var gateIndex: map<string, nat>
    /** `input_variables`, in iteration order. */
    const inputNames: seq<string>
    /** The gate driving each wire, -1 for a primary input. */
    ghost var driver: seq<int>
    /** Position in `dependents` of the entry feeding each gate slot. */
    ghost const feeder: map<Dependent, (nat, nat)>

    /** The arena invariant propagation keeps. */
    ghost predicate Live()
      reads this
    {
      Wired(dependents, |values|, Outputs(gates), |active|, driver, feeder)
    }

    ghost predicate Valid()
      reads this
    {
      Live() && Named(|values|, Outputs(gates), driver, wireIndex, gateIndex, inputNames)
    }

    ghost predicate Idle()
      reads this
    {
      forall g :: 0 <= g < |active| ==> !active[g]
    }

    /** A ranking of the gates that strictly increases along every wire: the wiring has no cycle. */
    ghost predicate Ranked(rank: seq<nat>)
      reads this
    {
      RankOrder(Outputs(gates), dependents, rank)
    }

    ghost predicate Acyclic()
      reads this
    {
      exists rank :: Ranked(rank)
    }

    /** The gates, with output wires `outs`, admit a ranking: that wiring has no cycle. */
    ghost predicate AcyclicWith(outs: seq<nat>)
    {
      exists rank :: RankOrder(outs, dependents, rank)
    }

    /** Propagation from wire w with every active gate ranked below `bound` and every
        gate w feeds ranked at least `bound`: no active gate can be reached again. */
    ghost predicate RankedFrom(rank: seq<nat>, bound: nat, w: nat)
      reads this
    {
      && Ranked(rank)
      && |active| == |gates|
      && w < |dependents|
      && (forall h :: 0 <= h < |gates| && active[h] ==> rank[h] < bound)
      && (forall k :: 0 <= k < |dependents[w]| ==> bound <= rank[dependents[w][k].gate])
    }

    constructor (dependents: seq<seq<Dependent>>, values: seq<Option<bool>>, gates: seq<Gate>,
                 wireIndex: map<string, nat>, gateIndex: map<string, nat>, inputNames: seq<string>,
                 ghost driver: seq<int>, ghost feeder: map<Dependent, (nat, nat)>)
      requires WellFormed(dependents, |values|, Outputs(gates), |gates|, driver, feeder, wireIndex, gateIndex, inputNames)
      ensures Valid() && Idle()
      ensures this.dependents == dependents && this.values == values && this.gates == gates
      ensures this.wireIndex == wireIndex && this.gateIndex == gateIndex && this.inputNames == inputNames
    {
      this.dependents := dependents;
      this.values := values;
      this.gates := gates;
      this.active := seq(|gates|, _ => false);
      this.wireIndex := wireIndex;
      this.gateIndex := gateIndex;
      this.inputNames := inputNames;
      this.driver := driver;
      this.feeder := feeder;
    }

    /** What a propagation step leaves alone: the wiring, the borrow flags, every wire that is
        settled with respect to the entry flags (except `w`), every gate borrowed at entry,
        and every slot fed by such a settled wire other than `w`, except the slot `ex`. */
    twostate predicate Unchanged(w: int, ex: Option<Dependent>)
      reads this
    {
      && Live() && active == old(active) && gateIndex == old(gateIndex) && driver == old(driver)
      && Frame(dependents, driver, old(active), old(values), old(gates), values, gates, w, ex)
    }

    /** `LogicVariable::set_value`: store the value, then propagate it. */
    method SetValue(w: nat, v: bool, ghost rank: seq<nat>, ghost bound: nat) returns (r: Status)
      requires Live() && w < |values| && Settled(driver, active, w)
      modifies this
      ensures Unchanged(w, None)
      ensures values[w] == Some(v)
      ensures r == Ok ==> forall k :: 0 <= k < |dependents[w]| ==> gates[dependents[w][k].gate].Input(dependents[w][k].slot) == Some(v)
      ensures old(RankedFrom(rank, bound, w)) ==> r == Ok
      decreases |Inactive(active)|, 2
    {
      ghost var values0 := values;
      values := values[w := Some(v)];
      r := Propagate(w, rank, bound);
      FrameAfterStore(dependents, driver, active, values0, old(gates), values, gates, w, Some(v));
    }

    /** `LogicVariable::propagate`: push the wire's value (unset reads as false) into every
        dependent slot, failing when a dependent gate is already mid-activation. */
    method Propagate(w: nat, ghost rank: seq<nat>, ghost bound: nat) returns (r: Status)
      requires Live() && w < |values| && Settled(driver, active, w)
      modifies this
      ensures Unchanged(w, None) && values[w] == old(values[w])
      ensures r == Ok ==> forall k :: 0 <= k < |dependents[w]| ==>
                gates[dependents[w][k].gate].Input(dependents[w][k].slot) == Some(old(values[w]).GetOr(false))
      ensures old(RankedFrom(rank, bound, w)) ==> r == Ok
      decreases |Inactive(active)|, 1
    {
      var v := values[w].GetOr(false);
      var k := 0;
      while k < |dependents[w]|
        invariant 0 <= k <= |dependents[w]|
        invariant Unchanged(w, None) && values[w] == old(values[w])
        invariant forall j :: 0 <= j < k ==> gates[dependents[w][j].gate].Input(dependents[w][j].slot) == Some(v)
      {
        var d := dependents[w][k];
        if active[d.gate] {
          return CircularConnectionError;
        }
        ghost var valuesK, gatesK := values, gates;
        r := SetInput(d.gate, d.slot, v, rank);
        if r == CircularConnectionError {
          return;
        }
        PropagateStep(dependents, driver, feeder, active, old(values), old(gates), valuesK, gatesK, values, gates,
                      w, k, Some(v));
        k := k + 1;
      }
      r := Ok;
    }

    /** A successful `try_borrow_mut` of gate g followed by `set_input`: store v in the
        slot and `activate` the gate while it stays borrowed. */
    method SetInput(g: nat, s: Slot, v: bool, ghost rank: seq<nat>) returns (r: Status)
      requires Live() && g < |gates| && !active[g]
      modifies this
      ensures Unchanged(-1, Some(Dependent(g, s))) && gates[g] == old(gates[g]).WithInput(s, v)
      ensures var ng := old(gates[g]).WithInput(s, v);
              if ng.Ready() then values[ng.output] == Some(Apply(ng.op, ng.input1.value, ng.input2.value))
              else r == Ok && values == old(values) && gates == old(gates)[g := ng]
      ensures old(Ranked(rank) && forall h :: 0 <= h < |gates| && active[h] ==> rank[h] < rank[g]) ==> r == Ok
      decreases |Inactive(active)|, 0
    {
      InactiveActivate(active, g);
      ghost var gates0, values0 := gates, values;
      var flags := active;
      active := active[g := true];
      WiringUpdate(gates, g, gates[g].WithInput(s, v));
      gates := gates[g := gates[g].WithInput(s, v)];
      r := Activate(g, rank);
      active := flags;
      FrameBorrow(dependents, driver, flags, values0, gates0, values, gates, g, s, v);
    }

    /** `LogicGate::activate` on the borrowed gate g: once both slots hold a value, set the
        output wire to the gate's operation applied to them. */
    method Activate(g: nat, ghost rank: seq<nat>) returns (r: Status)
      requires Live() && g < |gates| && active[g]
      modifies this
      ensures Unchanged(old(gates[g].output), None)
      ensures var gate := old(gates[g]);
              if gate.Ready() then values[gate.output] == Some(Apply(gate.op, gate.input1.value, gate.input2.value))
              else r == Ok && values == old(values) && gates == old(gates)
      ensures old(Ranked(rank) && forall h :: 0 <= h < |gates| && h != g && active[h] ==> rank[h] < rank[g]) ==> r == Ok
      decreases |Inactive(active)|, 3
    {
      var gate := gates[g];
      r := Ok;
      if gate.Ready() {
        ghost var bound := if Ranked(rank) then rank[g] + 1 else 0;
        r := SetValue(gate.output, Apply(gate.op, gate.input1.value, gate.input2.value), rank, bound);
      }
    }

    // -------------------------------------------------------------------------
    // Reading operands and the output

    /** Every named wire exists in the wire values `vals`. */
    ghost predicate ReadableIn(vals: seq<Option<bool>>)
    {
      forall n :: n in wireIndex ==> wireIndex[n] < |vals|
    }

    ghost predicate Readable()
      reads this
    {
      forall n :: n in wireIndex ==> wireIndex[n] < |values|
    }

    /** `value.unwrap_or(false)` of the wire called `name`. */
    function WireBit(name: string): bool
      requires Readable() && name in wireIndex
      reads this
    {
      values[wireIndex[name]].GetOr(false)
    }

    function WidthFrom(p: char, idx: nat): (n: nat)
      requires forall j :: 0 <= j < idx ==> BitName(p, j) in wireIndex
      ensures idx <= n
      ensures forall j :: 0 <= j < n ==> BitName(p, j) in wireIndex
      ensures BitName(p, n) !in wireIndex
      decreases |wireIndex| - idx
    {
      if BitName(p, idx) in wireIndex then
        BitNamesCount(p, idx + 1, wireIndex.Keys);
        WidthFrom(p, idx + 1)
      else idx
    }

    /** Number of consecutive wires p00, p01, ... present in the network. */
    function Width(p: char): (n: nat)
      ensures forall j :: 0 <= j < n ==> BitName(p, j) in wireIndex
      ensures BitName(p, n) !in wireIndex
    {
      WidthFrom(p, 0)
    }

    lemma WidthUnique(p: char, n: nat)
      requires forall j :: 0 <= j < n ==> BitName(p, j) in wireIndex
      requires BitName(p, n) !in wireIndex
      ensures n == Width(p)
    {
    }

    /** In the wire values `vals`, the values of the wires p00 .. p{n-1} (unset reads as
        false), least significant first. */
    function BitsIn(vals: seq<Option<bool>>, p: char, n: nat): (bits: seq<bool>)
      requires ReadableIn(vals) && n <= Width(p)
      ensures |bits| == n
      ensures forall j :: 0 <= j < n ==> bits[j] == vals[wireIndex[BitName(p, j)]].GetOr(false)
    {
      if n == 0 then [] else BitsIn(vals, p, n - 1) + [vals[wireIndex[BitName(p, n - 1)]].GetOr(false)]
    }

    /** Values of the wires p00 .. p{n-1} now. */
    function BitsUpTo(p: char, n: nat): (bits: seq<bool>)
      requires Readable() && n <= Width(p)
      reads this
      ensures |bits| == n
      ensures forall j :: 0 <= j < n ==> bits[j] == WireBit(BitName(p, j))
    {
      if n == 0 then [] else BitsUpTo(p, n - 1) + [WireBit(BitName(p, n - 1))]
    }

    /** The wires read now are the wire values `values` read. */
    lemma BitsNow(p: char)
      requires Readable()
      ensures OperandBits(p) == BitsIn(values, p, Width(p))
    {
      var a, b := OperandBits(p), BitsIn(values, p, Width(p));
      assert forall j :: 0 <= j < |a| ==> a[j] == b[j];
    }

    function OperandBits(p: char): (bits: seq<bool>)
      requires Readable()
      reads this
    {
      BitsUpTo(p, Width(p))
    }

    /** `num_outputs`: the number of output wires z00, z01, ... */
    method NumOutputs() returns (n: nat)
      ensures n == Width('z')
      ensures forall j :: 0 <= j < n ==> BitName('z', j) in wireIndex
      ensures BitName('z', n) !in wireIndex
    {
      n := 0;
      while BitName('z', n) in wireIndex
        invariant n <= Width('z')
        decreases Width('z') - n
      {
        n := n + 1;
      }
    }

    /** The loop of `get_output_value` and `target_sum` for operand p: the sum of
        `(1 << idx) * bit` over the consecutive wires p00, p01, ... */
    method OperandValue(p: char) returns (value: nat)
      requires Readable() && Width(p) <= 64
      ensures value == BinaryValue(OperandBits(p))
    {
      value := 0;
      var idx := 0;
      while BitName(p, idx) in wireIndex
        invariant idx <= Width(p)
        invariant value == BinaryValue(BitsUpTo(p, idx))
        decreases Width(p) - idx
      {
        var bit := if WireBit(BitName(p, idx)) then 1 else 0;
        ghost var bits := BitsUpTo(p, idx + 1);
        assert bits[..idx] == BitsUpTo(p, idx);
        value := value + ShiftedBit(bit, idx);
        idx := idx + 1;
      }
    }

    /** Bit j of an operand's value is the value on wire pj. */
    lemma OperandBitsRead(p: char)
      requires Readable()
      ensures BinaryValue(OperandBits(p)) < Pow(2, Width(p))
      ensures forall j :: 0 <= j < Width(p) ==> Bit(BinaryValue(OperandBits(p)), j) == WireBit(BitName(p, j))
    {
      forall j | 0 <= j < Width(p) ensures Bit(BinaryValue(OperandBits(p)), j) == WireBit(BitName(p, j)) {
        BinaryValueBits(OperandBits(p), j);
      }
    }

    /** `get_output_value`: the number on the output wires z00, z01, ... */
    method GetOutputValue() returns (value: nat)
      requires Readable() && Width('z') <= 64
      ensures value == BinaryValue(OperandBits('z')) && value < Pow(2, 64)
      ensures ReadableIn(values) && value == OutputIn(values)
    {
      value := OperandValue('z');
      PowMonotone(2, Width('z'), 64);
      BitsNow('z');
    }

    /** `target_sum`: the sum of the numbers on the x and y input wires. */
    method TargetSum() returns (sum: nat)
      requires Readable() && Width('x') <= 64 && Width('y') <= 64
      requires BinaryValue(OperandBits('x')) + BinaryValue(OperandBits('y')) < Pow(2, 64)
      ensures sum == BinaryValue(OperandBits('x')) + BinaryValue(OperandBits('y'))
    {
      var x := OperandValue('x');
      var y := OperandValue('y');
      sum := x + y;
    }

    /** The widths within which every read-out of the search fits a `u64`. */
    predicate WidthsFit() {
      Width('x') <= 63 && Width('y') <= 63 && Width('z') <= 64
    }

    lemma TargetSumFits()
      requires Readable() && WidthsFit()
      ensures BinaryValue(OperandBits('x')) + BinaryValue(OperandBits('y')) < Pow(2, 64)
    {
      PowMonotone(2, Width('x'), 63);
      PowMonotone(2, Width('y'), 63);
      assert Pow(2, 64) == 2 * Pow(2, 63);
    }

    // -------------------------------------------------------------------------
    // Driving the primary inputs

    /** `forward_input`: propagate every primary input, stopping at the first circular connection. */
    method ForwardInput() returns (r: Status)
      requires Valid() && Idle()
      modifies this
      ensures Valid() && Idle() && SameWiring(old(gates), gates) && gateIndex == old(gateIndex) && driver == old(driver)
      ensures forall i :: 0 <= i < |inputNames| ==> values[wireIndex[inputNames[i]]] == old(values[wireIndex[inputNames[i]]])
      ensures InputValues(values, wireIndex, inputNames) == old(InputValues(values, wireIndex, inputNames))
      ensures old(Acyclic()) ==> r == Ok
    {
      ghost var rank: seq<nat> := if Acyclic() then var rk :| Ranked(rk); rk else [];
      ghost var inputs := InputValues(values, wireIndex, inputNames);
      var i := 0;
      while i < |inputNames|
        invariant i <= |inputNames|
        invariant Valid() && active == old(active) && SameWiring(old(gates), gates) && gateIndex == old(gateIndex)
        invariant driver == old(driver)
        invariant InputValues(values, wireIndex, inputNames) == inputs
        invariant old(Acyclic()) ==> Ranked(rank)
      {
        var w := wireIndex[inputNames[i]];
        ghost var values0, gates0 := values, gates;
        r := Propagate(w, rank, 0);
        InputsStay(dependents, driver, active, values0, gates0, values, gates, w, wireIndex, inputNames);
        if r == CircularConnectionError {
          return;
        }
        i := i + 1;
      }
      r := Ok;
    }

    /** `assign_random_inputs` with the random bits given: `set_value(...).unwrap()` on each
        primary input in turn; an error panics. */
    method AssignInputs(bits: seq<bool>) returns (done: bool)
      requires Valid() && Idle() && |bits| == |inputNames|
      modifies this
      ensures Valid() && Idle() && SameWiring(old(gates), gates) && gateIndex == old(gateIndex) && driver == old(driver)
      ensures done ==> forall j :: 0 <= j < |inputNames| ==> values[wireIndex[inputNames[j]]] == Some(bits[j])
      ensures old(Acyclic()) ==> done
    {
      ghost var rank: seq<nat> := if Acyclic() then var rk :| Ranked(rk); rk else [];
      var i := 0;
      while i < |inputNames|
        invariant i <= |inputNames|
        invariant Valid() && active == old(active) && SameWiring(old(gates), gates) && gateIndex == old(gateIndex)
        invariant driver == old(driver)
        invariant forall j :: 0 <= j < i ==> values[wireIndex[inputNames[j]]] == Some(bits[j])
        invariant old(Acyclic()) ==> Ranked(rank)
      {
        var w := wireIndex[inputNames[i]];
        ghost var values0, gates0 := values, gates;
        var st := SetValue(w, bits[i], rank, 0);
        if st == CircularConnectionError {
          return false;
        }
        AssignStep(dependents, driver, active, values0, gates0, values, gates, Outputs(gates0), wireIndex, gateIndex,
                   inputNames, bits, i);
        i := i + 1;
      }
      done := true;
    }

    /** The last loop of `check_gates`: write the saved values straight back into the
        primary inputs, without propagating them. */
    method RestoreInputs(saved: seq<Option<bool>>)
      requires Valid() && |saved| == |inputNames|
      modifies this
      ensures Valid() && InputValues(values, wireIndex, inputNames) == saved
      ensures gates == old(gates) && active == old(active) && gateIndex == old(gateIndex) && driver == old(driver)
    {
      var i := 0;
      while i < |inputNames|
        invariant i <= |inputNames| && |values| == old(|values|)
        invariant Valid() && gates == old(gates) && active == old(active) && gateIndex == old(gateIndex)
        invariant driver == old(driver)
        invariant forall j :: 0 <= j < i ==> values[wireIndex[inputNames[j]]] == saved[j]
      {
        var w := wireIndex[inputNames[i]];
        forall j | 0 <= j < i ensures w != wireIndex[inputNames[j]] {
          assert inputNames[j] != inputNames[i];
        }
        values := values[w := saved[i]];
        i := i + 1;
      }
      ghost var now := InputValues(values, wireIndex, inputNames);
      assert |now| == |saved| && forall j :: 0 <= j < |saved| ==> now[j] == saved[j];
    }

    /** In the wire values `vals`: the number on the output wires z00, z01, ... */
    ghost function OutputIn(vals: seq<Option<bool>>): nat
      requires ReadableIn(vals)
    {
      BinaryValue(BitsIn(vals, 'z', Width('z')))
    }

    /** In the wire values `vals`: the numbers on the x and y wires add up to the output. */
    ghost predicate AddsIn(vals: seq<Option<bool>>)
      requires ReadableIn(vals)
    {
      BinaryValue(BitsIn(vals, 'x', Width('x'))) + BinaryValue(BitsIn(vals, 'y', Width('y'))) == OutputIn(vals)
    }

    /** The numbers on the x and y inputs add up to the number on the z outputs now. */
    ghost predicate Adds()
      requires Readable()
      reads this
    {
      BinaryValue(OperandBits('x')) + BinaryValue(OperandBits('y')) == BinaryValue(OperandBits('z'))
    }

    lemma AddsNow()
      requires Readable()
      ensures Adds() <==> AddsIn(values)
    {
      BitsNow('x');
      BitsNow('y');
      BitsNow('z');
    }

    /** In the wire values `vals`, each primary input holds its bit of the trial `bits`. */
    ghost predicate HoldsTrial(vals: seq<Option<bool>>, bits: seq<bool>)
    {
      && |bits| == |inputNames|
      && (forall i :: 0 <= i < |inputNames| ==> inputNames[i] in wireIndex && wireIndex[inputNames[i]] < |vals|)
      && (forall i :: 0 <= i < |inputNames| ==> vals[wireIndex[inputNames[i]]] == Some(bits[i]))
    }

    /** What the trial loop reports, given `seen`, the wire values after each trial that
        was assigned and forwarded: every trial seen but the last adds; `false` exactly when
        the last one seen does not add; `true` only when every trial was seen. */
    ghost predicate TrialsReport(trials: seq<seq<bool>>, seen: seq<seq<Option<bool>>>, r: Outcome<bool>)
    {
      && |seen| <= |trials|
      && (forall k :: 0 <= k < |seen| ==> ReadableIn(seen[k]) && HoldsTrial(seen[k], trials[k]))
      && (forall k :: 0 <= k < |seen| - 1 ==> AddsIn(seen[k]))
      && (r == Done(false) <==> |seen| > 0 && !AddsIn(seen[|seen| - 1]))
      && (r == Done(true) ==> |seen| == |trials|)
      && (r == Panicked ==> |seen| < |trials|)
    }

    /** `target_sum(variables) == get_output_value(variables)`. */
    method SumMatches() returns (ok: bool)
      requires Readable() && WidthsFit()
      ensures ok == Adds() && ok == AddsIn(values)
    {
      TargetSumFits();
      var target := TargetSum();
      var output := GetOutputValue();
      ok := target == output;
      AddsNow();
    }

    /** A report that ends in `Done` says whether every trial adds. */
    lemma TrialsReportDone(trials: seq<seq<bool>>, seen: seq<seq<Option<bool>>>, r: Outcome<bool>)
      requires TrialsReport(trials, seen, r) && r.Done?
      ensures r.value <==> |seen| == |trials| && forall k :: 0 <= k < |seen| ==> AddsIn(seen[k])
    {
      if r.value && |seen| > 0 {
        assert AddsIn(seen[|seen| - 1]);
      }
    }

    /** Trials 0 .. |seen|-1 were seen, each holding its bits, and each adds. */
    ghost predicate AllAdd(trials: seq<seq<bool>>, seen: seq<seq<Option<bool>>>)
    {
      && |seen| <= |trials|
      && forall j :: 0 <= j < |seen| ==> TrialAdds(seen[j], trials[j])
    }

    /** The wire values `vals` hold the trial `bits` on the primary inputs and add up. */
    ghost predicate TrialAdds(vals: seq<Option<bool>>, bits: seq<bool>)
    {
      ReadableIn(vals) && HoldsTrial(vals, bits) && AddsIn(vals)
    }

    /** One more trial seen: its wire values hold its bits. */
    lemma SeenExtend(trials: seq<seq<bool>>, seen: seq<seq<Option<bool>>>, v: seq<Option<bool>>)
      requires AllAdd(trials, seen) && |seen| < |trials|
      requires ReadableIn(v) && HoldsTrial(v, trials[|seen|])
      ensures AddsIn(v) ==> AllAdd(trials, seen + [v])
      ensures !AddsIn(v) ==> TrialsReport(trials, seen + [v], Done(false))
    {
      var s := seen + [v];
      assert forall j :: 0 <= j < |seen| ==> s[j] == seen[j] && TrialAdds(s[j], trials[j]);
    }

    /** The loop stops without a false answer: every trial seen adds. */
    lemma ReportAllAdd(trials: seq<seq<bool>>, seen: seq<seq<Option<bool>>>, r: Outcome<bool>)
      requires AllAdd(trials, seen) && r != Done(false)
      requires r == Done(true) ==> |seen| == |trials|
      requires r == Panicked ==> |seen| < |trials|
      ensures TrialsReport(trials, seen, r)
    {
    }

    /** One round of the trial loop: assign the trial's bits, forward them, and compare
        the sum; a failed `set_value` or a circular connection panics. */
    method RunTrial(bits: seq<bool>) returns (r: Outcome<bool>)
      requires Valid() && Idle() && WidthsFit() && |bits| == |inputNames|
      modifies this
      ensures Valid() && Idle() && SameWiring(old(gates), gates) && gateIndex == old(gateIndex) && driver == old(driver)
      ensures r.Done? ==> ReadableIn(values) && HoldsTrial(values, bits) && (r.value <==> AddsIn(values))
      ensures old(Acyclic()) ==> r.Done? && Acyclic()
    {
      ghost var rank: seq<nat> := if Acyclic() then var rk :| Ranked(rk); rk else [];
      var done := AssignInputs(bits);
      if !done {
        return Panicked;
      }
      assert old(Acyclic()) ==> Ranked(rank) && Acyclic();
      var st := ForwardInput();
      if st == CircularConnectionError {
        return Panicked;
      }
      var ok := SumMatches();
      r := Done(ok);
      assert old(Acyclic()) ==> Ranked(rank);
    }

    /** The trial loop of `check_gates`: run the trials in order and stop with false at the
        first wrong sum. `seen` holds the wire values after each trial that was assigned and
        forwarded. */
    method RunTrials(trials: seq<seq<bool>>) returns (r: Outcome<bool>, ghost seen: seq<seq<Option<bool>>>)
      requires Valid() && Idle() && WidthsFit()
      requires forall k :: 0 <= k < |trials| ==> |trials[k]| == |inputNames|
      modifies this
      ensures Valid() && Idle() && SameWiring(old(gates), gates) && gateIndex == old(gateIndex) && driver == old(driver)
      ensures TrialsReport(trials, seen, r)
      ensures r.Done? && |seen| > 0 ==> values == seen[|seen| - 1]
      ensures old(Acyclic()) ==> r.Done?
    {
      seen := [];
      var k := 0;
      while k < |trials|
        invariant k <= |trials| && |seen| == k
        invariant Valid() && Idle() && SameWiring(old(gates), gates) && gateIndex == old(gateIndex) && driver == old(driver)
        invariant AllAdd(trials, seen)
        invariant k > 0 ==> values == seen[k - 1]
        invariant old(Acyclic()) ==> Acyclic()
      {
        var t := RunTrial(trials[k]);
        if t.Panicked? {
          ReportAllAdd(trials, seen, Panicked);
          return Panicked, seen;
        }
        SeenExtend(trials, seen, values);
        seen := seen + [values];
        if !t.value {
          return Done(false), seen;
        }
        k := k + 1;
      }
      r := Done(true);
      ReportAllAdd(trials, seen, r);
    }

    /** `check_gates`: save the primary inputs, check that the forwarded network adds, run the
        trials until one gives a wrong sum, then restore the inputs. A circular connection or
        a wrong sum before the trials panics. `start` holds the wire values after the first
        forwarding, `seen` those after each trial. */
    method CheckGates(trials: seq<seq<bool>>) returns (r: Outcome<bool>, ghost start: seq<Option<bool>>, ghost seen: seq<seq<Option<bool>>>)
      requires Valid() && Idle() && WidthsFit()
      requires forall k :: 0 <= k < |trials| ==> |trials[k]| == |inputNames|
      modifies this
      ensures Valid() && Idle() && SameWiring(old(gates), gates) && gateIndex == old(gateIndex) && driver == old(driver)
      ensures r.Done? ==> InputValues(values, wireIndex, inputNames) == old(InputValues(values, wireIndex, inputNames))
      ensures ReadableIn(start) && InputValues(start, wireIndex, inputNames) == old(InputValues(values, wireIndex, inputNames))
      ensures r.Done? ==> AddsIn(start) && TrialsReport(trials, seen, r)
      ensures old(Acyclic()) ==> (r.Done? <==> AddsIn(start))
    {
      var saved := InputValues(values, wireIndex, inputNames);
      r, seen := Panicked, [];
      ghost var rank: seq<nat> := if Acyclic() then var rk :| Ranked(rk); rk else [];
      var st := ForwardInput();
      start := values;
      if st == Ok {
        var ok := SumMatches();
        if ok {
          assert old(Acyclic()) ==> Ranked(rank);
          r, seen := RunTrials(trials);
          if r.Done? {
            RestoreInputs(saved);
          }
        }
      }
    }

    ghost function WiringOf(): Wiring
      reads this
    {
      Wiring(Outputs(gates), gateIndex, driver)
    }

    /** `switch_gate_outputs` on the gates keyed n1 and n2. */
    method SwitchGateOutputs(n1: string, n2: string)
      requires Valid() && n1 in gateIndex && n2 in gateIndex
      modifies this
      ensures Valid() && Switchable(old(WiringOf()), n1, n2) && WiringOf() == Switched(old(WiringOf()), n1, n2)
      ensures values == old(values) && active == old(active) && Ops(gates) == old(Ops(gates)) && Slots(gates) == old(Slots(gates))
    {
      ghost var w := WiringOf();
      assert Switchable(w, n1, n2);
      var g1, g2 := gateIndex[n1], gateIndex[n2];
      var o1, o2 := gates[g1].output, gates[g2].output;
      gates := SwapOutputs(gates, g1, g2);
      gateIndex := gateIndex[n1 := g2][n2 := g1];
      driver := driver[o1 := g2][o2 := g1];
      SwitchedWellFormed(dependents, |values|, |active|, feeder, wireIndex, inputNames, w.outs, w.gateIndex, w.driver,
                         Outputs(gates), gateIndex, driver, n1, n2);
    }
  }
}