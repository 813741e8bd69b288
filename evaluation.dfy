/**
 * What each component reads, computes and stores.  Components share two bit
 * vectors: `cur` (the current vector, one slot per component) and `nxt` (the
 * next vector, written by transitions at their base proposition's slot).
 */
module Evaluation {
  import opened Gdl
  import opened Components
  import opened Propositions
  import opened Structure

  /** Every live component has a slot in vectors of length `n`. */
  predicate Slotted(g: Graph, live: set<nat>, n: nat)
    requires Shaped(g) && Closed(g, live)
  {
    forall h :: h in live ==> g.index[h] < n
  }

  predicate Evaluable(g: Graph, live: set<nat>, lvl: seq<nat>, cur: seq<bool>, nxt: seq<bool>)
  {
    Formed(g, live, lvl) && Slotted(g, live, |cur|) && |nxt| == |cur|
  }

  /**
   * What a component holds without recomputing anything: a constant's fixed
   * value, a transition's own slot of the next vector, and the own slot of
   * the current vector for every other component.
   */
  function Stored(g: Graph, live: set<nat>, cur: seq<bool>, nxt: seq<bool>, h: nat): bool
    requires Shaped(g) && Closed(g, live) && Slotted(g, live, |cur|) && |nxt| == |cur| && h in live
  {
    match g.kind[h]
    case Constant(v) => v
    case Transition => nxt[g.index[h]]
    case _ => cur[g.index[h]]
  }

  /**
   * The value a component reports to its readers: the stored value, except
   * that an OR gate recomputes the disjunction of its inputs' values (false
   * when it has none).
   */
  function Value(g: Graph, live: set<nat>, ghost lvl: seq<nat>, cur: seq<bool>, nxt: seq<bool>, h: nat): bool
    requires Evaluable(g, live, lvl, cur, nxt) && h in live
    decreases lvl[h]
  {
    if g.kind[h] == Or then
      exists j | 0 <= j < |g.inputs[h]| ::
        if g.kind[g.inputs[h][j]] == Or then Value(g, live, lvl, cur, nxt, g.inputs[h][j])
        else Stored(g, live, cur, nxt, g.inputs[h][j])
    else Stored(g, live, cur, nxt, h)
  }

  /**
   * The gate function of a component applied to the readings `r` of its
   * inputs (one per entry of its input list).  A view proposition copies its
   * input; any other proposition yields `pv`, the value it is given.
   */
  function Gate(g: Graph, live: set<nat>, h: nat, r: seq<bool>, pv: bool): bool
    requires Shaped(g) && InRange(g) && Closed(g, live) && Arity(g, live) && h in live
    requires |r| == |g.inputs[h]|
  {
    match g.kind[h]
    case Proposition(_) => if IsView(g, h) then r[0] else pv
    case And => forall j | 0 <= j < |r| :: r[j]
    case Or => exists j | 0 <= j < |r| :: r[j]
    case Not => !r[0]
    case Constant(v) => v
    case Transition => r[0]
  }

  /** The stored values of a component's inputs. */
  function StoredReadings(g: Graph, live: set<nat>, cur: seq<bool>, nxt: seq<bool>, h: nat): (r: seq<bool>)
    requires Shaped(g) && Closed(g, live) && Slotted(g, live, |cur|) && |nxt| == |cur| && h in live
    ensures |r| == |g.inputs[h]|
  {
    seq(|g.inputs[h]|, j requires 0 <= j < |g.inputs[h]| => Stored(g, live, cur, nxt, g.inputs[h][j]))
  }

  /** The reported values of a component's inputs. */
  function ValueReadings(g: Graph, live: set<nat>, ghost lvl: seq<nat>, cur: seq<bool>, nxt: seq<bool>, h: nat): (r: seq<bool>)
    requires Evaluable(g, live, lvl, cur, nxt) && h in live
    ensures |r| == |g.inputs[h]|
  {
    seq(|g.inputs[h]|, j requires 0 <= j < |g.inputs[h]| => Value(g, live, lvl, cur, nxt, g.inputs[h][j]))
  }

  /** What an update computes for a component from its inputs' reported values. */
  function Target(g: Graph, live: set<nat>, ghost lvl: seq<nat>, cur: seq<bool>, nxt: seq<bool>, h: nat): bool
    requires Evaluable(g, live, lvl, cur, nxt) && h in live
  {
    Gate(g, live, h, ValueReadings(g, live, lvl, cur, nxt, h), g.value[h])
  }

  /**
   * The slot an update writes: a transition writes its base proposition's
   * slot of the next vector, every other component its own slot of the
   * current vector.
   */
  function Slot(g: Graph, live: set<nat>, h: nat): nat
    requires Shaped(g) && InRange(g) && Closed(g, live) && Arity(g, live) && h in live
  {
    if g.kind[h] == Transition then g.index[g.outputs[h][0]] else g.index[h]
  }

  /** A component is consistent when its written slot holds its gate function of its inputs' stored values. */
  predicate Consistent(g: Graph, live: set<nat>, lvl: seq<nat>, cur: seq<bool>, nxt: seq<bool>, h: nat)
    requires Evaluable(g, live, lvl, cur, nxt) && h in live
  {
    var v := Gate(g, live, h, StoredReadings(g, live, cur, nxt, h), g.value[h]);
    if g.kind[h] == Transition then nxt[Slot(g, live, h)] == v else cur[Slot(g, live, h)] == v
  }

  predicate AllConsistent(g: Graph, live: set<nat>, lvl: seq<nat>, cur: seq<bool>, nxt: seq<bool>)
    requires Evaluable(g, live, lvl, cur, nxt)
  {
    forall h :: h in live ==> Consistent(g, live, lvl, cur, nxt, h)
  }

  /**
   * An OR gate's reported value is its stored bit as soon as every OR gate
   * below it (through chains of OR inputs) is consistent.
   */
  lemma {:induction false} ValueMatchesStored(g: Graph, live: set<nat>, lvl: seq<nat>, cur: seq<bool>, nxt: seq<bool>, s: set<nat>, h: nat)
    requires Evaluable(g, live, lvl, cur, nxt) && s <= live && h in s
    requires forall x, j :: x in s && g.kind[x] == Or && 0 <= j < |g.inputs[x]| && g.kind[g.inputs[x][j]] == Or
               ==> g.inputs[x][j] in s
    requires forall x :: x in s && g.kind[x] == Or ==> Consistent(g, live, lvl, cur, nxt, x)
    ensures Value(g, live, lvl, cur, nxt, h) == Stored(g, live, cur, nxt, h)
    decreases lvl[h]
  {
    if g.kind[h] == Or {
      var ins := g.inputs[h];
      forall j | 0 <= j < |ins| && g.kind[ins[j]] == Or
        ensures Value(g, live, lvl, cur, nxt, ins[j]) == Stored(g, live, cur, nxt, ins[j])
      {
        ValueMatchesStored(g, live, lvl, cur, nxt, s, ins[j]);
      }
      assert Consistent(g, live, lvl, cur, nxt, h);
      var r := StoredReadings(g, live, cur, nxt, h);
      assert forall j | 0 <= j < |ins| ::
        (if g.kind[ins[j]] == Or then Value(g, live, lvl, cur, nxt, ins[j]) else Stored(g, live, cur, nxt, ins[j])) == r[j];
    }
  }

  /** In a fully consistent state every component reports exactly what it stores. */
  lemma ConsistentValues(g: Graph, live: set<nat>, lvl: seq<nat>, cur: seq<bool>, nxt: seq<bool>, h: nat)
    requires Evaluable(g, live, lvl, cur, nxt) && AllConsistent(g, live, lvl, cur, nxt) && h in live
    ensures Value(g, live, lvl, cur, nxt, h) == Stored(g, live, cur, nxt, h)
  {
    ValueMatchesStored(g, live, lvl, cur, nxt, live, h);
  }

  // ---------------------------------------------------------------------------
  // Full evaluation of the circuit, as a reference for the incremental engine.
  // ---------------------------------------------------------------------------

  /** Distinct live components have distinct slots. */
  predicate SlotsDistinct(g: Graph, live: set<nat>)
    requires Shaped(g) && Closed(g, live)
  {
    forall h1, h2 :: h1 in live && h2 in live && g.index[h1] == g.index[h2] ==> h1 == h2
  }

  /** A proposition whose value is given rather than computed from its inputs. */
  predicate Given(g: Graph, live: set<nat>, h: nat)
    requires Shaped(g) && InRange(g) && h < |g.kind|
  {
    g.kind[h].Proposition? && !IsView(g, h)
  }

  /** Every given proposition's explicit value is the bit `asg` holds at its slot. */
  predicate ValuesTrack(g: Graph, live: set<nat>, asg: seq<bool>)
    requires Shaped(g) && InRange(g) && Closed(g, live) && Slotted(g, live, |asg|)
  {
    forall h :: h in live && Given(g, live, h) ==> g.value[h] == asg[g.index[h]]
  }

  /** A consistent given proposition holds its explicit value, so full consistency makes the values track the vector. */
  lemma ConsistentTracks(g: Graph, live: set<nat>, lvl: seq<nat>, cur: seq<bool>, nxt: seq<bool>)
    requires Evaluable(g, live, lvl, cur, nxt) && AllConsistent(g, live, lvl, cur, nxt)
    ensures ValuesTrack(g, live, cur)
  {
    forall h | h in live && Given(g, live, h) ensures g.value[h] == cur[g.index[h]] {
      assert Consistent(g, live, lvl, cur, nxt, h);
    }
  }

  /**
   * The value the circuit gives a component when every given proposition
   * takes its slot of `asg` and every transition reads its own slot of `nxt`:
   * view propositions and gates are evaluated from their inputs all the way
   * down.  For a transition, this is the value it passes on.
   */
  function Denote(g: Graph, live: set<nat>, lvl: seq<nat>, asg: seq<bool>, nxt: seq<bool>, h: nat): bool
    requires Formed(g, live, lvl) && Slotted(g, live, |asg|) && |nxt| == |asg| && h in live
    decreases lvl[h], 1
  {
    Gate(g, live, h, DenoteReadings(g, live, lvl, asg, nxt, h), asg[g.index[h]])
  }

  function DenoteReadings(g: Graph, live: set<nat>, lvl: seq<nat>, asg: seq<bool>, nxt: seq<bool>, h: nat): (r: seq<bool>)
    requires Formed(g, live, lvl) && Slotted(g, live, |asg|) && |nxt| == |asg| && h in live
    ensures |r| == |g.inputs[h]|
    decreases lvl[h], 0
  {
    seq(|g.inputs[h]|, j requires 0 <= j < |g.inputs[h]| =>
      var x := g.inputs[h][j];
      if g.kind[x] == Transition then nxt[g.index[x]] else Denote(g, live, lvl, asg, nxt, x))
  }

  /** All-false bits. */
  function Clear(n: nat): (s: seq<bool>)
    ensures |s| == n && forall i :: 0 <= i < n ==> !s[i]
  {
    seq(n, i => false)
  }

  /**
   * The circuit's value for a component under the assignment `asg` to the
   * given propositions, with every transition read as false (a transition
   * reports its own slot of the next vector, which no update writes).
   */
  function Eval(g: Graph, live: set<nat>, lvl: seq<nat>, asg: seq<bool>, h: nat): bool
    requires Formed(g, live, lvl) && Slotted(g, live, |asg|) && h in live
  {
    Denote(g, live, lvl, asg, Clear(|asg|), h)
  }

  /**
   * A consistent state is the full evaluation of the circuit under the
   * explicit values: the current vector holds every non-transition
   * component's evaluated value, and each transition has written its
   * input's evaluated value to the next vector.
   */
  lemma {:induction false} ConsistentIsDenotation(g: Graph, live: set<nat>, lvl: seq<nat>, asg: seq<bool>,
                                                  cur: seq<bool>, nxt: seq<bool>, h: nat)
    requires Evaluable(g, live, lvl, cur, nxt) && AllConsistent(g, live, lvl, cur, nxt) && h in live
    requires |asg| == |cur| && ValuesTrack(g, live, asg)
    ensures g.kind[h] != Transition ==> Stored(g, live, cur, nxt, h) == Denote(g, live, lvl, asg, nxt, h)
    ensures g.kind[h] == Transition ==> nxt[Slot(g, live, h)] == Denote(g, live, lvl, asg, nxt, h)
    decreases lvl[h]
  {
    var ins := g.inputs[h];
    forall j | 0 <= j < |ins| && g.kind[ins[j]] != Transition
      ensures Stored(g, live, cur, nxt, ins[j]) == Denote(g, live, lvl, asg, nxt, ins[j])
    {
      ConsistentIsDenotation(g, live, lvl, asg, cur, nxt, ins[j]);
    }
    assert StoredReadings(g, live, cur, nxt, h) == DenoteReadings(g, live, lvl, asg, nxt, h);
    assert Consistent(g, live, lvl, cur, nxt, h);
  }

  /** Evaluation reads the next vector only at transitions' own slots. */
  lemma {:induction false} DenotationFrame(g: Graph, live: set<nat>, lvl: seq<nat>, asg: seq<bool>,
                                           nxt1: seq<bool>, nxt2: seq<bool>, h: nat)
    requires Formed(g, live, lvl) && Slotted(g, live, |asg|) && |nxt1| == |asg| && |nxt2| == |asg| && h in live
    requires forall t :: t in live && g.kind[t] == Transition ==> nxt1[g.index[t]] == nxt2[g.index[t]]
    ensures Denote(g, live, lvl, asg, nxt1, h) == Denote(g, live, lvl, asg, nxt2, h)
    decreases lvl[h]
  {
    var ins := g.inputs[h];
    forall j | 0 <= j < |ins| && g.kind[ins[j]] != Transition
      ensures Denote(g, live, lvl, asg, nxt1, ins[j]) == Denote(g, live, lvl, asg, nxt2, ins[j])
    {
      DenotationFrame(g, live, lvl, asg, nxt1, nxt2, ins[j]);
    }
    assert DenoteReadings(g, live, lvl, asg, nxt1, h) == DenoteReadings(g, live, lvl, asg, nxt2, h);
  }

  /**
   * A consistent state in which no transition's own slot of the next vector
   * is set holds the circuit's evaluation under the explicit values.
   */
  lemma ConsistentIsEval(g: Graph, live: set<nat>, lvl: seq<nat>, asg: seq<bool>,
                         cur: seq<bool>, nxt: seq<bool>, h: nat)
    requires Evaluable(g, live, lvl, cur, nxt) && AllConsistent(g, live, lvl, cur, nxt) && h in live
    requires |asg| == |cur| && ValuesTrack(g, live, asg)
    requires forall t :: t in live && g.kind[t] == Transition ==> !nxt[g.index[t]]
    ensures g.kind[h] != Transition ==> Stored(g, live, cur, nxt, h) == Eval(g, live, lvl, asg, h)
    ensures g.kind[h] == Transition ==> nxt[Slot(g, live, h)] == Eval(g, live, lvl, asg, h)
  {
    ConsistentIsDenotation(g, live, lvl, asg, cur, nxt, h);
    DenotationFrame(g, live, lvl, asg, nxt, Clear(|asg|), h);
  }
}
