/**
 * The component graph of a propositional network, as an arena: every
 * component is a natural-number handle, and the per-component fields
 * (kind, input and output lists, slot, rank and a proposition's explicit
 * value) are parallel sequences indexed by handle.
 */
module Components {
  import opened Gdl

  /** The concrete component classes. */
  datatype Kind =
    | Proposition(name: Sentence)
    | And
    | Or
    | Not
    | Constant(value: bool)
    | Transition

  /**
   * `index` is the component's slot in the bit vectors, `topo` its rank in
   * the propagation order, `value` the explicit value of a proposition.
   */
  datatype Graph = Graph(
    kind: seq<Kind>,
    inputs: seq<seq<nat>>,
    outputs: seq<seq<nat>>,
    index: seq<nat>,
    topo: seq<nat>,
    value: seq<bool>)

  predicate Shaped(g: Graph)
  {
    |g.inputs| == |g.kind| && |g.outputs| == |g.kind| && |g.index| == |g.kind|
    && |g.topo| == |g.kind| && |g.value| == |g.kind|
  }

  /** Every edge names a component of the arena. */
  predicate InRange(g: Graph)
    requires Shaped(g)
  {
    (forall h, j :: 0 <= h < |g.kind| && 0 <= j < |g.inputs[h]| ==> g.inputs[h][j] < |g.kind|)
    && (forall h, j :: 0 <= h < |g.kind| && 0 <= j < |g.outputs[h]| ==> g.outputs[h][j] < |g.kind|)
  }

  /** Number of occurrences of `x` in an edge list. */
  function Count(s: seq<nat>, x: nat): nat
  {
    multiset(s)[x]
  }

  /** Removal of the first occurrence of `x`, as a list's remove-by-value does. */
  function RemoveFirst(s: seq<nat>, x: nat): (r: seq<nat>)
    ensures multiset(r) == multiset(s) - multiset{x}
    ensures x !in s ==> r == s
    ensures forall y :: y in r ==> y in s
  {
    if s == [] then []
    else
      assert s == [s[0]] + s[1..];
      if s[0] == x then s[1..]
      else [s[0]] + RemoveFirst(s[1..], x)
  }

  /** Every entry left after a removal was an entry before it. */
  lemma RemoveFirstEntries(s: seq<nat>, x: nat)
    ensures forall j :: 0 <= j < |RemoveFirst(s, x)| ==> RemoveFirst(s, x)[j] in s
  {
    var r := RemoveFirst(s, x);
    forall j | 0 <= j < |r| ensures r[j] in s {
      assert r[j] in r;
    }
  }

  /** Position of the earliest occurrence of `x`. */
  function FirstIndex(s: seq<nat>, x: nat): (i: nat)
    requires x in s
    ensures i < |s| && s[i] == x && x !in s[..i]
  {
    if s[0] == x then 0
    else
      var i := 1 + FirstIndex(s[1..], x);
      assert s[..i] == [s[0]] + s[1..][..i - 1];
      i
  }

  /** Removal keeps the order of what remains and takes out the earliest occurrence. */
  lemma {:induction false} RemoveFirstSplits(s: seq<nat>, x: nat)
    requires x in s
    ensures RemoveFirst(s, x) == s[..FirstIndex(s, x)] + s[FirstIndex(s, x) + 1..]
  {
    if s[0] != x {
      RemoveFirstSplits(s[1..], x);
      ConsSplit(s, FirstIndex(s[1..], x));
    }
  }

  /** Splitting a list's tail around a position, then putting its head back. */
  lemma ConsSplit(s: seq<nat>, i: nat)
    requires i + 1 < |s|
    ensures [s[0]] + (s[1..][..i] + s[1..][i + 1..]) == s[..i + 1] + s[i + 2..]
  {
    assert s[..i + 1] == [s[0]] + s[1..][..i];
    assert s[i + 2..] == s[1..][i + 1..];
  }

  /** The arena, whose components' fields are updated in place. */
  class Arena {
    var g: Graph

    ghost predicate Valid()
      reads this
    {
      Shaped(g) && InRange(g)
    }

    constructor ()
      ensures Valid() && g == Graph([], [], [], [], [], [])
    {
      g := Graph([], [], [], [], [], []);
    }

    /**
     * A new component has no inputs and no outputs and rank 0; a new
     * proposition's explicit value is false.
     */
    method NewComponent(k: Kind) returns (h: nat)
      requires Valid()
      modifies this
      ensures Valid()
      ensures h == |old(g.kind)|
      ensures g == Graph(old(g.kind) + [k], old(g.inputs) + [[]], old(g.outputs) + [[]],
                         old(g.index) + [0], old(g.topo) + [0], old(g.value) + [false])
    {
      h := |g.kind|;
      g := Graph(g.kind + [k], g.inputs + [[]], g.outputs + [[]],
                 g.index + [0], g.topo + [0], g.value + [false]);
    }

    method AddInput(c: nat, x: nat)
      requires Valid() && c < |g.kind| && x < |g.kind|
      modifies this
      ensures Valid()
      ensures g == old(g).(inputs := old(g).inputs[c := old(g).inputs[c] + [x]])
    {
      g := g.(inputs := g.inputs[c := g.inputs[c] + [x]]);
    }

    method AddOutput(c: nat, x: nat)
      requires Valid() && c < |g.kind| && x < |g.kind|
      modifies this
      ensures Valid()
      ensures g == old(g).(outputs := old(g).outputs[c := old(g).outputs[c] + [x]])
    {
      g := g.(outputs := g.outputs[c := g.outputs[c] + [x]]);
    }

    method RemoveInput(c: nat, x: nat)
      requires Valid() && c < |g.kind|
      modifies this
      ensures Valid()
      ensures g == old(g).(inputs := old(g).inputs[c := RemoveFirst(old(g).inputs[c], x)])
    {
      RemoveFirstEntries(g.inputs[c], x);
      g := g.(inputs := g.inputs[c := RemoveFirst(g.inputs[c], x)]);
    }

    method RemoveOutput(c: nat, x: nat)
      requires Valid() && c < |g.kind|
      modifies this
      ensures Valid()
      ensures g == old(g).(outputs := old(g).outputs[c := RemoveFirst(old(g).outputs[c], x)])
    {
      RemoveFirstEntries(g.outputs[c], x);
      g := g.(outputs := g.outputs[c := RemoveFirst(g.outputs[c], x)]);
    }

    method RemoveAllInputs(c: nat)
      requires Valid() && c < |g.kind|
      modifies this
      ensures Valid()
      ensures g == old(g).(inputs := old(g).inputs[c := []])
    {
      g := g.(inputs := g.inputs[c := []]);
    }

    method RemoveAllOutputs(c: nat)
      requires Valid() && c < |g.kind|
      modifies this
      ensures Valid()
      ensures g == old(g).(outputs := old(g).outputs[c := []])
    {
      g := g.(outputs := g.outputs[c := []]);
    }

    /** The input of a component that has exactly one. */
    function GetSingleInput(c: nat): (x: nat)
      reads this
      requires Valid() && c < |g.kind| && |g.inputs[c]| == 1
      ensures g.inputs[c] == [x] && x < |g.kind|
    {
      g.inputs[c][0]
    }

    /** The output of a component that has exactly one. */
    function GetSingleOutput(c: nat): (x: nat)
      reads this
      requires Valid() && c < |g.kind| && |g.outputs[c]| == 1
      ensures g.outputs[c] == [x] && x < |g.kind|
    {
      g.outputs[c][0]
    }

    method SetIndex(c: nat, i: nat)
      requires Valid() && c < |g.kind|
      modifies this
      ensures Valid()
      ensures g == old(g).(index := old(g).index[c := i])
    {
      g := g.(index := g.index[c := i]);
    }

    method SetTopoIndex(c: nat, i: nat)
      requires Valid() && c < |g.kind|
      modifies this
      ensures Valid()
      ensures g == old(g).(topo := old(g).topo[c := i])
    {
      g := g.(topo := g.topo[c := i]);
    }

    /** A proposition's explicit value; the bit vectors are not touched. */
    method SetValue(c: nat, v: bool)
      requires Valid() && c < |g.kind|
      modifies this
      ensures Valid()
      ensures g == old(g).(value := old(g).value[c := v])
    {
      g := g.(value := g.value[c := v]);
    }
  }
}
