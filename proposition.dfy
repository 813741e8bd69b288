/**
 * How a proposition classifies itself from its edges and its name.
 */
module Propositions {
  import opened Gdl
  import opened Components

  predicate IsProposition(g: Graph, h: nat)
    requires Shaped(g) && h < |g.kind|
  {
    g.kind[h].Proposition?
  }

  /** A base proposition has exactly one input, and that input is a transition. */
  function IsBase(g: Graph, h: nat): (b: bool)
    requires Shaped(g) && InRange(g) && h < |g.kind|
    ensures b ==> g.inputs[h] != [] && forall j :: 0 <= j < |g.inputs[h]| ==> g.kind[g.inputs[h][j]] == Transition
    ensures b <==> exists t :: 0 <= t < |g.kind| && g.kind[t] == Transition && g.inputs[h] == [t]
  {
    var b := |g.inputs[h]| == 1 && g.kind[g.inputs[h][0]] == Transition;
    assert b ==> g.inputs[h] == [g.inputs[h][0]];
    b
  }

  /** An input proposition is named by a `does` relation. */
  function IsInput(g: Graph, h: nat): (b: bool)
    requires Shaped(g) && h < |g.kind|
    ensures b ==> g.kind[h].Proposition? && g.kind[h].name.Rel?
    ensures b <==> exists body :: g.kind[h] == Proposition(Rel("does", body))
  {
    var b := g.kind[h].Proposition? && IsRelationNamed(g.kind[h].name, "does");
    assert b ==> g.kind[h] == Proposition(Rel("does", g.kind[h].name.body));
    b
  }

  /** A view proposition has exactly one input and is not base. */
  function IsView(g: Graph, h: nat): (b: bool)
    requires Shaped(g) && InRange(g) && h < |g.kind|
    ensures b ==> !IsBase(g, h)
    ensures b <==> |g.inputs[h]| == 1 && g.kind[g.inputs[h][0]] != Transition
  {
    !IsBase(g, h) && |g.inputs[h]| == 1
  }

  /**
   * Every one-input proposition is either base or view, never both, and a
   * proposition with any other number of inputs is neither.
   */
  lemma ClassificationPartitions(g: Graph, h: nat)
    requires Shaped(g) && InRange(g) && h < |g.kind|
    ensures |g.inputs[h]| == 1 <==> (IsBase(g, h) || IsView(g, h))
    ensures !(IsBase(g, h) && IsView(g, h))
  {
  }
}
