/**
 * Structural invariants of a propositional network: which components are
 * live, how their edges mirror each other, the shape the factory guarantees
 * for NOT gates and transitions, and the absence of cycles that do not pass
 * through a transition (witnessed by a level per component).
 */
module Structure {
  import opened Gdl
  import opened Components
  import opened Propositions

  /** Live components are arena handles, and their edges stay among live components. */
  predicate Closed(g: Graph, live: set<nat>)
    requires Shaped(g)
  {
    (forall h :: h in live ==> h < |g.kind|)
    && (forall h, j :: h in live && 0 <= j < |g.inputs[h]| ==> g.inputs[h][j] in live)
    && (forall h, j :: h in live && 0 <= j < |g.outputs[h]| ==> g.outputs[h][j] in live)
  }

  /** Each edge is recorded at both ends, as often at one end as at the other. */
  predicate Symmetric(g: Graph, live: set<nat>)
    requires Shaped(g) && Closed(g, live)
  {
    forall c, d {:trigger Agree(g, c, d)} :: c in live && d in live ==> Agree(g, c, d)
  }

  /** `c` lists `d` among its outputs as often as `d` lists `c` among its inputs. */
  predicate Agree(g: Graph, c: nat, d: nat)
    requires Shaped(g) && c < |g.kind| && d < |g.kind|
  {
    Count(g.outputs[c], d) == Count(g.inputs[d], c)
  }

  /**
   * Levels strictly increase along every edge that does not leave a
   * transition: the network has no cycle except through transitions.
   */
  predicate Leveled(g: Graph, lvl: seq<nat>)
    requires Shaped(g) && InRange(g)
  {
    |lvl| == |g.kind|
    && (forall h :: 0 <= h < |g.kind| ==> lvl[h] < |g.kind|)
    && (forall h, j :: 0 <= h < |g.kind| && 0 <= j < |g.inputs[h]| && g.kind[g.inputs[h][j]] != Transition
          ==> lvl[g.inputs[h][j]] < lvl[h])
  }

  /**
   * A NOT gate has one input; a transition has one input and one output, and
   * that output is a proposition whose only input is the transition.
   */
  predicate Arity(g: Graph, live: set<nat>)
    requires Shaped(g) && InRange(g) && Closed(g, live)
  {
    forall h :: h in live ==>
      (g.kind[h] == Not ==> |g.inputs[h]| == 1)
      && (g.kind[h] == Transition ==>
            |g.inputs[h]| == 1 && |g.outputs[h]| == 1
            && g.kind[g.outputs[h][0]].Proposition? && g.inputs[g.outputs[h][0]] == [h])
  }

  /** What evaluating the network needs of its shape. */
  predicate Formed(g: Graph, live: set<nat>, lvl: seq<nat>)
  {
    Shaped(g) && InRange(g) && Closed(g, live) && Leveled(g, lvl) && Arity(g, live)
  }

  /** What editing and propagating through the network need of its shape. */
  predicate Wired(g: Graph, live: set<nat>, lvl: seq<nat>)
  {
    Formed(g, live, lvl) && Symmetric(g, live)
  }

  /** Edge counts depend on the edges only. */
  lemma SymmetricFrame(g: Graph, g': Graph, live: set<nat>)
    requires Shaped(g) && Shaped(g') && |g'.kind| == |g.kind| && g'.inputs == g.inputs && g'.outputs == g.outputs
    requires Closed(g, live) && Symmetric(g, live)
    ensures Closed(g', live) && Symmetric(g', live)
  {
    forall c, d | c in live && d in live ensures Agree(g', c, d) {
      assert Agree(g, c, d);
    }
  }

  /** An edge recorded on the input side is recorded on the output side. */
  lemma InputIsFedBy(g: Graph, live: set<nat>, h: nat, j: nat)
    requires Shaped(g) && Closed(g, live) && Symmetric(g, live)
    requires h in live && j < |g.inputs[h]|
    ensures h in g.outputs[g.inputs[h][j]]
  {
    var x := g.inputs[h][j];
    assert g.inputs[h][j] in g.inputs[h];
    assert Count(g.inputs[h], x) > 0;
    assert Agree(g, x, h);
  }

  /** An edge recorded on the output side is recorded on the input side. */
  lemma OutputIsFed(g: Graph, live: set<nat>, c: nat, j: nat)
    requires Shaped(g) && Closed(g, live) && Symmetric(g, live)
    requires c in live && j < |g.outputs[c]|
    ensures c in g.inputs[g.outputs[c][j]]
  {
    var d := g.outputs[c][j];
    assert g.outputs[c][j] in g.outputs[c];
    assert Count(g.outputs[c], d) > 0;
    assert Agree(g, c, d);
  }

  /** Levels also increase along the output lists of live components that are not transitions. */
  lemma OutputsAbove(g: Graph, live: set<nat>, lvl: seq<nat>, c: nat, j: nat)
    requires Wired(g, live, lvl)
    requires c in live && g.kind[c] != Transition && j < |g.outputs[c]|
    ensures lvl[c] < lvl[g.outputs[c][j]]
  {
    var d := g.outputs[c][j];
    OutputIsFed(g, live, c, j);
    var i :| 0 <= i < |g.inputs[d]| && g.inputs[d][i] == c;
  }

  lemma AllOutputsAbove(g: Graph, live: set<nat>, lvl: seq<nat>, c: nat)
    requires Wired(g, live, lvl) && c in live && g.kind[c] != Transition
    ensures forall j :: 0 <= j < |g.outputs[c]| ==> g.outputs[c][j] in live && lvl[c] < lvl[g.outputs[c][j]]
  {
    forall j | 0 <= j < |g.outputs[c]| ensures lvl[c] < lvl[g.outputs[c][j]] {
      OutputsAbove(g, live, lvl, c, j);
    }
  }

  /** The proposition a transition feeds is a base proposition. */
  lemma TransitionFeedsBase(g: Graph, live: set<nat>, lvl: seq<nat>, t: nat)
    requires Wired(g, live, lvl) && t in live && g.kind[t] == Transition
    ensures g.outputs[t][0] in live && IsBase(g, g.outputs[t][0])
  {
  }

  /** Two transitions never feed the same proposition. */
  lemma TransitionsFeedDistinct(g: Graph, live: set<nat>, lvl: seq<nat>, t: nat, u: nat)
    requires Wired(g, live, lvl) && t in live && u in live
    requires g.kind[t] == Transition && g.kind[u] == Transition && t != u
    ensures g.outputs[t][0] != g.outputs[u][0]
  {
  }
}
