/**
 * The first pruning pass of construction: every view proposition with
 * exactly one output is spliced out, its input wired straight to its
 * output, and dropped from the live components.
 */
module Elision {
  import opened Components
  import opened Propositions
  import opened Structure

  /** A proposition the pass splices out: a view with exactly one output. */
  predicate Pointless(g: Graph, c: nat)
    requires Shaped(g) && InRange(g) && c < |g.kind|
  {
    g.kind[c].Proposition? && IsView(g, c) && |g.outputs[c]| == 1
  }

  /**
   * `g'` is `g` with `c` spliced out from between its input `x` and its
   * output `y`: `c` has no edges left, `x` feeds `y` in place of `c`, and
   * nothing else changes.
   */
  ghost predicate Spliced(g: Graph, g': Graph, c: nat, x: nat, y: nat)
    requires Shaped(g) && c < |g.kind| && x < |g.kind| && y < |g.kind|
  {
    Shaped(g') && g'.kind == g.kind && g'.index == g.index && g'.topo == g.topo && g'.value == g.value
    && g'.inputs[c] == [] && g'.outputs[c] == []
    && g'.outputs[x] == RemoveFirst(g.outputs[x], c) + [y]
    && g'.inputs[y] == RemoveFirst(g.inputs[y], c) + [x]
    && (forall h :: 0 <= h < |g.kind| && h != c && h != x ==> g'.outputs[h] == g.outputs[h])
    && (forall h :: 0 <= h < |g.kind| && h != c && h != y ==> g'.inputs[h] == g.inputs[h])
  }

  /** Splices a one-input, one-output component out, edge by edge. */
  method SpliceView(a: Arena, c: nat)
    requires a.Valid() && c < |a.g.kind| && |a.g.inputs[c]| == 1 && |a.g.outputs[c]| == 1
    requires a.g.inputs[c][0] != c && a.g.outputs[c][0] != c
    modifies a
    ensures a.Valid()
    ensures Spliced(old(a.g), a.g, c, old(a.g.inputs[c][0]), old(a.g.outputs[c][0]))
  {
    var x := a.GetSingleInput(c);
    var y := a.GetSingleOutput(c);
    a.RemoveOutput(x, c);
    a.RemoveInput(c, x);
    a.RemoveInput(y, c);
    a.RemoveOutput(c, y);
    a.AddOutput(x, y);
    a.AddInput(y, x);
  }

  /**
   * The ends of a live pointless proposition are live, distinct from it and
   * from each other, and each holds exactly one edge to it.
   */
  lemma SpliceEnds(g: Graph, live: set<nat>, lvl: seq<nat>, c: nat)
    requires Wired(g, live, lvl) && c in live && Pointless(g, c)
    ensures g.inputs[c][0] in live && g.outputs[c][0] in live
    ensures g.inputs[c][0] != c && g.outputs[c][0] != c && g.inputs[c][0] != g.outputs[c][0]
    ensures g.kind[g.inputs[c][0]] != Transition
    ensures Count(g.outputs[g.inputs[c][0]], c) == 1 && Count(g.inputs[g.outputs[c][0]], c) == 1
  {
    EndsApart(g, live, lvl, c);
    InputHoldsOne(g, live, lvl, c);
    OutputHoldsOne(g, live, lvl, c);
  }

  /** Levels rise from the input through the proposition to the output, so the three are distinct. */
  lemma EndsApart(g: Graph, live: set<nat>, lvl: seq<nat>, c: nat)
    requires Wired(g, live, lvl) && c in live && Pointless(g, c)
    ensures g.inputs[c][0] != c && g.outputs[c][0] != c && g.inputs[c][0] != g.outputs[c][0]
  {
    OutputsAbove(g, live, lvl, c, 0);
  }

  lemma InputHoldsOne(g: Graph, live: set<nat>, lvl: seq<nat>, c: nat)
    requires Wired(g, live, lvl) && c in live && Pointless(g, c)
    ensures Count(g.outputs[g.inputs[c][0]], c) == 1
  {
    assert |g.inputs[c]| == 1;
    assert g.inputs[c] == [g.inputs[c][0]];
    assert g.inputs[c][0] in live;
    assert Agree(g, g.inputs[c][0], c);
  }

  lemma OutputHoldsOne(g: Graph, live: set<nat>, lvl: seq<nat>, c: nat)
    requires Wired(g, live, lvl) && c in live && Pointless(g, c)
    ensures Count(g.inputs[g.outputs[c][0]], c) == 1
  {
    assert |g.outputs[c]| == 1;
    assert g.outputs[c] == [g.outputs[c][0]];
    assert g.outputs[c][0] in live;
    assert Agree(g, c, g.outputs[c][0]);
  }

  /** Taking one `c` out of an edge list and appending `z` adds one `z` and leaves the other counts but `c`'s. */
  lemma CountRemoveAppend(s: seq<nat>, c: nat, z: nat, d: nat)
    requires d != c
    ensures Count(RemoveFirst(s, c) + [z], d) == Count(s, d) + (if d == z then 1 else 0)
  {
    assert multiset(RemoveFirst(s, c) + [z]) == multiset(RemoveFirst(s, c)) + multiset{z};
  }

  /** After taking out the only `c`, every entry left was an entry before and is not `c`. */
  lemma RemovedOnly(s: seq<nat>, c: nat, e: nat)
    requires Count(s, c) == 1 && e in RemoveFirst(s, c)
    ensures e in s && e != c
  {
    assert multiset(RemoveFirst(s, c))[e] > 0;
  }

  /** The edge counts at a proposition with a single input and a single output. */
  lemma SingleCounts(g: Graph, live: set<nat>, c: nat, h: nat)
    requires Shaped(g) && Closed(g, live) && Symmetric(g, live) && c in live && h in live
    requires |g.inputs[c]| == 1 && |g.outputs[c]| == 1
    ensures Count(g.inputs[h], c) == (if h == g.outputs[c][0] then 1 else 0)
    ensures Count(g.outputs[h], c) == (if h == g.inputs[c][0] then 1 else 0)
  {
    assert g.inputs[c] == [g.inputs[c][0]];
    assert g.outputs[c] == [g.outputs[c][0]];
    assert Agree(g, c, h) && Agree(g, h, c);
  }

  /** After a splice, the inputs of a live component other than `c` are live and are not `c`. */
  lemma InputsStayLive(g: Graph, g': Graph, live: set<nat>, c: nat, x: nat, y: nat, h: nat)
    requires Shaped(g) && Closed(g, live) && c < |g.kind| && x < |g.kind| && y < |g.kind|
    requires Spliced(g, g', c, x, y)
    requires x in live - {c} && h in live - {c}
    requires Count(g.inputs[h], c) == (if h == y then 1 else 0)
    ensures forall j :: 0 <= j < |g'.inputs[h]| ==> g'.inputs[h][j] in live - {c}
  {
    forall j | 0 <= j < |g'.inputs[h]|
      ensures g'.inputs[h][j] in live - {c}
    {
      var e := g'.inputs[h][j];
      if h == y {
        var r := RemoveFirst(g.inputs[y], c);
        if j < |r| {
          assert e == r[j] && e in r;
          RemovedOnly(g.inputs[y], c, e);
          var k :| 0 <= k < |g.inputs[y]| && g.inputs[y][k] == e;
        }
      } else {
        assert g'.inputs[h] == g.inputs[h];
        assert e in g.inputs[h];
      }
    }
  }

  /** After a splice, the outputs of a live component other than `c` are live and are not `c`. */
  lemma OutputsStayLive(g: Graph, g': Graph, live: set<nat>, c: nat, x: nat, y: nat, h: nat)
    requires Shaped(g) && Closed(g, live) && c < |g.kind| && x < |g.kind| && y < |g.kind|
    requires Spliced(g, g', c, x, y)
    requires y in live - {c} && h in live - {c}
    requires Count(g.outputs[h], c) == (if h == x then 1 else 0)
    ensures forall j :: 0 <= j < |g'.outputs[h]| ==> g'.outputs[h][j] in live - {c}
  {
    forall j | 0 <= j < |g'.outputs[h]|
      ensures g'.outputs[h][j] in live - {c}
    {
      var e := g'.outputs[h][j];
      if h == x {
        var r := RemoveFirst(g.outputs[x], c);
        if j < |r| {
          assert e == r[j] && e in r;
          RemovedOnly(g.outputs[x], c, e);
          var k :| 0 <= k < |g.outputs[x]| && g.outputs[x][k] == e;
        }
      } else {
        assert g'.outputs[h] == g.outputs[h];
        assert e in g.outputs[h];
      }
    }
  }

  /** Splicing keeps edges among the live components other than `c`. */
  lemma SpliceClosed(g: Graph, g': Graph, live: set<nat>, lvl: seq<nat>, c: nat)
    requires Wired(g, live, lvl) && c in live && Pointless(g, c)
    requires Spliced(g, g', c, g.inputs[c][0], g.outputs[c][0])
    ensures Closed(g', live - {c})
  {
    var x, y := g.inputs[c][0], g.outputs[c][0];
    SpliceEnds(g, live, lvl, c);
    forall h | h in live - {c}
      ensures forall j :: 0 <= j < |g'.inputs[h]| ==> g'.inputs[h][j] in live - {c}
      ensures forall j :: 0 <= j < |g'.outputs[h]| ==> g'.outputs[h][j] in live - {c}
    {
      SingleCounts(g, live, c, h);
      InputsStayLive(g, g', live, c, x, y, h);
      OutputsStayLive(g, g', live, c, x, y, h);
    }
  }

  /** One edge count after a splice: both ends gain the new edge from `x` to `y`, nothing else moves. */
  lemma SplicedCount(g: Graph, g': Graph, c: nat, x: nat, y: nat, u: nat, d: nat)
    requires Shaped(g) && c < |g.kind| && x < |g.kind| && y < |g.kind| && Spliced(g, g', c, x, y)
    requires u < |g.kind| && d < |g.kind| && u != c && d != c
    requires Count(g.outputs[u], d) == Count(g.inputs[d], u)
    ensures Count(g'.outputs[u], d) == Count(g'.inputs[d], u)
  {
    if u == x {
      CountRemoveAppend(g.outputs[x], c, y, d);
    }
    if d == y {
      CountRemoveAppend(g.inputs[y], c, x, u);
    }
  }

  /** Splicing moves one edge at each end, so edge counts still agree at both ends. */
  lemma SpliceSymmetric(g: Graph, g': Graph, live: set<nat>, lvl: seq<nat>, c: nat)
    requires Wired(g, live, lvl) && c in live && Pointless(g, c)
    requires Spliced(g, g', c, g.inputs[c][0], g.outputs[c][0])
    requires Closed(g', live - {c})
    ensures Symmetric(g', live - {c})
  {
    var x, y := g.inputs[c][0], g.outputs[c][0];
    SpliceEnds(g, live, lvl, c);
    forall u, d | u in live - {c} && d in live - {c}
      ensures Agree(g', u, d)
    {
      assert Agree(g, u, d);
      SplicedCount(g, g', c, x, y, u, d);
    }
  }

  /** Levels still rise into every component after a splice. */
  lemma LeveledAt(g: Graph, g': Graph, lvl: seq<nat>, c: nat, x: nat, y: nat, h: nat)
    requires Shaped(g) && InRange(g) && Leveled(g, lvl)
    requires c < |g.kind| && x < |g.kind| && y < |g.kind| && Spliced(g, g', c, x, y) && InRange(g')
    requires c != y && g.kind[x] != Transition && lvl[x] < lvl[y] && h < |g.kind|
    ensures forall j :: 0 <= j < |g'.inputs[h]| && g'.kind[g'.inputs[h][j]] != Transition
              ==> lvl[g'.inputs[h][j]] < lvl[h]
  {
    forall j | 0 <= j < |g'.inputs[h]| && g'.kind[g'.inputs[h][j]] != Transition
      ensures lvl[g'.inputs[h][j]] < lvl[h]
    {
      var e := g'.inputs[h][j];
      if h == y {
        var r := RemoveFirst(g.inputs[y], c);
        if j < |r| {
          assert e == r[j] && e in r;
          var k :| 0 <= k < |g.inputs[y]| && g.inputs[y][k] == e;
        }
      } else if h != c {
        assert g'.inputs[h] == g.inputs[h];
      }
    }
  }

  /** Levels still rise along every spliced edge: the input, the proposition and the output had rising levels. */
  lemma SpliceLeveled(g: Graph, g': Graph, live: set<nat>, lvl: seq<nat>, c: nat)
    requires Wired(g, live, lvl) && c in live && Pointless(g, c)
    requires Spliced(g, g', c, g.inputs[c][0], g.outputs[c][0]) && InRange(g')
    ensures Leveled(g', lvl)
  {
    var x, y := g.inputs[c][0], g.outputs[c][0];
    SpliceEnds(g, live, lvl, c);
    LevelsThrough(g, live, lvl, c);
    forall h | 0 <= h < |g'.kind|
      ensures forall j :: 0 <= j < |g'.inputs[h]| && g'.kind[g'.inputs[h][j]] != Transition
                ==> lvl[g'.inputs[h][j]] < lvl[h]
    {
      LeveledAt(g, g', lvl, c, x, y, h);
    }
  }

  /** The input of a pointless proposition sits below its output. */
  lemma LevelsThrough(g: Graph, live: set<nat>, lvl: seq<nat>, c: nat)
    requires Wired(g, live, lvl) && c in live && Pointless(g, c)
    ensures lvl[g.inputs[c][0]] < lvl[g.outputs[c][0]]
  {
    OutputsAbove(g, live, lvl, c, 0);
  }

  /** A NOT gate or a transition keeps its shape across a splice. */
  lemma ArityAt(g: Graph, g': Graph, live: set<nat>, c: nat, x: nat, y: nat, h: nat)
    requires Shaped(g) && InRange(g) && Closed(g, live) && Arity(g, live)
    requires c < |g.kind| && x < |g.kind| && y < |g.kind| && Spliced(g, g', c, x, y) && InRange(g')
    requires g.inputs[c] == [x] && x != y && c != y && g.kind[x] != Transition && Count(g.inputs[y], c) == 1
    requires h in live - {c}
    ensures g'.kind[h] == Not ==> |g'.inputs[h]| == 1
    ensures g'.kind[h] == Transition ==>
              |g'.inputs[h]| == 1 && |g'.outputs[h]| == 1
              && g'.kind[g'.outputs[h][0]].Proposition? && g'.inputs[g'.outputs[h][0]] == [h]
  {
    assert |g'.inputs[y]| == |g.inputs[y]| by {
      assert multiset(g'.inputs[y]) == multiset(g.inputs[y]) - multiset{c} + multiset{x};
    }
    if g.kind[h] == Transition {
      assert h != x;
      var p := g.outputs[h][0];
      assert g'.outputs[h] == g.outputs[h];
      assert g.inputs[p] == [h];
      assert p != c;
      assert g'.inputs[p] == g.inputs[p];
    }
  }

  /** Splicing keeps the shape of NOT gates and transitions. */
  lemma SpliceArity(g: Graph, g': Graph, live: set<nat>, lvl: seq<nat>, c: nat)
    requires Wired(g, live, lvl) && c in live && Pointless(g, c)
    requires Spliced(g, g', c, g.inputs[c][0], g.outputs[c][0]) && InRange(g') && Closed(g', live - {c})
    ensures Arity(g', live - {c})
  {
    var x, y := g.inputs[c][0], g.outputs[c][0];
    SpliceEnds(g, live, lvl, c);
    SingleInput(g, c);
    forall h | h in live - {c}
      ensures g'.kind[h] == Not ==> |g'.inputs[h]| == 1
      ensures g'.kind[h] == Transition ==>
                |g'.inputs[h]| == 1 && |g'.outputs[h]| == 1
                && g'.kind[g'.outputs[h][0]].Proposition? && g'.inputs[g'.outputs[h][0]] == [h]
    {
      ArityAt(g, g', live, c, x, y, h);
    }
  }

  /** Splicing out a live pointless proposition keeps the rest of the network wired. */
  lemma SpliceWired(g: Graph, g': Graph, live: set<nat>, lvl: seq<nat>, c: nat)
    requires Wired(g, live, lvl) && c in live && Pointless(g, c)
    requires Spliced(g, g', c, g.inputs[c][0], g.outputs[c][0]) && InRange(g')
    ensures Wired(g', live - {c}, lvl)
  {
    SpliceClosed(g, g', live, lvl, c);
    SpliceSymmetric(g, g', live, lvl, c);
    SpliceLeveled(g, g', live, lvl, c);
    SpliceArity(g, g', live, lvl, c);
  }

  /** A splice touches only the view and its two ends. */
  lemma SplicedElsewhere(g: Graph, g': Graph, c: nat, x: nat, y: nat, h: nat)
    requires Shaped(g) && c < |g.kind| && x < |g.kind| && y < |g.kind| && Spliced(g, g', c, x, y)
    requires h < |g.kind| && h != c && h != x && h != y
    ensures g'.inputs[h] == g.inputs[h] && g'.outputs[h] == g.outputs[h]
  {
  }

  /** A component with one input has that input as its whole input list. */
  lemma SingleInput(g: Graph, c: nat)
    requires Shaped(g) && c < |g.kind| && |g.inputs[c]| == 1
    ensures g.inputs[c] == [g.inputs[c][0]]
  {
  }

  /**
   * Whether a component is pointless survives splicing out another one: the
   * output keeps as many inputs, none of them a transition in place of a
   * proposition, and the input keeps as many outputs.
   */
  lemma PointlessAt(g: Graph, g': Graph, c: nat, x: nat, y: nat, h: nat)
    requires Shaped(g) && InRange(g) && c < |g.kind| && x < |g.kind| && y < |g.kind|
    requires Spliced(g, g', c, x, y) && InRange(g')
    requires x != y && x != c && y != c && g.kind[c].Proposition? && g.kind[x] != Transition
    requires Count(g.inputs[y], c) == 1 && Count(g.outputs[x], c) == 1
    requires h < |g.kind| && h != c
    ensures Pointless(g', h) == Pointless(g, h) && IsBase(g', h) == IsBase(g, h)
  {
    if h == y {
      ViewAtOutput(g, g', c, x, y);
    } else if h == x {
      assert g'.inputs[x] == g.inputs[x];
      assert |g'.outputs[x]| == |g.outputs[x]| by {
        assert multiset(g'.outputs[x]) == multiset(g.outputs[x]) - multiset{c} + multiset{y};
      }
    } else {
      assert g'.inputs[h] == g.inputs[h] && g'.outputs[h] == g.outputs[h];
    }
  }

  /** The output of the splice keeps its number of inputs, and a lone input that was the view is now the view's input. */
  lemma ViewAtOutput(g: Graph, g': Graph, c: nat, x: nat, y: nat)
    requires Shaped(g) && InRange(g) && c < |g.kind| && x < |g.kind| && y < |g.kind|
    requires Spliced(g, g', c, x, y) && InRange(g')
    requires x != y && x != c && y != c && g.kind[c].Proposition? && g.kind[x] != Transition
    requires Count(g.inputs[y], c) == 1
    ensures g'.outputs[y] == g.outputs[y] && |g'.inputs[y]| == |g.inputs[y]|
    ensures |g.inputs[y]| == 1 ==> g.inputs[y] == [c] && g'.inputs[y] == [x]
  {
    assert |g'.inputs[y]| == |g.inputs[y]| by {
      assert multiset(g'.inputs[y]) == multiset(g.inputs[y]) - multiset{c} + multiset{x};
    }
    if |g.inputs[y]| == 1 {
      assert g.inputs[y] == [g.inputs[y][0]];
    }
  }

  lemma SplicePointless(g: Graph, g': Graph, live: set<nat>, lvl: seq<nat>, c: nat, h: nat)
    requires Wired(g, live, lvl) && c in live && Pointless(g, c)
    requires Spliced(g, g', c, g.inputs[c][0], g.outputs[c][0]) && InRange(g')
    requires h < |g.kind| && h != c
    ensures Pointless(g', h) == Pointless(g, h) && IsBase(g', h) == IsBase(g, h)
  {
    SpliceEnds(g, live, lvl, c);
    PointlessAt(g, g', c, g.inputs[c][0], g.outputs[c][0], h);
  }

  /**
   * Splices out one live pointless proposition: the rest stays wired, no
   * other component changes whether it is pointless, and components that are
   * not live keep their edges.
   */
  method SpliceOut(a: Arena, live: set<nat>, ghost lvl: seq<nat>, c: nat)
    requires a.Valid() && Wired(a.g, live, lvl) && c in live && Pointless(a.g, c)
    modifies a
    ensures a.Valid() && Wired(a.g, live - {c}, lvl)
    ensures a.g.kind == old(a.g.kind) && a.g.index == old(a.g.index)
    ensures a.g.topo == old(a.g.topo) && a.g.value == old(a.g.value)
    ensures a.g.inputs[c] == [] && a.g.outputs[c] == []
    ensures forall h :: h in live - {c} ==> Pointless(a.g, h) == Pointless(old(a.g), h)
    ensures forall h :: h in live - {c} ==> IsBase(a.g, h) == IsBase(old(a.g), h)
    ensures forall h :: 0 <= h < |a.g.kind| && h !in live ==>
              a.g.inputs[h] == old(a.g.inputs[h]) && a.g.outputs[h] == old(a.g.outputs[h])
  {
    SpliceEnds(a.g, live, lvl, c);
    ghost var g1 := a.g;
    SpliceView(a, c);
    SpliceWired(g1, a.g, live, lvl, c);
    forall h | h in live - {c}
      ensures Pointless(a.g, h) == Pointless(g1, h) && IsBase(a.g, h) == IsBase(g1, h)
    {
      SplicePointless(g1, a.g, live, lvl, c, h);
    }
    forall h | 0 <= h < |a.g.kind| && h !in live
      ensures a.g.inputs[h] == g1.inputs[h] && a.g.outputs[h] == g1.outputs[h]
    {
      SplicedElsewhere(g1, a.g, c, g1.inputs[c][0], g1.outputs[c][0], h);
    }
  }

  /** The components that went keep no edges when one more goes. */
  lemma Cleared(g1: Graph, g2: Graph, live: set<nat>, kept: set<nat>, c: nat)
    requires Shaped(g1) && Shaped(g2) && |g2.kind| == |g1.kind| && forall h :: h in live ==> h < |g1.kind|
    requires forall h :: h in live - kept ==> g1.inputs[h] == [] && g1.outputs[h] == []
    requires forall h :: 0 <= h < |g1.kind| && h !in kept ==>
               g2.inputs[h] == g1.inputs[h] && g2.outputs[h] == g1.outputs[h]
    requires c < |g2.kind| && g2.inputs[c] == [] && g2.outputs[c] == []
    ensures forall h :: h in live - (kept - {c}) ==> g2.inputs[h] == [] && g2.outputs[h] == []
  {
    forall h | h in live - (kept - {c})
      ensures g2.inputs[h] == [] && g2.outputs[h] == []
    {
      if h != c {
        assert h in live - kept;
      }
    }
  }

  /** One more component decided: it stays exactly when it is not pointless. */
  lemma Decided(g0: Graph, live: set<nat>, t0: set<nat>, k0: set<nat>, c: nat, pointless: bool)
    requires Shaped(g0) && InRange(g0) && forall h :: h in live ==> h < |g0.kind|
    requires forall h :: h in live - t0 ==> (h in k0 <==> !Pointless(g0, h))
    requires c in t0 && t0 <= k0 <= live && pointless == Pointless(g0, c)
    ensures forall h :: h in live - (t0 - {c}) ==>
              (h in (if pointless then k0 - {c} else k0) <==> !Pointless(g0, h))
  {
    forall h | h in live - (t0 - {c})
      ensures h in (if pointless then k0 - {c} else k0) <==> !Pointless(g0, h)
    {
      if h != c {
        assert h in live - t0;
      }
    }
  }

  /**
   * Part way through the pass: the components already looked at stay exactly
   * when they were not pointless at the start, those that stay are pointless
   * exactly when they were at the start, those that went have no edges, and
   * the rest of the network is wired.
   */
  ghost predicate Eliding(g0: Graph, g: Graph, live: set<nat>, todo: set<nat>, kept: set<nat>, lvl: seq<nat>)
  {
    Shaped(g0) && InRange(g0) && (forall h :: h in live ==> h < |g0.kind|)
    && todo <= kept <= live && Wired(g, kept, lvl)
    && g.kind == g0.kind && g.index == g0.index && g.topo == g0.topo && g.value == g0.value
    && (forall c :: c in live - todo ==> (c in kept <==> !Pointless(g0, c)))
    && (forall c :: c in kept ==> Pointless(g, c) == Pointless(g0, c))
    && (forall c :: c in kept ==> IsBase(g, c) == IsBase(g0, c))
    && (forall c :: c in live - kept ==> g.inputs[c] == [] && g.outputs[c] == [])
  }

  /** Looks at one more component and splices it out if it is pointless. */
  method ElideStep(a: Arena, ghost g0: Graph, live: set<nat>, ghost lvl: seq<nat>, todo: set<nat>, kept: set<nat>)
    returns (todo': set<nat>, kept': set<nat>)
    requires a.Valid() && Eliding(g0, a.g, live, todo, kept, lvl) && todo != {}
    modifies a
    ensures a.Valid() && Eliding(g0, a.g, live, todo', kept', lvl) && todo' < todo
  {
    var c :| c in todo;
    todo' := todo - {c};
    ghost var pointless := Pointless(a.g, c);
    assert pointless == Pointless(g0, c) by {
      assert c in kept;
    }
    kept' := kept;
    if Pointless(a.g, c) {
      ghost var g1 := a.g;
      SpliceOut(a, kept, lvl, c);
      kept' := kept - {c};
      Cleared(g1, a.g, live, kept, c);
    }
    Decided(g0, live, todo, kept, c, pointless);
  }

  /**
   * Splices out every live pointless proposition.  A splice does not change
   * whether any other component is pointless, so exactly the components that
   * were pointless to begin with go, none that stays is pointless, and the
   * network stays wired.
   */
  method ElideViews(a: Arena, live: set<nat>, ghost lvl: seq<nat>) returns (kept: set<nat>)
    requires a.Valid() && Wired(a.g, live, lvl)
    modifies a
    ensures a.Valid() && Wired(a.g, kept, lvl)
    ensures kept == set c | c in live && !Pointless(old(a.g), c)
    ensures forall c :: c in kept ==> !Pointless(a.g, c)
    ensures forall c :: c in kept ==> IsBase(a.g, c) == IsBase(old(a.g), c)
    ensures forall c :: c in live - kept ==> a.g.inputs[c] == [] && a.g.outputs[c] == []
    ensures a.g.kind == old(a.g.kind) && a.g.index == old(a.g.index)
    ensures a.g.topo == old(a.g.topo) && a.g.value == old(a.g.value)
  {
    ghost var g0 := a.g;
    kept := live;
    var todo := live;
    while todo != {}
      invariant a.Valid() && Eliding(g0, a.g, live, todo, kept, lvl)
      decreases todo
    {
      todo, kept := ElideStep(a, g0, live, lvl, todo, kept);
    }
  }
}
