/**
 * Propagation ranks.  A visitor root points at the components the walk
 * starts from; a depth-first walk from the root along output edges records
 * each component when it is entered and again after each of its children;
 * scanning that trace from its end, each component is ranked at its first
 * sighting, so that ranks follow the reverse order of last sightings.
 *
 * The walk comes in two variants.  The source's walk starts from the
 * components without inputs that have outputs and follows every output
 * edge.  The corrected walk (`cut`) starts from every component whose
 * inputs are all transitions and does not pass through transitions; its
 * ranks rise along every edge the propagation follows.
 */
module Ranking {
  import opened Gdl
  import opened Components
  import opened Structure
  import opened Recording
  import opened Propagation
  import Pruning

  /**
   * A component the root points at: for the source's walk, one without
   * inputs that has outputs; for the corrected walk, one all of whose
   * inputs are transitions.
   */
  predicate Source(g: Graph, cut: bool, c: nat)
    requires Shaped(g) && InRange(g) && c < |g.kind|
  {
    if cut then forall j :: 0 <= j < |g.inputs[c]| ==> g.kind[g.inputs[c][j]] == Transition
    else |g.inputs[c]| == 0 && |g.outputs[c]| > 0
  }

  /** The components the visitor root points at, each once. */
  method SetupVisitorRoot(g: Graph, live: set<nat>, cut: bool) returns (outs: seq<nat>)
    requires Shaped(g) && InRange(g) && Handles(g, live)
    ensures forall c :: c in outs <==> c in live && Source(g, cut, c)
    ensures forall i, j :: 0 <= i < j < |outs| ==> outs[i] != outs[j]
  {
    outs := [];
    var todo := live;
    while todo != {}
      invariant todo <= live
      invariant forall c :: c in outs <==> c in live - todo && Source(g, cut, c)
      invariant forall i, j :: 0 <= i < j < |outs| ==> outs[i] != outs[j]
    {
      var c :| c in todo;
      if Source(g, cut, c) {
        outs := outs + [c];
      }
      todo := todo - {c};
    }
  }

  // ---------------------------------------------------------------------------
  // The walk
  // ---------------------------------------------------------------------------

  /** What the walk sees of the network: kinds, output lists, the root's list, and whether it stops at transitions. */
  datatype Walker = Walker(kind: seq<Kind>, outputs: seq<seq<nat>>, roots: seq<nat>, cut: bool)

  function WalkerOf(g: Graph, roots: seq<nat>, cut: bool): Walker
  {
    Walker(g.kind, g.outputs, roots, cut)
  }

  /** Every edge and every root names a component of the arena. */
  predicate Fits(w: Walker)
  {
    |w.outputs| == |w.kind|
    && (forall h, j :: 0 <= h < |w.kind| && 0 <= j < |w.outputs[h]| ==> w.outputs[h][j] < |w.kind|)
    && (forall x :: x in w.roots ==> x < |w.kind|)
  }

  /** The visitor root is the handle just past the arena. */
  function Root(w: Walker): nat
  {
    |w.kind|
  }

  /**
   * What the walk follows out of a handle: the root's list for the root, a
   * component's output list otherwise, and nothing out of a transition when
   * the walk stops at transitions.
   */
  function Children(w: Walker, c: nat): seq<nat>
    requires |w.outputs| == |w.kind|
  {
    if c == Root(w) then w.roots
    else if c < |w.kind| && !(w.cut && w.kind[c] == Transition) then w.outputs[c]
    else []
  }

  /** The handles of a trace are the arena's and the root. */
  predicate Within(w: Walker, s: seq<nat>)
  {
    forall x :: x in s ==> x <= Root(w)
  }

  /** The handles the walk can meet. */
  function Universe(w: Walker): set<nat>
  {
    UpTo(|w.kind| + 1)
  }

  function UpTo(n: nat): (r: set<nat>)
    ensures forall x: nat :: x in r <==> x < n
  {
    if n == 0 then {}
    else
      var r := UpTo(n - 1) + {n - 1};
      assert forall x: nat :: x in r <==> x < n by {
        forall x: nat ensures x in r <==> x < n {
          if x < n - 1 { assert x in UpTo(n - 1); }
        }
      }
      r
  }

  function Elems(s: seq<nat>): set<nat>
  {
    set x | x in s
  }

  /** A trace that extends another keeps all its entries. */
  lemma Extends(before: seq<nat>, after: seq<nat>)
    requires |before| <= |after| && after[..|before|] == before
    ensures Elems(before) <= Elems(after)
  {
    forall x | x in before ensures x in after {
      var j :| 0 <= j < |before| && before[j] == x;
      assert after[..|before|][j] == x;
    }
  }

  /** Entering a new handle shrinks what is left to meet. */
  lemma Shrinks(w: Walker, before: seq<nat>, after: seq<nat>, c: nat)
    requires c <= Root(w) && c !in before && Elems(before) + {c} <= Elems(after)
    ensures |Universe(w) - Elems(after)| < |Universe(w) - Elems(before)|
  {
    Pruning.SubsetSize(Universe(w) - Elems(after), Universe(w) - Elems(before) - {c});
  }

  /** The children of a handle are handles of the arena. */
  lemma ChildrenFit(w: Walker, c: nat)
    requires Fits(w)
    ensures forall y :: y in Children(w, c) ==> y < Root(w)
  {
    if c < |w.kind| && !(w.cut && w.kind[c] == Transition) {
      forall y | y in Children(w, c) ensures y < Root(w) {
        var j :| 0 <= j < |w.outputs[c]| && w.outputs[c][j] == y;
      }
    }
  }

  /**
   * The trace a visit of `c` leaves: unchanged when the trace already holds
   * `c`; otherwise `c` is recorded, then each child is visited in list order
   * and `c` recorded again after each.
   */
  function Walk(w: Walker, c: nat, trace: seq<nat>): (t: seq<nat>)
    requires Fits(w) && c <= Root(w) && Within(w, trace)
    ensures |trace| <= |t| && t[..|trace|] == trace
    ensures c in t && Within(w, t)
    decreases |Universe(w) - Elems(trace)|, 1, 0, 0
  {
    if c in trace then trace
    else
      var t := Kids(w, c, trace, 0, trace + [c]);
      assert t[..|trace|] == (trace + [c])[..|trace|];
      assert t[|trace|] == c;
      t
  }

  /** The rest of a visit of `c` (entered on `entry`) from its `i`th child on, with `t` the trace so far. */
  function Kids(w: Walker, c: nat, entry: seq<nat>, i: nat, t: seq<nat>): (t': seq<nat>)
    requires Fits(w) && c <= Root(w) && c !in entry && i <= |Children(w, c)|
    requires Within(w, t) && |entry| < |t| && t[..|entry|] == entry && c in t
    ensures |t| <= |t'| && t'[..|t|] == t && Within(w, t')
    decreases |Universe(w) - Elems(entry)|, 0, |Children(w, c)| - i, 0
  {
    if i == |Children(w, c)| then t
    else
      ChildrenFit(w, c);
      Extends(entry, t);
      Shrinks(w, entry, t, c);
      assert Children(w, c)[i] in Children(w, c);
      var t1 := Walk(w, Children(w, c)[i], t);
      var t2 := t1 + [c];
      assert t2[..|t|] == t;
      assert t2[..|entry|] == entry by {
        assert t2[..|entry|] == t2[..|t|][..|entry|];
      }
      var r := Kids(w, c, entry, i + 1, t2);
      assert r[..|t|] == r[..|t2|][..|t|];
      r
  }

  /**
   * Visits `c`, as the source's recursive visit does: nothing when the
   * trace already holds it; otherwise records it, then visits each child and
   * records `c` again after each.
   */
  method Visit(w: Walker, c: nat, trace: seq<nat>) returns (trace': seq<nat>)
    requires Fits(w) && c <= Root(w) && Within(w, trace)
    ensures trace' == Walk(w, c, trace)
    decreases |Universe(w) - Elems(trace)|
  {
    if c in trace {
      return trace;
    }
    trace' := trace + [c];
    var kids := Children(w, c);
    ChildrenFit(w, c);
    var i := 0;
    while i < |kids|
      invariant 0 <= i <= |kids|
      invariant Within(w, trace') && |trace| < |trace'| && trace'[..|trace|] == trace && c in trace'
      invariant Kids(w, c, trace, i, trace') == Walk(w, c, trace)
    {
      Extends(trace, trace');
      Shrinks(w, trace, trace', c);
      assert kids[i] in kids;
      ghost var next := NextKid(w, c, trace, i, trace');
      trace' := Visit(w, kids[i], trace');
      trace' := trace' + [c];
      assert trace' == next;
      i := i + 1;
    }
  }

  // ---------------------------------------------------------------------------
  // Paths and last sightings
  // ---------------------------------------------------------------------------

  /** A path of the walk: each handle after the first is a child of the one before. */
  ghost predicate Path(w: Walker, p: seq<nat>)
    requires |w.outputs| == |w.kind|
  {
    |p| > 0 && forall i :: 0 <= i < |p| - 1 ==> p[i + 1] in Children(w, p[i])
  }

  /** The walk leads from `y` to `x`. */
  ghost predicate Reaches(w: Walker, y: nat, x: nat)
    requires |w.outputs| == |w.kind|
  {
    exists p :: Path(w, p) && p[0] == y && p[|p| - 1] == x
  }

  lemma ReachesSelf(w: Walker, x: nat)
    requires |w.outputs| == |w.kind|
    ensures Reaches(w, x, x)
  {
    assert Path(w, [x]);
  }

  /** A handle leads wherever its children lead. */
  lemma ReachesFrom(w: Walker, c: nat, y: nat, x: nat)
    requires |w.outputs| == |w.kind| && y in Children(w, c) && Reaches(w, y, x)
    ensures Reaches(w, c, x)
  {
    var p :| Path(w, p) && p[0] == y && p[|p| - 1] == x;
    var q := [c] + p;
    forall i | 0 <= i < |q| - 1 ensures q[i + 1] in Children(w, q[i]) {
      if i > 0 {
        assert q[i + 1] == p[i] && q[i] == p[i - 1];
      }
    }
    assert Path(w, q) && q[0] == c && q[|q| - 1] == x;
  }

  /** What leads to a handle leads to its children. */
  lemma ReachesTo(w: Walker, y: nat, c: nat, x: nat)
    requires |w.outputs| == |w.kind| && Reaches(w, y, c) && x in Children(w, c)
    ensures Reaches(w, y, x)
  {
    var p :| Path(w, p) && p[0] == y && p[|p| - 1] == c;
    var q := p + [x];
    forall i | 0 <= i < |q| - 1 ensures q[i + 1] in Children(w, q[i]) {
      if i < |p| - 1 {
        assert q[i + 1] == p[i + 1] && q[i] == p[i];
      }
    }
    assert Path(w, q) && q[0] == y && q[|q| - 1] == x;
  }

  /** The position of the last sighting of `x` in `s`, or -1 when there is none. */
  function Last(s: seq<nat>, x: nat): (r: int)
    ensures -1 <= r < |s|
    ensures r >= 0 ==> s[r] == x
    ensures forall p :: r < p < |s| ==> s[p] != x
  {
    if |s| == 0 then -1
    else if s[|s| - 1] == x then |s| - 1
    else
      var r := Last(s[..|s| - 1], x);
      assert forall p :: r < p < |s| - 1 ==> s[p] == s[..|s| - 1][p];
      r
  }

  /** A sighting with none after it is the last one. */
  lemma LastAt(s: seq<nat>, x: nat, i: nat)
    requires i < |s| && s[i] == x && forall p :: i < p < |s| ==> s[p] != x
    ensures Last(s, x) == i
  {
  }

  /** Extending a trace with entries other than `x` keeps `x`'s last sighting. */
  lemma LastKept(s: seq<nat>, s': seq<nat>, x: nat)
    requires |s| <= |s'| && s'[..|s|] == s && forall p :: |s| <= p < |s'| ==> s'[p] != x
    ensures Last(s', x) == Last(s, x)
  {
    var r := Last(s', x);
    if r >= 0 {
      assert s[r] == s'[r];
      forall p | r < p < |s| ensures s[p] != x {
        assert s[p] == s'[p];
      }
      LastAt(s, x, r);
    } else {
      assert forall p :: 0 <= p < |s| ==> s[p] == s'[p];
    }
  }

  // ---------------------------------------------------------------------------
  // What a visit leaves
  // ---------------------------------------------------------------------------

  /** Every child of `x` is in `t`. */
  ghost predicate Closes(w: Walker, t: seq<nat>, x: nat)
    requires |w.outputs| == |w.kind|
  {
    forall y :: y in Children(w, x) ==> y in t
  }

  /** Every child of `x` last sighted after `x` leads back to `x`. */
  ghost predicate BackOk(w: Walker, t: seq<nat>, x: nat)
    requires |w.outputs| == |w.kind|
  {
    forall y :: y in Children(w, x) && Last(t, y) > Last(t, x) ==> Reaches(w, y, x)
  }

  /** What the handles a visit entered satisfy in the trace `t`. */
  ghost predicate Entered(w: Walker, c: nat, t: seq<nat>, x: nat)
    requires |w.outputs| == |w.kind|
  {
    Closes(w, t, x) && Reaches(w, c, x) && BackOk(w, t, x)
  }

  /**
   * What a finished visit of `c` from `trace` leaves in `t`: nothing new when
   * `c` was already there; otherwise only new handles and `c` are recorded,
   * `c` last, and every new handle has its children recorded, is led to from
   * `c`, and has only children leading back to it sighted after it.
   */
  ghost predicate Visited(w: Walker, c: nat, trace: seq<nat>, t: seq<nat>)
    requires Fits(w) && |trace| <= |t|
  {
    (c in trace ==> t == trace)
    && (forall p :: |trace| <= p < |t| ==> t[p] == c || t[p] !in trace)
    && (forall x :: x in t && x !in trace ==> Entered(w, c, t, x))
    && (c !in trace ==> |trace| < |t| && t[|t| - 1] == c)
  }

  /** What a visit of `c` entered on `entry` leaves once its first `i` children are visited. */
  ghost predicate Visiting(w: Walker, c: nat, entry: seq<nat>, i: nat, t: seq<nat>)
    requires Fits(w) && |entry| < |t| && i <= |Children(w, c)|
  {
    (forall p :: |entry| <= p < |t| ==> t[p] == c || t[p] !in entry)
    && (forall x :: x in t && x !in entry && x != c ==> Entered(w, c, t, x))
    && t[|t| - 1] == c
    && (forall j :: 0 <= j < i ==> Children(w, c)[j] in t)
  }

  /** The walk leaves what `Visited` says. */
  lemma {:induction false} WalkVisits(w: Walker, c: nat, trace: seq<nat>)
    requires Fits(w) && c <= Root(w) && Within(w, trace)
    ensures Visited(w, c, trace, Walk(w, c, trace))
    decreases |Universe(w) - Elems(trace)|, 1, 0, 0
  {
    if c !in trace {
      var t0 := trace + [c];
      assert t0[..|trace|] == trace;
      KidsVisit(w, c, trace, 0, t0);
      var t := Walk(w, c, trace);
      assert t == Kids(w, c, trace, 0, t0);
      ReachesSelf(w, c);
      LastAt(t, c, |t| - 1);
      assert Entered(w, c, t, c);
    }
  }

  /** Visiting the remaining children keeps `Visiting` and gets every child recorded. */
  lemma {:induction false} KidsVisit(w: Walker, c: nat, entry: seq<nat>, i: nat, t: seq<nat>)
    requires Fits(w) && c <= Root(w) && c !in entry && i <= |Children(w, c)|
    requires Within(w, t) && |entry| < |t| && t[..|entry|] == entry && c in t
    requires Visiting(w, c, entry, i, t)
    ensures Visiting(w, c, entry, |Children(w, c)|, Kids(w, c, entry, i, t))
    decreases |Universe(w) - Elems(entry)|, 0, |Children(w, c)| - i, 1
  {
    if i < |Children(w, c)| {
      var t2 := KidStep(w, c, entry, i, t);
      KidsVisit(w, c, entry, i + 1, t2);
    }
  }

  /** Visiting the `i`th child and recording `c` again keeps `Visiting` one child further. */
  lemma {:induction false} KidStep(w: Walker, c: nat, entry: seq<nat>, i: nat, t: seq<nat>) returns (t2: seq<nat>)
    requires Fits(w) && c <= Root(w) && c !in entry && i < |Children(w, c)|
    requires Within(w, t) && |entry| < |t| && t[..|entry|] == entry && c in t
    requires Visiting(w, c, entry, i, t)
    ensures Within(w, t2) && |entry| < |t2| && t2[..|entry|] == entry && c in t2
    ensures Kids(w, c, entry, i, t) == Kids(w, c, entry, i + 1, t2)
    ensures Visiting(w, c, entry, i + 1, t2)
    decreases |Universe(w) - Elems(entry)|, 0, |Children(w, c)| - i, 0
  {
    ChildrenFit(w, c);
    Extends(entry, t);
    Shrinks(w, entry, t, c);
    var kid := Children(w, c)[i];
    assert kid in Children(w, c);
    WalkVisits(w, kid, t);
    t2 := NextKid(w, c, entry, i, t);
    StepVisiting(w, c, entry, i, t, Walk(w, kid, t), t2);
  }

  /** The trace after the `i`th child's visit and `c` recorded again, from which the rest of the visit goes on. */
  lemma NextKid(w: Walker, c: nat, entry: seq<nat>, i: nat, t: seq<nat>) returns (t2: seq<nat>)
    requires Fits(w) && c <= Root(w) && c !in entry && i < |Children(w, c)|
    requires Within(w, t) && |entry| < |t| && t[..|entry|] == entry && c in t
    requires Children(w, c)[i] <= Root(w)
    ensures t2 == Walk(w, Children(w, c)[i], t) + [c]
    ensures Within(w, t2) && |entry| < |t2| && t2[..|entry|] == entry && c in t2
    ensures Kids(w, c, entry, i, t) == Kids(w, c, entry, i + 1, t2)
  {
    var t1 := Walk(w, Children(w, c)[i], t);
    t2 := t1 + [c];
    assert t2[..|t|] == t;
    assert t2[..|entry|] == t2[..|t|][..|entry|];
  }

  /** A visit of a handle with a single child is that child's visit between two records of the handle. */
  lemma OnlyChild(w: Walker, c: nat, trace: seq<nat>)
    requires Fits(w) && c <= Root(w) && Within(w, trace) && c !in trace && |Children(w, c)| == 1
    ensures Children(w, c)[0] <= Root(w) && Within(w, trace + [c])
    ensures Walk(w, c, trace) == Walk(w, Children(w, c)[0], trace + [c]) + [c]
  {
    ChildrenFit(w, c);
    assert Children(w, c)[0] in Children(w, c);
    var t0 := trace + [c];
    assert t0[..|trace|] == trace;
    var t := NextKid(w, c, trace, 0, t0);
  }

  /** Visiting the `i`th child and recording `c` again keeps `Visiting`. */
  lemma StepVisiting(w: Walker, c: nat, entry: seq<nat>, i: nat, t: seq<nat>, t1: seq<nat>, t2: seq<nat>)
    requires Fits(w) && c <= Root(w) && c !in entry && i < |Children(w, c)|
    requires |entry| < |t| && t[..|entry|] == entry && c in t
    requires Visiting(w, c, entry, i, t)
    requires |t| <= |t1| && t1[..|t|] == t && Children(w, c)[i] in t1
    requires Visited(w, Children(w, c)[i], t, t1) && t2 == t1 + [c]
    ensures |entry| < |t2| && Visiting(w, c, entry, i + 1, t2)
  {
    var kid := Children(w, c)[i];
    Extends(entry, t);
    assert Fresh: forall p :: |t| <= p < |t1| ==> t1[p] !in t by {
      forall p | |t| <= p < |t1| ensures t1[p] !in t {
        assert kid !in t;
      }
    }
    forall p | |entry| <= p < |t2| ensures t2[p] == c || t2[p] !in entry {
      if p < |t| {
        assert t2[p] == t[p];
      } else if p < |t1| {
        assert t2[p] == t1[p] && t1[p] !in t;
      }
    }
    forall x | x in t2 && x !in entry && x != c ensures Entered(w, c, t2, x) {
      assert x in t1;
      if x in t {
        KeptEntered(w, c, t, t1, t2, x);
      } else {
        NewEntered(w, c, kid, t, t1, t2, x);
      }
    }
    forall j | 0 <= j < i + 1 ensures Children(w, c)[j] in t2 {
      if j < i {
        assert Children(w, c)[j] in Elems(t);
      }
    }
  }

  /** A handle entered before the child's visit stays entered. */
  lemma KeptEntered(w: Walker, c: nat, t: seq<nat>, t1: seq<nat>, t2: seq<nat>, x: nat)
    requires Fits(w) && |t| <= |t1| && t1[..|t|] == t && t2 == t1 + [c]
    requires forall p :: |t| <= p < |t1| ==> t1[p] !in t
    requires x in t && x != c && Entered(w, c, t, x)
    ensures Entered(w, c, t2, x)
  {
    Extends(t, t1);
    assert t2[..|t|] == t;
    LastKept(t, t2, x);
    forall y | y in Children(w, x) && Last(t2, y) > Last(t2, x) ensures Reaches(w, y, x) {
      if y != c {
        assert y in t;
        LastKept(t, t2, y);
      }
    }
  }

  /** A handle the child's visit entered is entered by the visit of `c`. */
  lemma NewEntered(w: Walker, c: nat, kid: nat, t: seq<nat>, t1: seq<nat>, t2: seq<nat>, x: nat)
    requires Fits(w) && kid in Children(w, c) && |t| <= |t1| && t2 == t1 + [c]
    requires x in t1 && x != c && Entered(w, kid, t1, x)
    ensures Entered(w, c, t2, x)
  {
    ReachesFrom(w, c, kid, x);
    assert t2[..|t1|] == t1;
    LastKept(t1, t2, x);
    forall y | y in Children(w, x) && Last(t2, y) > Last(t2, x) ensures Reaches(w, y, x) {
      if y != c {
        LastKept(t1, t2, y);
      }
    }
  }

  // ---------------------------------------------------------------------------
  // Ranking
  // ---------------------------------------------------------------------------

  /** The trace of the whole walk, from the root. */
  function Trace(w: Walker): (t: seq<nat>)
    requires Fits(w)
  {
    Walk(w, Root(w), [])
  }

  /**
   * Ranks as the scan leaves them: the order holds, each once and ranked by
   * its place, exactly the components the walk sighted, in decreasing order
   * of their last sighting.
   */
  ghost predicate WalkRanked(g: Graph, roots: seq<nat>, cut: bool, order: seq<nat>)
    requires Shaped(g) && Fits(WalkerOf(g, roots, cut))
  {
    var w := WalkerOf(g, roots, cut);
    var t := Trace(w);
    (forall i, j :: 0 <= i < j < |order| ==> order[i] != order[j])
    && (forall k :: 0 <= k < |order| ==> order[k] < |g.kind| && g.topo[order[k]] == k)
    && (forall x :: x in order <==> x in t && x != Root(w))
    && (forall i, j :: 0 <= i < j < |order| ==> Last(t, order[i]) > Last(t, order[j]))
  }

  /** The scan so far: the components other than the root sighted from `ii` on, by decreasing last sighting. */
  ghost predicate Scanned(trace: seq<nat>, root: nat, ii: nat, order: seq<nat>)
  {
    (forall i, j :: 0 <= i < j < |order| ==> order[i] != order[j])
    && (forall x :: x in order <==> x != root && Last(trace, x) >= ii)
    && (forall i, j :: 0 <= i < j < |order| ==> Last(trace, order[i]) > Last(trace, order[j]))
  }

  /** One more entry scanned from the end: ranked when it is new and not the root. */
  lemma ScanStep(trace: seq<nat>, root: nat, ii: nat, order: seq<nat>, order': seq<nat>)
    requires ii < |trace| && Scanned(trace, root, ii + 1, order)
    requires order' == if trace[ii] !in order && trace[ii] != root then order + [trace[ii]] else order
    ensures Scanned(trace, root, ii, order')
  {
    var pc := trace[ii];
    assert Last(trace, pc) >= ii;
    forall x | x != pc ensures Last(trace, x) >= ii <==> Last(trace, x) >= ii + 1 {
      assert trace[ii] != x;
    }
    if pc !in order && pc != root {
      assert Last(trace, pc) == ii;
      forall k | 0 <= k < |order| ensures Last(trace, order[k]) > ii {
        assert order[k] in order;
      }
    }
  }

  /** A handle has a last sighting exactly when it is in the trace. */
  lemma Sighted(trace: seq<nat>, x: nat)
    ensures Last(trace, x) >= 0 <==> x in trace
  {
    if x in trace {
      var p :| 0 <= p < |trace| && trace[p] == x;
    }
  }

  /**
   * Builds the propagation order: walks from the visitor root, then scans
   * the trace from its end, ranking each component other than the root at
   * its first sighting.  Only ranks change, and only those of the ranked
   * components.
   */
  method SetupVisitationList(a: Arena, roots: seq<nat>, cut: bool) returns (order: seq<nat>)
    requires a.Valid() && forall x :: x in roots ==> x < |a.g.kind|
    modifies a
    ensures a.Valid() && a.g == old(a.g).(topo := a.g.topo)
    ensures Fits(WalkerOf(a.g, roots, cut)) && WalkRanked(a.g, roots, cut, order)
    ensures forall h :: 0 <= h < |a.g.kind| && h !in order ==> a.g.topo[h] == old(a.g.topo[h])
  {
    ghost var g0 := a.g;
    var w := WalkerOf(a.g, roots, cut);
    var root := |a.g.kind|;
    var trace := Visit(w, root, []);
    order := [];
    var ii := |trace|;
    while ii > 0
      invariant 0 <= ii <= |trace|
      invariant a.Valid() && a.g == g0.(topo := a.g.topo) && |a.g.topo| == |g0.kind|
      invariant Scanned(trace, root, ii, order)
      invariant forall k :: 0 <= k < |order| ==> order[k] < |a.g.topo| && a.g.topo[order[k]] == k
      invariant forall h :: 0 <= h < |a.g.kind| && h !in order ==> a.g.topo[h] == g0.topo[h]
    {
      ii := ii - 1;
      var pc := trace[ii];
      ghost var prior := order;
      if pc !in order && pc != root {
        assert pc in trace && pc < |a.g.topo|;
        a.SetTopoIndex(pc, |order|);
        order := order + [pc];
      }
      ScanStep(trace, root, ii, prior, order);
    }
    forall x: nat ensures Last(trace, x) >= 0 <==> x in trace {
      Sighted(trace, x);
    }
    assert WalkerOf(a.g, roots, cut) == w;
  }

  // ---------------------------------------------------------------------------
  // What the ranks mean
  // ---------------------------------------------------------------------------

  /** The whole walk's trace: every handle in it has its children in it, is led to from the root, and keeps `BackOk`. */
  lemma TraceEntered(w: Walker)
    requires Fits(w)
    ensures forall x :: x in Trace(w) ==> Entered(w, Root(w), Trace(w), x)
  {
    WalkVisits(w, Root(w), []);
  }

  /** A trace whose every handle has its children in it holds everything its handles lead to. */
  lemma ClosedReach(w: Walker, t: seq<nat>, y: nat, x: nat)
    requires |w.outputs| == |w.kind| && (forall z :: z in t ==> Closes(w, t, z))
    requires y in t && Reaches(w, y, x)
    ensures x in t
  {
    var p :| Path(w, p) && p[0] == y && p[|p| - 1] == x;
    var i := 0;
    while i < |p| - 1
      invariant 0 <= i < |p| && p[i] in t
    {
      assert Closes(w, t, p[i]);
      i := i + 1;
    }
  }

  /** The ranked components are exactly those the root leads to. */
  lemma RankedReached(g: Graph, roots: seq<nat>, cut: bool, order: seq<nat>)
    requires Shaped(g) && Fits(WalkerOf(g, roots, cut)) && WalkRanked(g, roots, cut, order)
    ensures forall x :: x in order <==> x != |g.kind| && Reaches(WalkerOf(g, roots, cut), |g.kind|, x)
  {
    var w := WalkerOf(g, roots, cut);
    var t := Trace(w);
    TraceEntered(w);
    assert Root(w) in t;
    forall x | x != |g.kind| && Reaches(w, |g.kind|, x) ensures x in order {
      ClosedReach(w, t, Root(w), x);
    }
  }

  /**
   * The reverse post-order property: a ranked component's child is ranked,
   * and when it is ranked below the component it leads back to it, so every
   * edge ranked backward closes a cycle of the walk.
   */
  lemma RankedBackEdges(g: Graph, roots: seq<nat>, cut: bool, order: seq<nat>)
    requires Shaped(g) && Fits(WalkerOf(g, roots, cut)) && WalkRanked(g, roots, cut, order)
    ensures forall x, y :: x in order && y in Children(WalkerOf(g, roots, cut), x)
              ==> y in order && (g.topo[y] < g.topo[x] ==> Reaches(WalkerOf(g, roots, cut), y, x))
  {
    forall x, y | x in order && y in Children(WalkerOf(g, roots, cut), x)
      ensures y in order && (g.topo[y] < g.topo[x] ==> Reaches(WalkerOf(g, roots, cut), y, x))
    {
      RankedBackEdge(g, roots, cut, order, x, y);
    }
  }

  /** One edge of `RankedBackEdges`. */
  lemma RankedBackEdge(g: Graph, roots: seq<nat>, cut: bool, order: seq<nat>, x: nat, y: nat)
    requires Shaped(g) && Fits(WalkerOf(g, roots, cut)) && WalkRanked(g, roots, cut, order)
    requires x in order && y in Children(WalkerOf(g, roots, cut), x)
    ensures y in order && (g.topo[y] < g.topo[x] ==> Reaches(WalkerOf(g, roots, cut), y, x))
  {
    var w := WalkerOf(g, roots, cut);
    var t := Trace(w);
    TraceEntered(w);
    assert Entered(w, Root(w), t, x);
    ChildrenFit(w, x);
    var kx :| 0 <= kx < |order| && order[kx] == x;
    var ky :| 0 <= ky < |order| && order[ky] == y;
    if g.topo[y] < g.topo[x] {
      assert ky < kx;
      assert Last(t, y) > Last(t, x);
    }
  }

  /** A path of the walk from a live component stays among live components. */
  lemma PathLive(g: Graph, live: set<nat>, roots: seq<nat>, cut: bool, p: seq<nat>)
    requires Shaped(g) && Closed(g, live) && Path(WalkerOf(g, roots, cut), p) && p[0] in live
    ensures forall i :: 0 <= i < |p| ==> p[i] in live
  {
    var w := WalkerOf(g, roots, cut);
    var i := 0;
    while i < |p| - 1
      invariant 0 <= i < |p| && forall k :: 0 <= k <= i ==> p[k] in live
    {
      assert p[i + 1] in Children(w, p[i]);
      var j :| 0 <= j < |g.outputs[p[i]]| && g.outputs[p[i]][j] == p[i + 1];
      i := i + 1;
    }
  }

  /** When the root points at live components only, every ranked component is live. */
  lemma RankedLive(g: Graph, live: set<nat>, roots: seq<nat>, cut: bool, order: seq<nat>)
    requires Shaped(g) && Closed(g, live) && forall x :: x in roots ==> x in live
    requires Fits(WalkerOf(g, roots, cut)) && WalkRanked(g, roots, cut, order)
    ensures forall x :: x in order ==> x in live
  {
    var w := WalkerOf(g, roots, cut);
    RankedReached(g, roots, cut, order);
    forall x | x in order ensures x in live {
      var p :| Path(w, p) && p[0] == |g.kind| && p[|p| - 1] == x;
      var q := p[1..];
      assert p[1] in Children(w, p[0]);
      forall i | 0 <= i < |q| - 1 ensures q[i + 1] in Children(w, q[i]) {
        assert q[i + 1] == p[i + 2] && q[i] == p[i + 1];
      }
      PathLive(g, live, roots, cut, q);
    }
  }

  // ---------------------------------------------------------------------------
  // The corrected walk gives topological ranks
  // ---------------------------------------------------------------------------

  /** Along a path of the corrected walk from a live component, levels rise. */
  lemma CutPathRises(g: Graph, live: set<nat>, lvl: seq<nat>, roots: seq<nat>, p: seq<nat>)
    requires Wired(g, live, lvl) && Path(WalkerOf(g, roots, true), p) && p[0] in live
    ensures forall i :: 0 <= i < |p| ==> p[i] in live
    ensures |p| > 1 ==> lvl[p[0]] < lvl[p[|p| - 1]]
    ensures lvl[p[0]] <= lvl[p[|p| - 1]]
  {
    var w := WalkerOf(g, roots, true);
    PathLive(g, live, roots, true, p);
    var i := 0;
    while i < |p| - 1
      invariant 0 <= i < |p|
      invariant i > 0 ==> lvl[p[0]] < lvl[p[i]]
    {
      assert p[i + 1] in Children(w, p[i]);
      assert p[i] < |g.kind| && g.kind[p[i]] != Transition;
      var j :| 0 <= j < |g.outputs[p[i]]| && g.outputs[p[i]][j] == p[i + 1];
      OutputsAbove(g, live, lvl, p[i], j);
      i := i + 1;
    }
  }

  /** The corrected root leads to every live component. */
  lemma {:induction false} SourcesReachAll(g: Graph, live: set<nat>, lvl: seq<nat>, roots: seq<nat>, h: nat)
    requires Wired(g, live, lvl) && h in live
    requires forall c :: c in roots <==> c in live && Source(g, true, c)
    ensures Reaches(WalkerOf(g, roots, true), |g.kind|, h)
    decreases lvl[h]
  {
    var w := WalkerOf(g, roots, true);
    if Source(g, true, h) {
      ReachesSelf(w, |g.kind|);
      ReachesTo(w, |g.kind|, |g.kind|, h);
    } else {
      var j :| 0 <= j < |g.inputs[h]| && g.kind[g.inputs[h][j]] != Transition;
      var x := g.inputs[h][j];
      SourcesReachAll(g, live, lvl, roots, x);
      InputIsFedBy(g, live, h, j);
      assert h in Children(w, x);
      ReachesTo(w, |g.kind|, x, h);
    }
  }

  /**
   * With the corrected root and walk, every live component is ranked and
   * ranks rise along every edge out of a component that is not a
   * transition: the ranks are topological.
   */
  lemma CutRanksTopological(g: Graph, live: set<nat>, lvl: seq<nat>, roots: seq<nat>, order: seq<nat>)
    requires Wired(g, live, lvl) && forall c :: c in roots <==> c in live && Source(g, true, c)
    requires Fits(WalkerOf(g, roots, true)) && WalkRanked(g, roots, true, order)
    ensures forall x :: x in order <==> x in live
    ensures Topological(g, live)
  {
    RankedReached(g, roots, true, order);
    forall x | x in live ensures x in order {
      SourcesReachAll(g, live, lvl, roots, x);
    }
    RankedLive(g, live, roots, true, order);
    forall c, d | c in live && d in live && g.topo[c] == g.topo[d] ensures c == d {
      var kc :| 0 <= kc < |order| && order[kc] == c;
      var kd :| 0 <= kd < |order| && order[kd] == d;
    }
    forall c, j | c in live && g.kind[c] != Transition && 0 <= j < |g.outputs[c]|
      ensures g.topo[c] < g.topo[g.outputs[c][j]]
    {
      CutEdgeRises(g, live, lvl, roots, order, c, j);
    }
  }

  /** An edge out of a ranked component that is not a transition goes to a higher rank. */
  lemma CutEdgeRises(g: Graph, live: set<nat>, lvl: seq<nat>, roots: seq<nat>, order: seq<nat>, c: nat, j: nat)
    requires Wired(g, live, lvl) && Fits(WalkerOf(g, roots, true)) && WalkRanked(g, roots, true, order)
    requires c in live && c in order && g.kind[c] != Transition && j < |g.outputs[c]|
    ensures g.topo[c] < g.topo[g.outputs[c][j]]
  {
    var w := WalkerOf(g, roots, true);
    var y := g.outputs[c][j];
    OutputsAbove(g, live, lvl, c, j);
    assert y in Children(w, c);
    RankedBackEdge(g, roots, true, order, c, y);
    var kc :| 0 <= kc < |order| && order[kc] == c;
    var ky :| 0 <= ky < |order| && order[ky] == y;
    if g.topo[y] < g.topo[c] {
      var p :| Path(w, p) && p[0] == y && p[|p| - 1] == c;
      assert y in live;
      CutPathRises(g, live, lvl, roots, p);
    }
  }
}
