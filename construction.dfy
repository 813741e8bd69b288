/**
 * The construction passes of the network, in the order the constructor runs
 * them: pruning (view elision, then dropping what is not connected to the
 * terminal proposition), slot numbering, filing the propositions, and
 * ranking.  Each pass states its outcome as a predicate over the arena's
 * graph, and the later passes keep the earlier outcomes, since each changes
 * only slots or only ranks.
 */
module Construction {
  import opened Gdl
  import opened Components
  import opened Propositions
  import opened Structure
  import opened Recording
  import opened Elision
  import opened Propagation
  import Pruning
  import Ranking

  /** The kind of the terminal proposition. */
  const TerminalKind := Proposition(Prop("terminal"))

  /** Every closed set holding `t` holds all of `comps`. */
  ghost predicate LeastAround(g: Graph, comps: set<nat>, t: nat)
    requires Shaped(g)
  {
    forall s: set<nat> :: t in s && Closed(g, s) ==> comps <= s
  }

  /**
   * What pruning leaves: a wired part of the given components with no
   * pointless view proposition; when a terminal proposition is among them,
   * exactly what is connected to it, and otherwise every component that was
   * not pointless.
   */
  ghost predicate Pruned(g0: Graph, g: Graph, live: set<nat>, lvl: seq<nat>, comps: set<nat>)
  {
    Shaped(g0) && InRange(g0) && Handles(g0, live) && Shaped(g) && InRange(g)
    && comps <= live && Wired(g, comps, lvl) && g.kind == g0.kind
    && (forall c :: c in comps ==> !Pointless(g, c))
    && ((forall t :: t in comps ==> g.kind[t] != TerminalKind) ==> comps == set c | c in live && !Pointless(g0, c))
    && (forall t :: t in comps && g.kind[t] == TerminalKind ==> LeastAround(g, comps, t))
  }

  /**
   * What filing leaves: legal and goal propositions filed under exactly the
   * roles that have some, the init and terminal propositions found when
   * there are any, and legal and input propositions of the same body paired
   * (both ways round when bodies are unique).
   */
  ghost predicate Filing(g: Graph, props: set<nat>, inputs: map<Sentence, nat>, legal: map<Role, set<nat>>,
                         goal: map<Role, set<nat>>, init: Option<nat>, terminal: Option<nat>, lim: map<nat, nat>)
    requires Shaped(g) && Handles(g, props)
  {
    (forall r :: r in legal ==> legal[r] == Playing(g, props, "legal", r) && legal[r] != {})
    && (forall r :: r !in legal ==> Playing(g, props, "legal", r) == {})
    && (forall r :: r in goal ==> goal[r] == Playing(g, props, "goal", r) && goal[r] != {})
    && (forall r :: r !in goal ==> Playing(g, props, "goal", r) == {})
    && (init.Some? ==> init.value in props && g.kind[init.value].Proposition? && IsInitName(g.kind[init.value].name))
    && (init.None? <==> forall h :: h in props && g.kind[h].Proposition? ==> !IsInitName(g.kind[h].name))
    && (terminal.Some? ==> terminal.value in props && g.kind[terminal.value].Proposition? && IsTerminalName(g.kind[terminal.value].name))
    && (terminal.None? <==> forall h :: h in props && g.kind[h].Proposition? ==> !IsTerminalName(g.kind[h].name))
    && Relations(g, inputs.Values) && Relations(g, Filed1(legal))
    && LegalsPaired(g, inputs.Values, Filed1(legal), lim)
  }

  /**
   * The legal/input pairing: each entry pairs an input and a legal
   * proposition of the same body, every legal proposition with a matching
   * input is paired, and the pairing goes both ways when bodies are unique.
   */
  ghost predicate LegalsPaired(g: Graph, ins: set<nat>, legals: set<nat>, lim: map<nat, nat>)
    requires Relations(g, ins) && Relations(g, legals)
  {
    (forall k :: k in lim ==> Paired(g, ins, legals, k, lim[k]))
    && (forall l :: l in legals && (exists i :: i in ins && Body(g, i) == Body(g, l)) ==> l in lim)
    && (BodiesUnique(g, ins) && BodiesUnique(g, legals) && ins !! legals
        ==> forall k :: k in lim ==> lim[k] in lim && lim[lim[k]] == k)
  }

  /**
   * What ranking leaves: the visitor root points, once each, at the
   * components that start the walk (`cut` chooses the source's walk or the
   * corrected one), and the order holds distinct components ranked by their
   * place: exactly those the walk sights, in reverse order of their last
   * sighting.
   */
  ghost predicate Ranked(g: Graph, comps: set<nat>, roots: seq<nat>, cut: bool, order: seq<nat>)
    requires Shaped(g) && InRange(g) && Handles(g, comps)
  {
    (forall c :: c in roots <==> c in comps && Ranking.Source(g, cut, c))
    && (forall i, j :: 0 <= i < j < |roots| ==> roots[i] != roots[j])
    && Ranking.Fits(Ranking.WalkerOf(g, roots, cut))
    && Ranking.WalkRanked(g, roots, cut, order)
    && (forall k :: 0 <= k < |order| ==> order[k] in comps)
  }

  /** A part of the components keeps the factory's guarantees on names and classification. */
  lemma GuaranteesPart(g0: Graph, g: Graph, live: set<nat>, comps: set<nat>)
    requires Shaped(g0) && InRange(g0) && Handles(g0, live) && Shaped(g) && InRange(g) && g.kind == g0.kind
    requires comps <= live && forall c :: c in comps ==> IsBase(g, c) == IsBase(g0, c)
    requires NamesUnique(g0, live) && BaseNotInput(g0, live)
    ensures Handles(g, comps) && NamesUnique(g, comps) && BaseNotInput(g, comps)
  {
    forall p | p in comps && g.kind[p].Proposition? && IsBase(g, p)
      ensures !IsInput(g, p)
    {
      assert IsBase(g0, p) && !IsInput(g0, p);
    }
  }

  /** Pruning: splices out the pointless view propositions, then drops what is not connected to the terminal proposition. */
  method PruneComponents(a: Arena, live: set<nat>, ghost lvl: seq<nat>) returns (comps: set<nat>)
    requires a.Valid() && Wired(a.g, live, lvl) && NamesUnique(a.g, live) && BaseNotInput(a.g, live)
    modifies a
    ensures a.Valid() && a.g.index == old(a.g.index) && a.g.topo == old(a.g.topo) && a.g.value == old(a.g.value)
    ensures Pruned(old(a.g), a.g, live, lvl, comps)
    ensures NamesUnique(a.g, comps) && BaseNotInput(a.g, comps)
  {
    ghost var g0 := a.g;
    var kept := ElideViews(a, live, lvl);
    var terminal;
    terminal, comps := Pruning.PruneUnreached(a.g, kept, lvl);
    GuaranteesPart(g0, a.g, live, comps);
    if terminal.Some? {
      var t0 := terminal.value;
      assert a.g.kind[t0] == TerminalKind;
      forall t | t in comps && a.g.kind[t] == TerminalKind
        ensures LeastAround(a.g, comps, t)
      {
        assert t == t0;
      }
    }
  }

  /** Slot numbering: records the propositions, then hands out slots tier by tier. */
  method NumberComponents(a: Arena, comps: set<nat>)
      returns (props: set<nat>, base: map<Sentence, nat>, inputs: map<Sentence, nat>, counter: nat, idx: map<nat, nat>)
    requires a.Valid() && Handles(a.g, comps) && NamesUnique(a.g, comps) && BaseNotInput(a.g, comps)
    modifies a
    ensures a.Valid() && a.g == old(a.g).(index := a.g.index)
    ensures Handles(a.g, comps) && Indexing(a.g, comps, props, base, inputs, counter, idx)
  {
    props := RecordPropositions(a.g, comps);
    base, inputs, counter, idx := SetupIndices(a, comps, props);
  }

  /** Input propositions are relations. */
  lemma InputRelations(g: Graph, inputs: map<Sentence, nat>)
    requires Shaped(g) && forall s :: s in inputs ==> inputs[s] < |g.kind| && IsInput(g, inputs[s])
    ensures Relations(g, inputs.Values)
  {
    forall p | p in inputs.Values
      ensures p < |g.kind| && g.kind[p].Proposition? && g.kind[p].name.Rel?
    {
      var s :| s in inputs && inputs[s] == p;
    }
  }

  /** Propositions filed by role under a relation are relations. */
  lemma FiledRelations(g: Graph, props: set<nat>, rel: string, m: map<Role, set<nat>>)
    requires Shaped(g) && Handles(g, props)
    requires forall r :: r in m ==> m[r] == Playing(g, props, rel, r)
    ensures Relations(g, Filed1(m))
  {
    forall p | p in Filed1(m)
      ensures p < |g.kind| && g.kind[p].Proposition? && g.kind[p].name.Rel?
    {
      var r :| r in m && p in m[r];
    }
  }

  /** Filing: legal and goal propositions by role, the init and terminal propositions, and the legal/input pairs. */
  method FilePropositions(g: Graph, props: set<nat>, inputs: map<Sentence, nat>)
      returns (legal: map<Role, set<nat>>, goal: map<Role, set<nat>>, init: Option<nat>, terminal: Option<nat>, lim: map<nat, nat>)
    requires Shaped(g) && Handles(g, props) && RolesNamed(g, props, "legal") && RolesNamed(g, props, "goal")
    requires forall s :: s in inputs ==> inputs[s] < |g.kind| && IsInput(g, inputs[s])
    ensures Filing(g, props, inputs, legal, goal, init, terminal, lim)
  {
    legal := RecordByRole(g, props, "legal");
    goal := RecordByRole(g, props, "goal");
    init := FindProposition(g, props, InitName);
    terminal := FindProposition(g, props, TerminalName);
    InputRelations(g, inputs);
    FiledRelations(g, props, "legal", legal);
    lim := MakeLegalInputMap(g, inputs, legal);
  }

  /**
   * Ranking as the constructor does it: points the visitor root at the
   * components without inputs that have outputs, walks from it along every
   * output edge and ranks what the walk sights.
   */
  method RankComponents(a: Arena, comps: set<nat>) returns (roots: seq<nat>, order: seq<nat>)
    requires a.Valid() && Closed(a.g, comps)
    modifies a
    ensures a.Valid() && a.g == old(a.g).(topo := a.g.topo)
    ensures Ranked(a.g, comps, roots, false, order)
    ensures forall h :: 0 <= h < |a.g.kind| && h !in order ==> a.g.topo[h] == old(a.g.topo[h])
  {
    roots := Ranking.SetupVisitorRoot(a.g, comps, false);
    order := Ranking.SetupVisitationList(a, roots, false);
    Ranking.RankedLive(a.g, comps, roots, false, order);
  }

  /**
   * The corrected ranking: points the visitor root at every component whose
   * inputs are all transitions and does not walk through transitions.  Every
   * component is ranked, and ranks rise along every edge out of a component
   * that is not a transition.
   */
  method RankTopologically(a: Arena, comps: set<nat>, ghost lvl: seq<nat>) returns (roots: seq<nat>, order: seq<nat>)
    requires a.Valid() && Wired(a.g, comps, lvl)
    modifies a
    ensures a.Valid() && a.g == old(a.g).(topo := a.g.topo)
    ensures Ranked(a.g, comps, roots, true, order)
    ensures forall x :: x in order <==> x in comps
    ensures Topological(a.g, comps)
  {
    ghost var g0 := a.g;
    roots := Ranking.SetupVisitorRoot(a.g, comps, true);
    order := Ranking.SetupVisitationList(a, roots, true);
    SymmetricFrame(g0, a.g, comps);
    Ranking.CutRanksTopological(a.g, comps, lvl, roots, order);
  }

  /** The network of `SourceRanksBackward`, with the given ranks. */
  function Looping(topo: seq<nat>): Graph
  {
    Graph([Proposition(Prop("a")), Or, Transition, Proposition(Prop("b"))],
          [[], [0, 3], [1], [2]], [[1], [2], [3], [1]], [0, 1, 2, 3], topo, [false, false, false, false])
  }

  /** What the source's walk sees of that network. */
  const LoopWalker := Ranking.Walker([Proposition(Prop("a")), Or, Transition, Proposition(Prop("b"))],
                                     [[1], [2], [3], [1]], [0], false)

  /** The children the source's walk follows in that network. */
  lemma LoopChildren()
    ensures Ranking.Fits(LoopWalker)
    ensures Ranking.Children(LoopWalker, 4) == [0] && Ranking.Children(LoopWalker, 0) == [1]
    ensures Ranking.Children(LoopWalker, 1) == [2] && Ranking.Children(LoopWalker, 2) == [3]
    ensures Ranking.Children(LoopWalker, 3) == [1]
  {
  }

  /** The walk's visit of 3 in that network. */
  lemma LoopWalk3()
    ensures Ranking.Fits(LoopWalker) && Ranking.Walk(LoopWalker, 3, [4, 0, 1, 2]) == [4, 0, 1, 2, 3, 3]
  {
    LoopChildren();
    Ranking.OnlyChild(LoopWalker, 3, [4, 0, 1, 2]);
    assert [4, 0, 1, 2] + [3] == [4, 0, 1, 2, 3];
  }

  /** The walk's visit of 2 in that network. */
  lemma LoopWalk2()
    ensures Ranking.Fits(LoopWalker) && Ranking.Walk(LoopWalker, 2, [4, 0, 1]) == [4, 0, 1, 2, 3, 3, 2]
  {
    LoopChildren();
    LoopWalk3();
    Ranking.OnlyChild(LoopWalker, 2, [4, 0, 1]);
    assert [4, 0, 1] + [2] == [4, 0, 1, 2];
  }

  /** The walk's visit of 1 in that network. */
  lemma LoopWalk1()
    ensures Ranking.Fits(LoopWalker) && Ranking.Walk(LoopWalker, 1, [4, 0]) == [4, 0, 1, 2, 3, 3, 2, 1]
  {
    LoopChildren();
    LoopWalk2();
    Ranking.OnlyChild(LoopWalker, 1, [4, 0]);
    assert [4, 0] + [1] == [4, 0, 1];
  }

  /** The walk's visit of 0 in that network. */
  lemma LoopWalk0()
    ensures Ranking.Fits(LoopWalker) && Ranking.Walk(LoopWalker, 0, [4]) == [4, 0, 1, 2, 3, 3, 2, 1, 0]
  {
    LoopChildren();
    LoopWalk1();
    Ranking.OnlyChild(LoopWalker, 0, [4]);
    assert [4] + [0] == [4, 0];
  }

  /** The walk's visit of 4 in that network. */
  lemma LoopWalk4()
    ensures Ranking.Fits(LoopWalker) && Ranking.Walk(LoopWalker, 4, []) == [4, 0, 1, 2, 3, 3, 2, 1, 0, 4]
  {
    LoopChildren();
    LoopWalk0();
    Ranking.OnlyChild(LoopWalker, 4, []);
    assert [] + [4] == [4];
  }

  /** The source's walk on that network enters `a`, the OR, the transition and `b`, then backs out. */
  lemma LoopTrace()
    ensures Ranking.Fits(LoopWalker)
    ensures Ranking.Trace(LoopWalker) == [4, 0, 1, 2, 3, 3, 2, 1, 0, 4]
  {
    LoopWalk4();
  }

  /**
   * The source's ranking on a network where a proposition `a` without inputs
   * feeds an OR, the OR feeds a transition, the transition feeds a
   * proposition `b`, and `b` feeds the OR back.  The walk meets `b` only
   * through the OR, so `b` is last sighted before the OR and ranked after
   * it, although `b` is an input of the OR: the ranks are not topological on
   * this well-formed network.
   */
  lemma SourceRanksBackward(topo: seq<nat>, order: seq<nat>)
    requires |topo| == 4 && Ranked(Looping(topo), {0, 1, 2, 3}, [0], false, order)
    ensures Wired(Looping(topo), {0, 1, 2, 3}, [0, 1, 2, 0])
    ensures !Topological(Looping(topo), {0, 1, 2, 3})
  {
    var g := Looping(topo);
    assert Ranking.WalkerOf(g, [0], false) == LoopWalker;
    LoopTrace();
    var t := Ranking.Trace(LoopWalker);
    Ranking.LastAt(t, 1, 7);
    Ranking.LastAt(t, 3, 5);
    assert 1 in t && 3 in t;
    var k1 :| 0 <= k1 < |order| && order[k1] == 1;
    var k3 :| 0 <= k3 < |order| && order[k3] == 3;
    assert k1 < k3;
    assert g.outputs[3][0] == 1 && g.topo[1] < g.topo[3];
    LoopWired(topo);
  }

  /** That network is well formed: its edges agree at both ends and levels rise except out of the transition. */
  lemma LoopWired(topo: seq<nat>)
    requires |topo| == 4
    ensures Wired(Looping(topo), {0, 1, 2, 3}, [0, 1, 2, 0])
  {
    var g := Looping(topo);
    forall c, d | c in {0, 1, 2, 3} && d in {0, 1, 2, 3} ensures Agree(g, c, d) {
      assert c == 0 || c == 1 || c == 2 || c == 3;
      assert d == 0 || d == 1 || d == 2 || d == 3;
    }
  }
}
