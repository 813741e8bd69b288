/**
 * The propagation worklist: a set of components ordered by rank, in which
 * two components of equal rank count as the same element.  It is a map from
 * rank to the component queued under that rank.
 */
module Worklists {
  import opened Components
  import opened Structure

  type Worklist = map<nat, nat>

  /** The worklist holds live components, each under its own rank. */
  predicate Keyed(g: Graph, live: set<nat>, wl: Worklist)
    requires Shaped(g) && Closed(g, live)
  {
    forall k :: k in wl ==> wl[k] in live && g.topo[wl[k]] == k
  }

  /** A component is queued when its rank holds it. */
  predicate Queued(g: Graph, wl: Worklist, h: nat)
    requires Shaped(g) && h < |g.kind|
  {
    g.topo[h] in wl && wl[g.topo[h]] == h
  }

  /**
   * Adding a component: its rank becomes present, and a component already
   * queued under that rank stays.
   */
  function Add(g: Graph, wl: Worklist, c: nat): (r: Worklist)
    requires Shaped(g) && c < |g.kind|
    ensures r.Keys == wl.Keys + {g.topo[c]}
    ensures forall k :: k in wl ==> r[k] == wl[k]
    ensures g.topo[c] !in wl ==> r[g.topo[c]] == c
  {
    if g.topo[c] in wl then wl else wl[g.topo[c] := c]
  }

  /** Adding every component of a list, in list order. */
  function AddAll(g: Graph, wl: Worklist, cs: seq<nat>): (r: Worklist)
    requires Shaped(g) && forall i :: 0 <= i < |cs| ==> cs[i] < |g.kind|
    ensures r.Keys == wl.Keys + set i | 0 <= i < |cs| :: g.topo[cs[i]]
    ensures forall k :: k in wl ==> r[k] == wl[k]
    ensures forall k :: k in r && k !in wl ==> r[k] in cs && g.topo[r[k]] == k
    decreases |cs|
  {
    if cs == [] then wl
    else
      var r := AddAll(g, wl, cs[..|cs| - 1]);
      RanksSnoc(g, cs, cs[..|cs| - 1]);
      Add(g, r, cs[|cs| - 1])
  }

  /** The ranks of a list are those of all but its last entry, and the last entry's. */
  lemma RanksSnoc(g: Graph, cs: seq<nat>, init: seq<nat>)
    requires Shaped(g) && cs != [] && init == cs[..|cs| - 1] && forall i :: 0 <= i < |cs| ==> cs[i] < |g.kind|
    ensures (set i | 0 <= i < |cs| :: g.topo[cs[i]])
         == (set i | 0 <= i < |init| :: g.topo[init[i]]) + {g.topo[cs[|cs| - 1]]}
  {
    assert forall i :: 0 <= i < |init| ==> init[i] == cs[i];
  }

  /** Adding live components keeps every entry under its own rank. */
  lemma AddAllKeyed(g: Graph, live: set<nat>, wl: Worklist, cs: seq<nat>)
    requires Shaped(g) && Closed(g, live) && Keyed(g, live, wl)
    requires forall i :: 0 <= i < |cs| ==> cs[i] in live
    ensures Keyed(g, live, AddAll(g, wl, cs))
  {
  }

  /**
   * Queues every live component: the worklist's ranks are exactly the live
   * components' ranks, so with distinct ranks every live component is queued.
   */
  method SeedAll(g: Graph, live: set<nat>) returns (wl: Worklist)
    requires Shaped(g) && Closed(g, live)
    ensures Keyed(g, live, wl)
    ensures wl.Keys == set h | h in live :: g.topo[h]
    ensures (forall c, d :: c in live && d in live && g.topo[c] == g.topo[d] ==> c == d)
            ==> forall h :: h in live ==> Queued(g, wl, h)
  {
    wl := map[];
    var todo := live;
    while todo != {}
      invariant todo <= live && Keyed(g, live, wl)
      invariant wl.Keys == set h | h in live && h !in todo :: g.topo[h]
    {
      var h :| h in todo;
      wl := Add(g, wl, h);
      todo := todo - {h};
    }
  }

  /** The entry with the smallest rank (the sorted set's first element). */
  method First(wl: Worklist) returns (k: nat)
    requires wl != map[]
    ensures k in wl && forall k' :: k' in wl ==> k <= k'
  {
    var rest := wl.Keys;
    k :| k in rest;
    rest := rest - {k};
    while rest != {}
      invariant rest <= wl.Keys && k in wl
      invariant forall k' :: k' in wl && k' !in rest ==> k <= k'
      decreases rest
    {
      var x :| x in rest;
      if x < k {
        k := x;
      }
      rest := rest - {x};
    }
  }

  // ---------------------------------------------------------------------------
  // Termination of draining: a potential that every processing step lowers.
  // ---------------------------------------------------------------------------

  /**
   * One plus the weights of a component's outputs; a transition, which never
   * queues anything, weighs one.  Well defined because levels rise along the
   * outputs of everything that is not a transition.
   */
  ghost function Weight(g: Graph, live: set<nat>, lvl: seq<nat>, c: nat): nat
    requires Wired(g, live, lvl) && c in live
    decreases |g.kind| - lvl[c], 1, 0
  {
    if g.kind[c] == Transition then 1
    else
      AllOutputsAbove(g, live, lvl, c);
      1 + SumWeights(g, live, lvl, c, g.outputs[c])
  }

  ghost function SumWeights(g: Graph, live: set<nat>, lvl: seq<nat>, c: nat, ds: seq<nat>): nat
    requires Wired(g, live, lvl) && c in live && g.kind[c] != Transition
    requires forall i :: 0 <= i < |ds| ==> ds[i] in live && lvl[c] < lvl[ds[i]]
    decreases |g.kind| - lvl[c], 0, |ds|
  {
    if ds == [] then 0
    else SumWeights(g, live, lvl, c, ds[..|ds| - 1]) + Weight(g, live, lvl, ds[|ds| - 1])
  }

  /** Sum of the entries of a map. */
  ghost function Total(m: map<nat, nat>): nat
    decreases |m.Keys|
  {
    if m.Keys == {} then 0
    else
      var k :| k in m.Keys;
      m[k] + Total(m - {k})
  }

  /** Taking any one entry out lowers the sum by exactly that entry. */
  lemma {:induction false} TotalRemove(m: map<nat, nat>, k: nat)
    requires k in m
    ensures Total(m) == m[k] + Total(m - {k})
    decreases |m.Keys|
  {
    var k' :| k' in m.Keys && Total(m) == m[k'] + Total(m - {k'});
    if k' != k {
      TotalRemove(m - {k'}, k);
      TotalRemove(m - {k}, k');
      assert m - {k'} - {k} == m - {k} - {k'};
    }
  }

  /** The weight of every live component. */
  ghost function WeightTable(g: Graph, live: set<nat>, lvl: seq<nat>): (w: map<nat, nat>)
    requires Wired(g, live, lvl)
    ensures w.Keys == live
    ensures forall c :: c in live ==> w[c] == Weight(g, live, lvl, c)
  {
    map c | c in live :: Weight(g, live, lvl, c)
  }

  /** Sum of the table's entries for a list of components. */
  ghost function Sum(w: map<nat, nat>, ds: seq<nat>): nat
    requires forall i :: 0 <= i < |ds| ==> ds[i] in w
  {
    if ds == [] then 0 else Sum(w, ds[..|ds| - 1]) + w[ds[|ds| - 1]]
  }

  /** The table agrees with the recursive weights on every output list. */
  lemma {:induction false} SumIsSumWeights(g: Graph, live: set<nat>, lvl: seq<nat>, c: nat, ds: seq<nat>)
    requires Wired(g, live, lvl) && c in live && g.kind[c] != Transition
    requires forall i :: 0 <= i < |ds| ==> ds[i] in live && lvl[c] < lvl[ds[i]]
    ensures Sum(WeightTable(g, live, lvl), ds) == SumWeights(g, live, lvl, c, ds)
    decreases |ds|
  {
    if ds != [] {
      SumIsSumWeights(g, live, lvl, c, ds[..|ds| - 1]);
    }
  }

  /** A component that is not a transition weighs more than all its outputs together. */
  lemma OutweighsOutputs(g: Graph, live: set<nat>, lvl: seq<nat>, c: nat)
    requires Wired(g, live, lvl) && c in live && g.kind[c] != Transition
    ensures forall i :: 0 <= i < |g.outputs[c]| ==> g.outputs[c][i] in live
    ensures WeightTable(g, live, lvl)[c] == 1 + Sum(WeightTable(g, live, lvl), g.outputs[c])
  {
    AllOutputsAbove(g, live, lvl, c);
    SumIsSumWeights(g, live, lvl, c, g.outputs[c]);
  }

  /** Every queued component has a weight. */
  predicate Weighed(w: map<nat, nat>, wl: Worklist)
  {
    forall k :: k in wl ==> wl[k] in w
  }

  /** The total weight of the queued components. */
  ghost function Potential(w: map<nat, nat>, wl: Worklist): nat
    requires Weighed(w, wl)
  {
    Total(map k | k in wl :: w[wl[k]])
  }

  lemma PotentialRemove(w: map<nat, nat>, wl: Worklist, k: nat)
    requires Weighed(w, wl) && k in wl
    ensures Potential(w, wl) == w[wl[k]] + Potential(w, wl - {k})
  {
    var m := map k | k in wl :: w[wl[k]];
    TotalRemove(m, k);
    assert m - {k} == map j | j in wl - {k} :: w[(wl - {k})[j]];
  }

  lemma PotentialAdd(g: Graph, w: map<nat, nat>, wl: Worklist, c: nat)
    requires Shaped(g) && c < |g.kind| && Weighed(w, wl) && c in w
    ensures Weighed(w, Add(g, wl, c))
    ensures Potential(w, Add(g, wl, c)) <= Potential(w, wl) + w[c]
  {
    var k := g.topo[c];
    if k !in wl {
      var r := Add(g, wl, c);
      PotentialRemove(w, r, k);
      assert r - {k} == wl;
    }
  }

  /** Queuing a list of components adds at most their total weight. */
  lemma {:induction false} PotentialAddAll(g: Graph, w: map<nat, nat>, wl: Worklist, ds: seq<nat>)
    requires Shaped(g) && Weighed(w, wl)
    requires forall i :: 0 <= i < |ds| ==> ds[i] < |g.kind| && ds[i] in w
    ensures Weighed(w, AddAll(g, wl, ds))
    ensures Potential(w, AddAll(g, wl, ds)) <= Potential(w, wl) + Sum(w, ds)
    decreases |ds|
  {
    if ds != [] {
      var front := ds[..|ds| - 1];
      PotentialAddAll(g, w, wl, front);
      PotentialAdd(g, w, AddAll(g, wl, front), ds[|ds| - 1]);
    }
  }

  /**
   * Processing the first entry lowers the potential, whatever the component
   * decides: removing it alone, or removing it and queuing its outputs.
   */
  lemma PotentialStep(g: Graph, live: set<nat>, lvl: seq<nat>, wl: Worklist, k: nat, propagate: bool)
    requires Wired(g, live, lvl) && Keyed(g, live, wl) && k in wl
    ensures var w := WeightTable(g, live, lvl);
      var c := wl[k];
      var rest := wl - {k};
      var wl' := if propagate && g.kind[c] != Transition then AddAll(g, rest, g.outputs[c]) else rest;
      Keyed(g, live, wl') && Weighed(w, wl) && Weighed(w, wl') && Potential(w, wl') < Potential(w, wl)
  {
    var w := WeightTable(g, live, lvl);
    var c := wl[k];
    PotentialRemove(w, wl, k);
    if propagate && g.kind[c] != Transition {
      OutweighsOutputs(g, live, lvl, c);
      PotentialAddAll(g, w, wl - {k}, g.outputs[c]);
    }
  }
}
