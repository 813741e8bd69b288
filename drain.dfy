/**
 * Why draining the worklist in rank order leaves every component consistent:
 * when ranks rise along every edge out of a non-transition, processing the
 * lowest-ranked queued component keeps "every live component is queued or
 * consistent" true, and an empty worklist then means all are consistent.
 */
module Propagation {
  import opened Gdl
  import opened Components
  import opened Propositions
  import opened Structure
  import opened Evaluation
  import opened Worklists
  import opened Gates

  /** Ranks are distinct among live components and rise along every output edge of a non-transition. */
  predicate Topological(g: Graph, live: set<nat>)
    requires Shaped(g) && Closed(g, live)
  {
    (forall c, d :: c in live && d in live && g.topo[c] == g.topo[d] ==> c == d)
    && (forall c, j :: c in live && g.kind[c] != Transition && 0 <= j < |g.outputs[c]|
          ==> g.topo[c] < g.topo[g.outputs[c][j]])
  }

  /** Every live component is queued or already consistent. */
  predicate Pending(g: Graph, live: set<nat>, lvl: seq<nat>, cur: seq<bool>, nxt: seq<bool>, wl: Worklist)
    requires Evaluable(g, live, lvl, cur, nxt)
  {
    forall h :: h in live ==> Queued(g, wl, h) || Consistent(g, live, lvl, cur, nxt, h)
  }

  /** The smallest rank in the worklist. */
  predicate Least(wl: Worklist, k: nat)
  {
    k in wl && forall k' :: k' in wl ==> k <= k'
  }

  /** Every input that is not a transition ranks below its reader. */
  lemma InputRanksBelow(g: Graph, live: set<nat>, lvl: seq<nat>, c: nat, j: nat)
    requires Wired(g, live, lvl) && Topological(g, live) && c in live && j < |g.inputs[c]|
    requires g.kind[g.inputs[c][j]] != Transition
    ensures g.topo[g.inputs[c][j]] < g.topo[c]
  {
    var x := g.inputs[c][j];
    InputIsFedBy(g, live, c, j);
    var i :| 0 <= i < |g.outputs[x]| && g.outputs[x][i] == c;
  }

  /** Adding a list of live components queues each of them, when ranks are distinct. */
  lemma AddAllQueues(g: Graph, live: set<nat>, lvl: seq<nat>, wl: Worklist, cs: seq<nat>, h: nat)
    requires Wired(g, live, lvl) && Topological(g, live) && Keyed(g, live, wl)
    requires forall i :: 0 <= i < |cs| ==> cs[i] in live
    requires h in cs
    ensures Queued(g, AddAll(g, wl, cs), h)
  {
    var i :| 0 <= i < |cs| && cs[i] == h;
    var r := AddAll(g, wl, cs);
    assert g.topo[cs[i]] in r;
  }

  /**
   * When the least-ranked queued component is taken, every OR gate below it
   * is consistent, so what its inputs report is what they store.
   */
  lemma ReadingsSettled(g: Graph, live: set<nat>, lvl: seq<nat>, cur: seq<bool>, nxt: seq<bool>, wl: Worklist, k: nat)
    requires Wired(g, live, lvl) && Evaluable(g, live, lvl, cur, nxt) && Topological(g, live)
    requires Keyed(g, live, wl) && Pending(g, live, lvl, cur, nxt, wl) && Least(wl, k)
    ensures ValueReadings(g, live, lvl, cur, nxt, wl[k]) == StoredReadings(g, live, cur, nxt, wl[k])
  {
    var c := wl[k];
    var s := set y | y in live && g.topo[y] < k;
    forall x | x in s && g.kind[x] == Or
      ensures Consistent(g, live, lvl, cur, nxt, x)
    {
    }
    forall x, j | x in s && g.kind[x] == Or && 0 <= j < |g.inputs[x]| && g.kind[g.inputs[x][j]] == Or
      ensures g.inputs[x][j] in s
    {
      InputRanksBelow(g, live, lvl, x, j);
    }
    var ins := g.inputs[c];
    forall j | 0 <= j < |ins|
      ensures Value(g, live, lvl, cur, nxt, ins[j]) == Stored(g, live, cur, nxt, ins[j])
    {
      if g.kind[ins[j]] == Or {
        InputRanksBelow(g, live, lvl, c, j);
        ValueMatchesStored(g, live, lvl, cur, nxt, s, ins[j]);
      }
    }
  }

  /** An update leaves the stored values of the updated component's inputs alone. */
  lemma InputsUnchanged(g: Graph, live: set<nat>, lvl: seq<nat>, cur: seq<bool>, nxt: seq<bool>, c: nat)
    requires Wired(g, live, lvl) && Evaluable(g, live, lvl, cur, nxt) && SlotsDistinct(g, live) && c in live
    ensures Evaluable(g, live, lvl, NewCur(g, live, lvl, cur, nxt, c), NewNxt(g, live, lvl, cur, nxt, c))
    ensures StoredReadings(g, live, NewCur(g, live, lvl, cur, nxt, c), NewNxt(g, live, lvl, cur, nxt, c), c)
         == StoredReadings(g, live, cur, nxt, c)
  {
    var ins := g.inputs[c];
    forall j | 0 <= j < |ins|
      ensures Stored(g, live, NewCur(g, live, lvl, cur, nxt, c), NewNxt(g, live, lvl, cur, nxt, c), ins[j])
           == Stored(g, live, cur, nxt, ins[j])
    {
      NotOwnInput(g, live, lvl, c, j);
      UpdateFrame(g, live, lvl, cur, nxt, c, ins[j]);
    }
  }

  /** The least-ranked queued component is consistent once updated. */
  lemma UpdatedIsConsistent(g: Graph, live: set<nat>, lvl: seq<nat>, cur: seq<bool>, nxt: seq<bool>, wl: Worklist, k: nat)
    requires Wired(g, live, lvl) && Evaluable(g, live, lvl, cur, nxt) && SlotsDistinct(g, live) && Topological(g, live)
    requires Keyed(g, live, wl) && Pending(g, live, lvl, cur, nxt, wl) && Least(wl, k)
    ensures Evaluable(g, live, lvl, NewCur(g, live, lvl, cur, nxt, wl[k]), NewNxt(g, live, lvl, cur, nxt, wl[k]))
    ensures Consistent(g, live, lvl, NewCur(g, live, lvl, cur, nxt, wl[k]), NewNxt(g, live, lvl, cur, nxt, wl[k]), wl[k])
  {
    ReadingsSettled(g, live, lvl, cur, nxt, wl, k);
    InputsUnchanged(g, live, lvl, cur, nxt, wl[k]);
  }

  /**
   * A consistent component other than the updated one stays consistent
   * unless it reads the updated component and that component's stored value
   * changed.
   */
  lemma OtherStaysConsistent(g: Graph, live: set<nat>, lvl: seq<nat>, cur: seq<bool>, nxt: seq<bool>, c: nat, h: nat)
    requires Wired(g, live, lvl) && Evaluable(g, live, lvl, cur, nxt) && SlotsDistinct(g, live)
    requires c in live && h in live && h != c && Consistent(g, live, lvl, cur, nxt, h)
    requires c !in g.inputs[h] || g.kind[c] == Transition || cur[g.index[c]] == Target(g, live, lvl, cur, nxt, c)
    ensures Evaluable(g, live, lvl, NewCur(g, live, lvl, cur, nxt, c), NewNxt(g, live, lvl, cur, nxt, c))
    ensures Consistent(g, live, lvl, NewCur(g, live, lvl, cur, nxt, c), NewNxt(g, live, lvl, cur, nxt, c), h)
  {
    var cur' := NewCur(g, live, lvl, cur, nxt, c);
    var nxt' := NewNxt(g, live, lvl, cur, nxt, c);
    if g.kind[c] != Transition && cur[g.index[c]] == Target(g, live, lvl, cur, nxt, c) {
      assert cur' == cur;
    } else {
      StoredReadingsFrame(g, live, lvl, cur, nxt, c, h);
      if g.kind[h] == Transition && g.kind[c] == Transition {
        TransitionsFeedDistinct(g, live, lvl, h, c);
      }
    }
  }

  /** A component that does not read `c` (or reads a transition `c`) sees the same stored values after `c` is updated. */
  lemma StoredReadingsFrame(g: Graph, live: set<nat>, lvl: seq<nat>, cur: seq<bool>, nxt: seq<bool>, c: nat, h: nat)
    requires Evaluable(g, live, lvl, cur, nxt) && SlotsDistinct(g, live)
    requires c in live && h in live && (c !in g.inputs[h] || g.kind[c] == Transition)
    ensures Evaluable(g, live, lvl, NewCur(g, live, lvl, cur, nxt, c), NewNxt(g, live, lvl, cur, nxt, c))
    ensures StoredReadings(g, live, NewCur(g, live, lvl, cur, nxt, c), NewNxt(g, live, lvl, cur, nxt, c), h)
         == StoredReadings(g, live, cur, nxt, h)
  {
    var ins := g.inputs[h];
    forall j | 0 <= j < |ins|
      ensures Stored(g, live, NewCur(g, live, lvl, cur, nxt, c), NewNxt(g, live, lvl, cur, nxt, c), ins[j])
           == Stored(g, live, cur, nxt, ins[j])
    {
      assert ins[j] in ins;
      UpdateFrame(g, live, lvl, cur, nxt, c, ins[j]);
    }
  }

  /**
   * One step of the drain: taking the least-ranked entry and updating its
   * component keeps every live component queued or consistent.
   */
  lemma DrainStep(g: Graph, live: set<nat>, lvl: seq<nat>, cur: seq<bool>, nxt: seq<bool>, wl: Worklist, k: nat)
    requires Wired(g, live, lvl) && Evaluable(g, live, lvl, cur, nxt) && SlotsDistinct(g, live) && Topological(g, live)
    requires Keyed(g, live, wl) && Pending(g, live, lvl, cur, nxt, wl) && Least(wl, k)
    ensures Evaluable(g, live, lvl, NewCur(g, live, lvl, cur, nxt, wl[k]), NewNxt(g, live, lvl, cur, nxt, wl[k]))
    ensures Pending(g, live, lvl, NewCur(g, live, lvl, cur, nxt, wl[k]), NewNxt(g, live, lvl, cur, nxt, wl[k]),
                    Fanout(g, live, lvl, cur, nxt, wl - {k}, wl[k]))
  {
    var c := wl[k];
    var cur' := NewCur(g, live, lvl, cur, nxt, c);
    var nxt' := NewNxt(g, live, lvl, cur, nxt, c);
    var rest := wl - {k};
    var wl' := Fanout(g, live, lvl, cur, nxt, rest, c);
    var changed := g.kind[c] != Transition && cur[g.index[c]] != Target(g, live, lvl, cur, nxt, c);
    if changed {
      AllOutputsAbove(g, live, lvl, c);
    }
    forall h | h in live
      ensures Queued(g, wl', h) || Consistent(g, live, lvl, cur', nxt', h)
    {
      if h == c {
        UpdatedIsConsistent(g, live, lvl, cur, nxt, wl, k);
      } else if Queued(g, wl, h) {
        assert g.topo[h] in rest;
      } else if changed && c in g.inputs[h] {
        var j :| 0 <= j < |g.inputs[h]| && g.inputs[h][j] == c;
        InputIsFedBy(g, live, h, j);
        AddAllQueues(g, live, lvl, rest, g.outputs[c], h);
      } else {
        OtherStaysConsistent(g, live, lvl, cur, nxt, c, h);
      }
    }
  }
}
