/**
 * The second pruning pass: starting at the terminal proposition, a
 * breadth-first walk over inputs and outputs finds the component connected
 * to it, and everything outside that component is dropped from the network.
 */
module Pruning {
  import opened Gdl
  import opened Components
  import opened Structure
  import opened Recording

  /** The entries of `s` that are not yet visited, in order. */
  function Unvisited(s: seq<nat>, visited: set<nat>): (r: seq<nat>)
    ensures forall x :: x in r <==> x in s && x !in visited
  {
    if s == [] then []
    else
      assert s == s[..|s| - 1] + [s[|s| - 1]];
      Unvisited(s[..|s| - 1], visited) + (if s[|s| - 1] in visited then [] else [s[|s| - 1]])
  }

  /** Number of queue entries that are already visited. */
  function CountVisited(q: seq<nat>, visited: set<nat>): nat
  {
    if q == [] then 0 else (if q[0] in visited then 1 else 0) + CountVisited(q[1..], visited)
  }

  /** Appending unvisited entries adds nothing to the count of visited ones. */
  lemma {:induction false} CountAppendUnvisited(q: seq<nat>, s: seq<nat>, visited: set<nat>)
    ensures CountVisited(q + Unvisited(s, visited), visited) == CountVisited(q, visited)
  {
    if q == [] {
      assert q + Unvisited(s, visited) == Unvisited(s, visited);
      UnvisitedUncounted(Unvisited(s, visited), visited);
    } else {
      assert (q + Unvisited(s, visited))[1..] == q[1..] + Unvisited(s, visited);
      CountAppendUnvisited(q[1..], s, visited);
    }
  }

  lemma {:induction false} UnvisitedUncounted(q: seq<nat>, visited: set<nat>)
    requires forall x :: x in q ==> x !in visited
    ensures CountVisited(q, visited) == 0
  {
    if q != [] {
      assert q[0] in q;
      UnvisitedUncounted(q[1..], visited);
    }
  }

  /** Appends to the queue every entry of `s` not yet visited, in order, as the walk does for each neighbour list. */
  method AppendUnvisited(q: seq<nat>, s: seq<nat>, visited: set<nat>) returns (q': seq<nat>)
    ensures q' == q + Unvisited(s, visited)
  {
    q' := q;
    var j := 0;
    while j < |s|
      invariant 0 <= j <= |s|
      invariant q' == q + Unvisited(s[..j], visited)
    {
      assert s[..j + 1][..j] == s[..j];
      if s[j] !in visited {
        q' := q' + [s[j]];
      }
      j := j + 1;
    }
    assert s[..|s|] == s;
  }

  /** Every neighbour of a visited component is visited or still queued. */
  ghost predicate Frontier(g: Graph, visited: set<nat>, q: seq<nat>)
    requires Shaped(g)
  {
    (forall h, j :: h in visited && h < |g.kind| && 0 <= j < |g.inputs[h]| ==> g.inputs[h][j] in visited || g.inputs[h][j] in q)
    && (forall h, j :: h in visited && h < |g.kind| && 0 <= j < |g.outputs[h]| ==> g.outputs[h][j] in visited || g.outputs[h][j] in q)
  }

  /** Whatever closed set holds the start holds everything visited or queued. */
  ghost predicate Within(g: Graph, t: nat, visited: set<nat>, q: seq<nat>)
    requires Shaped(g)
  {
    forall s: set<nat> :: t in s && Closed(g, s) ==> visited <= s && (forall x :: x in q ==> x in s)
  }

  lemma FrontierStep(g: Graph, live: set<nat>, visited: set<nat>, q: seq<nat>, q': seq<nat>)
    requires Shaped(g) && Closed(g, live) && q != [] && q[0] in live
    requires Frontier(g, visited, q)
    requires q' == q[1..] + Unvisited(g.inputs[q[0]], visited + {q[0]}) + Unvisited(g.outputs[q[0]], visited + {q[0]})
    ensures Frontier(g, visited + {q[0]}, q')
  {
    var x := q[0];
    forall h, j | h in visited + {x} && h < |g.kind| && 0 <= j < |g.inputs[h]|
      ensures g.inputs[h][j] in visited + {x} || g.inputs[h][j] in q'
    {
      var n := g.inputs[h][j];
      if h != x && n !in visited && n != x {
        assert n in q;
        assert n in q[1..] by { assert q == [q[0]] + q[1..]; }
      }
      if h == x && n !in visited + {x} {
        assert n in g.inputs[x];
      }
    }
    forall h, j | h in visited + {x} && h < |g.kind| && 0 <= j < |g.outputs[h]|
      ensures g.outputs[h][j] in visited + {x} || g.outputs[h][j] in q'
    {
      var n := g.outputs[h][j];
      if h != x && n !in visited && n != x {
        assert n in q;
        assert n in q[1..] by { assert q == [q[0]] + q[1..]; }
      }
      if h == x && n !in visited + {x} {
        assert n in g.outputs[x];
      }
    }
  }

  lemma WithinStep(g: Graph, t: nat, visited: set<nat>, q: seq<nat>, q': seq<nat>)
    requires Shaped(g) && q != [] && q[0] < |g.kind| && Within(g, t, visited, q)
    requires q' == q[1..] + Unvisited(g.inputs[q[0]], visited + {q[0]}) + Unvisited(g.outputs[q[0]], visited + {q[0]})
    ensures Within(g, t, visited + {q[0]}, q')
  {
    var x := q[0];
    forall s: set<nat> | t in s && Closed(g, s)
      ensures visited + {x} <= s && (forall y :: y in q' ==> y in s)
    {
      assert x in q;
      forall y | y in q' ensures y in s {
        if y in g.inputs[x] {
          var j :| 0 <= j < |g.inputs[x]| && g.inputs[x][j] == y;
        } else if y in g.outputs[x] {
          var j :| 0 <= j < |g.outputs[x]| && g.outputs[x][j] == y;
        } else {
          assert y in q[1..];
        }
      }
    }
  }

  /**
   * The walk from `t`: takes the head of the queue, marks it visited, and
   * queues its unvisited inputs and then its unvisited outputs.  The result
   * is the least set holding `t` and closed under both kinds of edge.
   */
  method Reach(g: Graph, live: set<nat>, t: nat) returns (visited: set<nat>)
    requires Shaped(g) && Closed(g, live) && t in live
    ensures t in visited && visited <= live && Closed(g, visited)
    ensures forall s: set<nat> :: t in s && Closed(g, s) ==> visited <= s
  {
    visited := {};
    var toVisit: seq<nat> := [t];
    while toVisit != []
      invariant visited <= live
      invariant forall x :: x in toVisit ==> x in live
      invariant t in visited || t in toVisit
      invariant Frontier(g, visited, toVisit)
      invariant Within(g, t, visited, toVisit)
      decreases |live - visited|, CountVisited(toVisit, visited)
    {
      var x := toVisit[0];
      ghost var q := toVisit;
      ghost var v := visited;
      assert x in toVisit;
      assert x < |g.kind|;
      toVisit := toVisit[1..];
      visited := visited + {x};
      toVisit := AppendUnvisited(toVisit, g.inputs[x], visited);
      toVisit := AppendUnvisited(toVisit, g.outputs[x], visited);
      FrontierStep(g, live, v, q, toVisit);
      WithinStep(g, t, v, q, toVisit);
      QueueStaysLive(g, live, q, toVisit, visited);
      if x in v {
        assert visited == v;
        CountAppendUnvisited(q[1..], g.inputs[x], visited);
        CountAppendUnvisited(q[1..] + Unvisited(g.inputs[x], visited), g.outputs[x], visited);
        assert CountVisited(q, v) == 1 + CountVisited(q[1..], v);
      } else {
        assert live - v == (live - visited) + {x};
      }
    }
    assert Closed(g, visited) by {
      forall h, j | h in visited && 0 <= j < |g.inputs[h]| ensures g.inputs[h][j] in visited {
        assert h < |g.kind|;
      }
      forall h, j | h in visited && 0 <= j < |g.outputs[h]| ensures g.outputs[h][j] in visited {
        assert h < |g.kind|;
      }
    }
  }

  /** A closed part of a wired network is wired on its own. */
  lemma WiredPart(g: Graph, live: set<nat>, part: set<nat>, lvl: seq<nat>)
    requires Wired(g, live, lvl) && part <= live && Closed(g, part)
    ensures Wired(g, part, lvl)
  {
  }

  /** A subset as large as its superset is the superset. */
  lemma SameSize(part: set<nat>, whole: set<nat>)
    requires part <= whole && !(|part| < |whole|)
    ensures part == whole
  {
    if part != whole {
      assert exists x :: x in whole && x !in part;
      var x :| x in whole && x !in part;
      SubsetSize(part, whole - {x});
    }
  }

  lemma {:induction false} SubsetSize(a: set<nat>, b: set<nat>)
    requires a <= b
    ensures |a| <= |b|
    decreases |a|
  {
    if a != {} {
      var x :| x in a;
      SubsetSize(a - {x}, b - {x});
    }
  }

  /** The queue after one step holds only live components. */
  lemma QueueStaysLive(g: Graph, live: set<nat>, q: seq<nat>, q': seq<nat>, visited: set<nat>)
    requires Shaped(g) && Closed(g, live) && q != [] && q[0] < |g.kind| && forall x :: x in q ==> x in live
    requires q' == q[1..] + Unvisited(g.inputs[q[0]], visited) + Unvisited(g.outputs[q[0]], visited)
    ensures forall y :: y in q' ==> y in live
  {
    var x := q[0];
    assert x in q;
    forall y | y in q' ensures y in live {
      if y in g.inputs[x] {
        var j :| 0 <= j < |g.inputs[x]| && g.inputs[x][j] == y;
      } else if y in g.outputs[x] {
        var j :| 0 <= j < |g.outputs[x]| && g.outputs[x][j] == y;
      } else {
        assert y in q[1..];
      }
    }
  }

  /**
   * Finds the terminal proposition and keeps only what is connected to it;
   * without a terminal proposition nothing is dropped.
   */
  method PruneUnreached(g: Graph, live: set<nat>, ghost lvl: seq<nat>) returns (terminal: Option<nat>, kept: set<nat>)
    requires Wired(g, live, lvl)
    ensures kept <= live && Wired(g, kept, lvl)
    ensures terminal.None? ==> kept == live && forall h :: h in live && g.kind[h].Proposition? ==> !IsTerminalName(g.kind[h].name)
    ensures terminal.Some? ==> terminal.value in kept && g.kind[terminal.value].Proposition? && IsTerminalName(g.kind[terminal.value].name)
    ensures terminal.Some? ==> forall s: set<nat> :: terminal.value in s && Closed(g, s) ==> kept <= s
  {
    terminal := FindProposition(g, live, TerminalName);
    if terminal.None? {
      return terminal, live;
    }
    var visited := Reach(g, live, terminal.value);
    if |visited| < |live| {
      kept := visited;
    } else {
      SameSize(visited, live);
      kept := live;
    }
    WiredPart(g, live, kept, lvl);
  }
}
