/**
 * Taking a component out of the network's edges: each of its inputs drops
 * it from its output list once per edge, and each of its outputs drops it
 * from its input list once per edge.  The component's own lists are left
 * as they were.
 */
module Removal {
  import opened Gdl
  import opened Components
  import opened Structure
  import opened Recording

  /** The list with every occurrence of `x` taken out, the rest in order. */
  function Without(s: seq<nat>, x: nat): (r: seq<nat>)
    ensures multiset(r) == multiset(s)[x := 0]
  {
    if s == [] then []
    else
      assert s == [s[0]] + s[1..];
      (if s[0] == x then [] else [s[0]]) + Without(s[1..], x)
  }

  /** Taking out one occurrence, then all, is taking out all. */
  lemma {:induction false} WithoutRemoveFirst(s: seq<nat>, x: nat)
    ensures Without(RemoveFirst(s, x), x) == Without(s, x)
  {
    if s != [] && s[0] != x {
      WithoutRemoveFirst(s[1..], x);
      assert RemoveFirst(s, x) == [s[0]] + RemoveFirst(s[1..], x);
      assert RemoveFirst(s, x)[1..] == RemoveFirst(s[1..], x);
    }
  }

  /** A list without `x` is its own `Without`. */
  lemma {:induction false} WithoutAbsent(s: seq<nat>, x: nat)
    requires Count(s, x) == 0
    ensures Without(s, x) == s
  {
    if s != [] {
      assert s == [s[0]] + s[1..];
      assert multiset(s) == multiset([s[0]]) + multiset(s[1..]);
      WithoutAbsent(s[1..], x);
    }
  }

  /** Counting along a prefix one entry longer. */
  lemma PrefixCount(s: seq<nat>, j: nat, x: nat)
    requires j < |s|
    ensures Count(s[..j + 1], x) == Count(s[..j], x) + (if s[j] == x then 1 else 0)
    ensures Count(s[..j + 1], x) <= Count(s, x)
  {
    assert s[..j + 1] == s[..j] + [s[j]];
    assert s == s[..j + 1] + s[j + 1..];
    assert multiset(s) == multiset(s[..j + 1]) + multiset(s[j + 1..]);
  }

  /**
   * `g'` is `g` with `c` taken out of its neighbours' lists: every input of
   * `c` keeps its outputs but `c`, every output of `c` other than `c` keeps
   * its inputs but `c`, and nothing else changes.
   */
  ghost predicate Unlinked(g: Graph, g': Graph, c: nat)
    requires Shaped(g) && c < |g.kind|
  {
    g' == g.(inputs := g'.inputs, outputs := g'.outputs) && Shaped(g')
    && (forall x :: 0 <= x < |g.kind| ==>
          g'.outputs[x] == if x in g.inputs[c] then Without(g.outputs[x], c) else g.outputs[x])
    && (forall y :: 0 <= y < |g.kind| ==>
          g'.inputs[y] == if y in g.outputs[c] && y != c then Without(g.inputs[y], c) else g.inputs[y])
  }

  /**
   * After the first `j` entries of `ps` have each dropped one `c` from their
   * list, list `x` still holds the same entries other than `c`; when `x` is
   * in `ps` it held a `c` per occurrence in `ps` and has as many fewer as it
   * occurs among those entries, and otherwise it is unchanged.
   */
  ghost predicate DroppedAt(lists0: seq<seq<nat>>, lists: seq<seq<nat>>, ps: seq<nat>, j: nat, x: nat, c: nat)
    requires j <= |ps| && x < |lists0| && |lists| == |lists0|
  {
    Without(lists[x], c) == Without(lists0[x], c)
    && (x in ps ==> Count(ps, x) == Count(lists0[x], c) && Count(lists[x], c) + Count(ps[..j], x) == Count(lists0[x], c))
    && (x !in ps ==> lists[x] == lists0[x])
  }

  /** `DroppedAt` for every list. */
  ghost predicate Dropping(lists0: seq<seq<nat>>, lists: seq<seq<nat>>, ps: seq<nat>, j: nat, c: nat)
    requires j <= |ps|
  {
    |lists| == |lists0| && (forall x :: x in ps ==> x < |lists0|)
    && forall x :: 0 <= x < |lists0| ==> DroppedAt(lists0, lists, ps, j, x, c)
  }

  /** Taking out the first `c` of a list that holds one lowers its count by one. */
  lemma CountRemoveFirst(s: seq<nat>, c: nat)
    requires Count(s, c) > 0
    ensures Count(RemoveFirst(s, c), c) == Count(s, c) - 1
  {
  }

  lemma DroppingStart(lists0: seq<seq<nat>>, ps: seq<nat>, c: nat)
    requires forall x :: x in ps ==> x < |lists0| && Count(ps, x) == Count(lists0[x], c)
    ensures Dropping(lists0, lists0, ps, 0, c)
  {
    forall x | 0 <= x < |lists0| ensures DroppedAt(lists0, lists0, ps, 0, x, c) {
      assert ps[..0] == [];
    }
  }

  lemma DroppingStep(lists0: seq<seq<nat>>, lists: seq<seq<nat>>, ps: seq<nat>, j: nat, c: nat)
    requires j < |ps| && Dropping(lists0, lists, ps, j, c)
    ensures ps[j] < |lists| && Dropping(lists0, lists[ps[j] := RemoveFirst(lists[ps[j]], c)], ps, j + 1, c)
  {
    var p := ps[j];
    assert p in ps;
    var lists' := lists[p := RemoveFirst(lists[p], c)];
    var j' := j + 1;
    forall x | 0 <= x < |lists0| ensures DroppedAt(lists0, lists', ps, j', x, c) {
      assert DroppedAt(lists0, lists, ps, j, x, c);
      if x in ps {
        PrefixCount(ps, j, x);
      }
      if x == p {
        WithoutRemoveFirst(lists[p], c);
        CountRemoveFirst(lists[p], c);
      }
    }
  }

  lemma DroppingDone(lists0: seq<seq<nat>>, lists: seq<seq<nat>>, ps: seq<nat>, c: nat)
    requires Dropping(lists0, lists, ps, |ps|, c)
    ensures forall x :: 0 <= x < |lists0| ==> lists[x] == if x in ps then Without(lists0[x], c) else lists0[x]
  {
    assert ps[..|ps|] == ps;
    forall x | 0 <= x < |lists0| ensures lists[x] == if x in ps then Without(lists0[x], c) else lists0[x] {
      assert DroppedAt(lists0, lists, ps, |ps|, x, c);
      if x in ps {
        WithoutAbsent(lists[x], c);
      }
    }
  }

  /** Each component of `ps` drops `c` from its output list, once per time it appears in `ps`. */
  method DropFromOutputs(a: Arena, c: nat, ps: seq<nat>)
    requires a.Valid() && forall x :: x in ps ==> x < |a.g.kind| && Count(ps, x) == Count(a.g.outputs[x], c)
    modifies a
    ensures a.Valid() && a.g == old(a.g).(outputs := a.g.outputs)
    ensures forall x :: 0 <= x < |a.g.kind| ==>
              a.g.outputs[x] == if x in ps then Without(old(a.g.outputs[x]), c) else old(a.g.outputs[x])
  {
    ghost var g0 := a.g;
    ghost var lists := g0.outputs;
    DroppingStart(lists, ps, c);
    var j := 0;
    while j < |ps|
      invariant 0 <= j <= |ps|
      invariant a.Valid() && a.g == g0.(outputs := lists)
      invariant Dropping(g0.outputs, lists, ps, j, c)
    {
      DroppingStep(g0.outputs, lists, ps, j, c);
      a.RemoveOutput(ps[j], c);
      lists := lists[ps[j] := RemoveFirst(lists[ps[j]], c)];
      j := j + 1;
    }
    DroppingDone(g0.outputs, lists, ps, c);
  }

  /** Each component of `ps` drops `c` from its input list, once per time it appears in `ps`. */
  method DropFromInputs(a: Arena, c: nat, ps: seq<nat>)
    requires a.Valid() && forall y :: y in ps ==> y < |a.g.kind| && Count(ps, y) == Count(a.g.inputs[y], c)
    modifies a
    ensures a.Valid() && a.g == old(a.g).(inputs := a.g.inputs)
    ensures forall y :: 0 <= y < |a.g.kind| ==>
              a.g.inputs[y] == if y in ps then Without(old(a.g.inputs[y]), c) else old(a.g.inputs[y])
  {
    ghost var g0 := a.g;
    ghost var lists := g0.inputs;
    DroppingStart(lists, ps, c);
    var j := 0;
    while j < |ps|
      invariant 0 <= j <= |ps|
      invariant a.Valid() && a.g == g0.(inputs := lists)
      invariant Dropping(g0.inputs, lists, ps, j, c)
    {
      DroppingStep(g0.inputs, lists, ps, j, c);
      a.RemoveInput(ps[j], c);
      lists := lists[ps[j] := RemoveFirst(lists[ps[j]], c)];
      j := j + 1;
    }
    DroppingDone(g0.inputs, lists, ps, c);
  }

  /** Each input of a live component lists it as an output once per edge. */
  lemma ParentsCounted(g: Graph, live: set<nat>, c: nat)
    requires Shaped(g) && Closed(g, live) && Symmetric(g, live) && c in live
    ensures forall x :: x in g.inputs[c] ==> x < |g.kind| && Count(g.inputs[c], x) == Count(g.outputs[x], c)
  {
    forall x | x in g.inputs[c] ensures x in live && Count(g.inputs[c], x) == Count(g.outputs[x], c) {
      var j :| 0 <= j < |g.inputs[c]| && g.inputs[c][j] == x;
      assert Agree(g, x, c);
    }
  }

  /**
   * Once the inputs have dropped a live component, each output it has left
   * is another live component that lists it as an input once per edge.
   */
  lemma ChildrenCounted(g: Graph, g': Graph, live: set<nat>, c: nat)
    requires Shaped(g) && Closed(g, live) && Symmetric(g, live) && c in live
    requires g' == g.(outputs := g'.outputs) && Shaped(g')
    requires forall x :: 0 <= x < |g.kind| ==>
               g'.outputs[x] == if x in g.inputs[c] then Without(g.outputs[x], c) else g.outputs[x]
    ensures forall y :: y in g'.outputs[c] ==> y < |g.kind| && y != c && Count(g'.outputs[c], y) == Count(g'.inputs[y], c)
    ensures forall y :: 0 <= y < |g.kind| ==> (y in g'.outputs[c] <==> y in g.outputs[c] && y != c)
  {
    assert g'.inputs == g.inputs;
    assert c < |g.kind| && c in live;
    assert Agree(g, c, c);
    OwnCount(g, c, g'.outputs[c]);
    ChildrenMirrored(g, live, c);
    OwnOutputs(g, c, g'.outputs[c]);
  }

  /** A component's outputs once it has dropped itself hold no `c` and every other entry as often as before. */
  lemma OwnCount(g: Graph, c: nat, outs: seq<nat>)
    requires Shaped(g) && c < |g.kind| && Count(g.outputs[c], c) == Count(g.inputs[c], c)
    requires outs == if c in g.inputs[c] then Without(g.outputs[c], c) else g.outputs[c]
    ensures Count(outs, c) == 0 && forall y :: y != c ==> Count(outs, y) == Count(g.outputs[c], y)
  {
  }

  /** Each output of a live component lists it as an input once per edge. */
  lemma ChildrenMirrored(g: Graph, live: set<nat>, c: nat)
    requires Shaped(g) && Closed(g, live) && Symmetric(g, live) && c in live
    ensures forall y :: y in g.outputs[c] ==> y < |g.kind| && Count(g.outputs[c], y) == Count(g.inputs[y], c)
  {
    forall y | y in g.outputs[c] ensures y in live && Count(g.outputs[c], y) == Count(g.inputs[y], c) {
      var j :| 0 <= j < |g.outputs[c]| && g.outputs[c][j] == y;
      assert Agree(g, c, y);
    }
  }

  /** What is left of a component's outputs once it has dropped itself: other components, counted as before. */
  lemma OwnOutputs(g: Graph, c: nat, outs: seq<nat>)
    requires Shaped(g) && c < |g.kind|
    requires forall y :: y in g.outputs[c] ==> y < |g.kind| && Count(g.outputs[c], y) == Count(g.inputs[y], c)
    requires Count(outs, c) == 0 && forall y :: y != c ==> Count(outs, y) == Count(g.outputs[c], y)
    ensures forall y :: y in outs ==> y < |g.kind| && y != c && Count(outs, y) == Count(g.inputs[y], c)
    ensures forall y :: 0 <= y < |g.kind| ==> (y in outs <==> y in g.outputs[c] && y != c)
  {
    forall y | 0 <= y < |g.kind| ensures (y in outs <==> y in g.outputs[c] && y != c) {
      if y != c {
        assert Count(outs, y) == Count(g.outputs[c], y);
      }
    }
    forall y | y in outs ensures y < |g.kind| && y != c && Count(outs, y) == Count(g.inputs[y], c) {
      assert y != c && Count(outs, y) == Count(g.outputs[c], y);
    }
  }

  /**
   * Unlinks a live component: its inputs drop it from their output lists,
   * then the outputs it has left drop it from their input lists.
   */
  method Unlink(a: Arena, live: set<nat>, c: nat)
    requires a.Valid() && Closed(a.g, live) && Symmetric(a.g, live) && c in live
    modifies a
    ensures a.Valid() && Unlinked(old(a.g), a.g, c)
  {
    ghost var g0 := a.g;
    ParentsCounted(a.g, live, c);
    DropFromOutputs(a, c, a.g.inputs[c]);
    ChildrenCounted(g0, a.g, live, c);
    DropFromInputs(a, c, a.g.outputs[c]);
  }

  /**
   * Unlinking keeps the rest of the network closed and its edges mirrored,
   * and leaves no remaining component with an edge to or from the removed one.
   */
  lemma UnlinkedRest(g: Graph, g': Graph, live: set<nat>, c: nat)
    requires Shaped(g) && Closed(g, live) && Symmetric(g, live) && c in live && Unlinked(g, g', c)
    ensures Closed(g', live - {c}) && Symmetric(g', live - {c})
    ensures forall x :: x in live - {c} ==> c !in g'.outputs[x] && c !in g'.inputs[x]
  {
    forall x | x in live - {c} ensures c !in g'.outputs[x] && c !in g'.inputs[x]
    {
      assert Agree(g, x, c) && Agree(g, c, x);
      UnlinkedDetached(g, g', c, x);
    }
    forall h, j | h in live - {c} && 0 <= j < |g'.inputs[h]| ensures g'.inputs[h][j] in live - {c} {
      var d := g'.inputs[h][j];
      assert d in g'.inputs[h];
      UnlinkedCount(g, g', c, h, d);
      var k :| 0 <= k < |g.inputs[h]| && g.inputs[h][k] == d;
    }
    forall h, j | h in live - {c} && 0 <= j < |g'.outputs[h]| ensures g'.outputs[h][j] in live - {c} {
      var d := g'.outputs[h][j];
      assert d in g'.outputs[h];
      UnlinkedCount(g, g', c, h, d);
      var k :| 0 <= k < |g.outputs[h]| && g.outputs[h][k] == d;
    }
    forall x, d | x in live - {c} && d in live - {c} ensures Agree(g', x, d) {
      assert Agree(g, x, d);
      UnlinkedCount(g, g', c, x, d);
      UnlinkedCount(g, g', c, d, x);
    }
  }

  /** A neighbour of `c` that listed it as often as `c` listed the neighbour lists it no more. */
  lemma UnlinkedDetached(g: Graph, g': Graph, c: nat, x: nat)
    requires Shaped(g) && c < |g.kind| && x < |g.kind| && x != c && Unlinked(g, g', c)
    requires Count(g.outputs[x], c) == Count(g.inputs[c], x) && Count(g.inputs[x], c) == Count(g.outputs[c], x)
    ensures c !in g'.outputs[x] && c !in g'.inputs[x]
  {
    if x !in g.inputs[c] {
      assert Count(g.outputs[x], c) == 0;
    }
    if x !in g.outputs[c] {
      assert Count(g.inputs[x], c) == 0;
    }
    assert multiset(g'.outputs[x])[c] == 0 && multiset(g'.inputs[x])[c] == 0;
  }

  /** Unlinking `c` keeps the count of every other entry. */
  lemma UnlinkedCount(g: Graph, g': Graph, c: nat, x: nat, d: nat)
    requires Shaped(g) && c < |g.kind| && x < |g.kind| && d != c && Unlinked(g, g', c)
    ensures Count(g'.outputs[x], d) == Count(g.outputs[x], d) && Count(g'.inputs[x], d) == Count(g.inputs[x], d)
  {
  }


  /** Every key is paired with a key that is paired back with it. */
  predicate Involution(lim: map<nat, nat>)
  {
    forall k :: k in lim ==> lim[k] in lim && lim[lim[k]] == k
  }

  /** The pairing without `k` and the key it is paired with, when it has one. */
  function Unpair(lim: map<nat, nat>, k: nat): (r: map<nat, nat>)
    ensures k !in r && r.Keys <= lim.Keys
    ensures forall x :: x in r ==> r[x] == lim[x]
    ensures k in lim ==> lim[k] !in r
    ensures forall x :: x in lim && x != k && (k in lim ==> x != lim[k]) ==> x in r
  {
    if k in lim then lim - {k, lim[k]} else lim
  }

  /** Unpairing a key keeps a pairing that goes both ways, and then no entry mentions that key. */
  lemma UnpairInvolution(lim: map<nat, nat>, k: nat)
    requires Involution(lim)
    ensures Involution(Unpair(lim, k))
    ensures forall x :: x in Unpair(lim, k) ==> x != k && Unpair(lim, k)[x] != k
  {
    var r := Unpair(lim, k);
    forall x | x in r ensures r[x] in r && r[r[x]] == x && r[x] != k {
      var y := lim[x];
      assert lim[y] == x;
      if k in lim {
        assert y != k && y != lim[k];
      } else {
        assert y != k;
      }
    }
  }

  /** Every filed set with `p` taken out; every role keeps its entry. */
  function DropFiled(m: map<Role, set<nat>>, p: nat): (r: map<Role, set<nat>>)
    ensures r.Keys == m.Keys
    ensures forall k :: k in r ==> p !in r[k] && r[k] <= m[k] && m[k] - r[k] <= {p}
  {
    map k | k in m :: m[k] - {p}
  }

  /** Dropping `p` from every filed set takes `p`, and only `p`, out of the filed propositions. */
  lemma DropFiledUnion(m: map<Role, set<nat>>, p: nat)
    ensures Filed1(DropFiled(m, p)) == Filed1(m) - {p}
  {
    var r := DropFiled(m, p);
    forall x | x in Filed1(m) - {p} ensures x in Filed1(r) {
      var k :| k in m && x in m[k];
      assert x in r[k];
    }
  }

  /** Some filed set holds `p`. */
  predicate Filed(m: map<Role, set<nat>>, p: nat)
  {
    exists k :: k in m && p in m[k]
  }

  /** Finishing one more role finds `p` filed exactly when it was found before or that role holds it. */
  lemma FiledStep(m: map<Role, set<nat>>, todo: set<Role>, k: Role, p: nat)
    requires k in todo && k in m
    ensures Filed(m - (todo - {k}), p) <==> Filed(m - todo, p) || p in m[k]
  {
    if p in m[k] {
      assert k in m - (todo - {k});
    }
    if Filed(m - (todo - {k}), p) && p !in m[k] {
      var j :| j in m - (todo - {k}) && p in (m - (todo - {k}))[j];
      assert j in m - todo;
    }
    if Filed(m - todo, p) {
      var j :| j in m - todo && p in (m - todo)[j];
      assert j in m - (todo - {k});
    }
  }

  /**
   * Takes a legal proposition out of every legal set that holds it, and
   * unpairs it each time it is found.
   */
  method DropLegal(legal: map<Role, set<nat>>, lim: map<nat, nat>, p: nat)
      returns (legal': map<Role, set<nat>>, lim': map<nat, nat>)
    ensures legal' == DropFiled(legal, p)
    ensures lim' == if Filed(legal, p) then Unpair(lim, p) else lim
  {
    legal', lim' := legal, lim;
    var todo := legal.Keys;
    while todo != {}
      invariant todo <= legal.Keys && legal'.Keys == legal.Keys
      invariant forall k :: k in legal ==> legal'[k] == if k in todo then legal[k] else legal[k] - {p}
      invariant lim' == if Filed(legal - todo, p) then Unpair(lim, p) else lim
    {
      var k :| k in todo;
      FiledStep(legal, todo, k, p);
      if p in legal'[k] {
        legal' := legal'[k := legal'[k] - {p}];
        lim' := Unpair(lim', p);
      }
      todo := todo - {k};
    }
    assert legal - todo == legal;
  }

  /** Takes a goal proposition out of every goal set. */
  method DropGoal(goal: map<Role, set<nat>>, p: nat) returns (goal': map<Role, set<nat>>)
    ensures goal' == DropFiled(goal, p)
  {
    goal' := goal;
    var todo := goal.Keys;
    while todo != {}
      invariant todo <= goal.Keys && goal'.Keys == goal.Keys
      invariant forall k :: k in goal ==> goal'[k] == if k in todo then goal[k] else goal[k] - {p}
    {
      var k :| k in todo;
      goal' := goal'[k := goal'[k] - {p}];
      todo := todo - {k};
    }
  }

  /** The network's bookkeeping of propositions: all of them, filed by kind, and the legal/input pairing. */
  datatype Books = Books(props: set<nat>, base: map<Sentence, nat>, inputs: map<Sentence, nat>,
                         legal: map<Role, set<nat>>, goal: map<Role, set<nat>>, lim: map<nat, nat>)

  /** The INIT and terminal propositions, unless filed as base or input, cannot be removed. */
  predicate Protected(g: Graph, b: Books, c: nat)
    requires Shaped(g) && c < |g.kind|
  {
    g.kind[c].Proposition? && g.kind[c].name !in b.base && g.kind[c].name !in b.inputs
    && (g.kind[c].name == Prop("INIT") || g.kind[c].name == Prop("terminal"))
  }

  /**
   * The books once `c` is removed.  A base proposition leaves the base
   * index; otherwise an input proposition leaves the input index and is
   * unpaired; otherwise the proposition leaves every legal and goal set, and
   * is unpaired when some legal set held it.  Every proposition leaves the
   * set of propositions; any other component leaves the books as they were.
   */
  function Strike(g: Graph, b: Books, c: nat): Books
    requires Shaped(g) && c < |g.kind| && !Protected(g, b, c)
  {
    if !g.kind[c].Proposition? then b
    else
      var name := g.kind[c].name;
      var b' :=
        if name in b.base then b.(base := b.base - {name})
        else if name in b.inputs then b.(inputs := b.inputs - {name}, lim := Unpair(b.lim, c))
        else b.(legal := DropFiled(b.legal, c), goal := DropFiled(b.goal, c),
                lim := if Filed(b.legal, c) then Unpair(b.lim, c) else b.lim);
      b'.(props := b.props - {c})
  }

  /**
   * Books that agree with the network: the propositions are named apart,
   * the base and input indices name propositions under their own names and
   * share no name, the legal and goal sets hold propositions that are
   * neither base nor input, and the pairing goes both ways between input and
   * legal propositions.
   */
  ghost predicate Booked(g: Graph, b: Books)
    requires Shaped(g)
  {
    (forall x :: x in b.props ==> x < |g.kind| && g.kind[x].Proposition?)
    && (forall x, y :: x in b.props && y in b.props && g.kind[x] == g.kind[y] ==> x == y)
    && (forall s :: s in b.base ==> b.base[s] in b.props && g.kind[b.base[s]] == Proposition(s) && s !in b.inputs)
    && (forall s :: s in b.inputs ==> b.inputs[s] in b.props && g.kind[b.inputs[s]] == Proposition(s))
    && (forall x :: x in Filed1(b.legal) + Filed1(b.goal) ==>
          x in b.props && g.kind[x].name !in b.base && g.kind[x].name !in b.inputs)
    && Involution(b.lim)
    && (forall k :: k in b.lim ==> k in b.inputs.Values || k in Filed1(b.legal))
  }

  /** Some part of the books mentions `c`. */
  ghost predicate Mentions(b: Books, c: nat)
  {
    c in b.props || c in b.base.Values || c in b.inputs.Values
    || c in Filed1(b.legal) || c in Filed1(b.goal) || c in b.lim
  }

  /** Books that agree with the network mention no component that is not a proposition. */
  lemma NonPropositionUnbooked(g: Graph, b: Books, c: nat)
    requires Shaped(g) && c < |g.kind| && !g.kind[c].Proposition? && Booked(g, b)
    ensures !Mentions(b, c)
  {
    assert forall s :: s in b.base ==> b.base[s] != c;
    assert forall s :: s in b.inputs ==> b.inputs[s] != c;
  }

  /**
   * Books that lose `c` from the propositions, and otherwise only lose
   * entries, still agree with the network once they no longer mention `c`
   * and their pairing still goes both ways between input and legal
   * propositions.
   */
  lemma BookedShrinks(g: Graph, b: Books, b': Books, c: nat)
    requires Shaped(g) && Booked(g, b) && b'.props == b.props - {c} && !Mentions(b', c)
    requires forall s :: s in b'.base ==> s in b.base && b'.base[s] == b.base[s]
    requires forall s :: s in b'.inputs ==> s in b.inputs && b'.inputs[s] == b.inputs[s]
    requires Filed1(b'.legal) <= Filed1(b.legal) && Filed1(b'.goal) <= Filed1(b.goal)
    requires Involution(b'.lim) && forall k :: k in b'.lim ==> k in b'.inputs.Values || k in Filed1(b'.legal)
    ensures Booked(g, b')
  {
    forall s | s in b'.base ensures b'.base[s] in b'.props {
      assert b'.base[s] in b'.base.Values;
    }
    forall s | s in b'.inputs ensures b'.inputs[s] in b'.props {
      assert b'.inputs[s] in b'.inputs.Values;
    }
  }

  /** The base proposition leaves the base index and the propositions. */
  lemma BaseStruck(g: Graph, b: Books, c: nat)
    requires Shaped(g) && c in b.props && Booked(g, b) && g.kind[c].name in b.base
    ensures var b' := b.(base := b.base - {g.kind[c].name}, props := b.props - {c});
            Booked(g, b') && !Mentions(b', c)
  {
    var name := g.kind[c].name;
    var b' := b.(base := b.base - {name}, props := b.props - {c});
    assert forall s :: s in b'.base ==> b'.base[s] != c;
    assert forall s :: s in b.inputs ==> b.inputs[s] != c;
    BookedShrinks(g, b, b', c);
  }

  /** The input proposition leaves the input index, the pairing and the propositions. */
  lemma InputStruck(g: Graph, b: Books, c: nat)
    requires Shaped(g) && c in b.props && Booked(g, b) && g.kind[c].name !in b.base && g.kind[c].name in b.inputs
    ensures var b' := b.(inputs := b.inputs - {g.kind[c].name}, lim := Unpair(b.lim, c), props := b.props - {c});
            Booked(g, b') && !Mentions(b', c)
  {
    var name := g.kind[c].name;
    var b' := b.(inputs := b.inputs - {name}, lim := Unpair(b.lim, c), props := b.props - {c});
    assert b.inputs[name] == c;
    UnpairInvolution(b.lim, c);
    assert forall s :: s in b.base ==> b.base[s] != c;
    assert forall s :: s in b'.inputs ==> b'.inputs[s] != c;
    InputKeysKept(b.inputs, b'.inputs, b.lim, b'.lim, b.legal, c);
    BookedShrinks(g, b, b', c);
  }

  /** Pairing keys that were inputs other than `c` stay inputs once the input index loses only `c`. */
  lemma InputKeysKept(ins: map<Sentence, nat>, ins': map<Sentence, nat>, lim: map<nat, nat>, lim': map<nat, nat>,
                      legal: map<Role, set<nat>>, c: nat)
    requires forall k :: k in lim ==> k in ins.Values || k in Filed1(legal)
    requires forall k :: k in lim' ==> k in lim && k != c
    requires forall s :: s in ins && ins[s] != c ==> s in ins' && ins'[s] == ins[s]
    ensures forall k :: k in lim' ==> k in ins'.Values || k in Filed1(legal)
  {
    forall k | k in lim' && k !in Filed1(legal) ensures k in ins'.Values {
      var s :| s in ins && ins[s] == k;
      assert s in ins';
    }
  }

  /** Any other proposition leaves every legal and goal set, the pairing when it was legal, and the propositions. */
  lemma OtherStruck(g: Graph, b: Books, c: nat)
    requires Shaped(g) && c in b.props && Booked(g, b) && g.kind[c].name !in b.base && g.kind[c].name !in b.inputs
    ensures var b' := b.(legal := DropFiled(b.legal, c), goal := DropFiled(b.goal, c),
                         lim := if Filed(b.legal, c) then Unpair(b.lim, c) else b.lim, props := b.props - {c});
            Booked(g, b') && !Mentions(b', c)
  {
    var b' := b.(legal := DropFiled(b.legal, c), goal := DropFiled(b.goal, c),
                 lim := if Filed(b.legal, c) then Unpair(b.lim, c) else b.lim, props := b.props - {c});
    UnpairInvolution(b.lim, c);
    DropFiledUnion(b.legal, c);
    DropFiledUnion(b.goal, c);
    assert forall s :: s in b.base ==> b.base[s] != c;
    assert forall s :: s in b.inputs ==> b.inputs[s] != c;
    assert c !in b'.lim;
    LegalKeysKept(b.inputs, b.lim, b'.lim, b.legal, b'.legal, c);
    BookedShrinks(g, b, b', c);
  }

  /** Pairing keys other than `c` that were legal stay legal once the legal sets lose only `c`. */
  lemma LegalKeysKept(ins: map<Sentence, nat>, lim: map<nat, nat>, lim': map<nat, nat>,
                      legal: map<Role, set<nat>>, legal': map<Role, set<nat>>, c: nat)
    requires forall k :: k in lim ==> k in ins.Values || k in Filed1(legal)
    requires forall k :: k in lim' ==> k in lim && k != c
    requires Filed1(legal') == Filed1(legal) - {c}
    ensures forall k :: k in lim' ==> k in ins.Values || k in Filed1(legal')
  {
  }

  /**
   * Removing a component from books that agree with the network leaves books
   * that still agree with it and no longer mention the component.
   */
  lemma StrikeBooked(g: Graph, b: Books, c: nat)
    requires Shaped(g) && c < |g.kind| && !Protected(g, b, c) && Booked(g, b)
    requires g.kind[c].Proposition? ==> c in b.props
    ensures Booked(g, Strike(g, b, c)) && !Mentions(Strike(g, b, c), c)
  {
    if !g.kind[c].Proposition? {
      NonPropositionUnbooked(g, b, c);
    } else if g.kind[c].name in b.base {
      BaseStruck(g, b, c);
    } else if g.kind[c].name in b.inputs {
      InputStruck(g, b, c);
    } else {
      OtherStruck(g, b, c);
    }
  }

  /**
   * Removes `c` from the books, branch by branch as `Strike` describes, or
   * refuses when it is protected and keeps the books as they were.
   */
  method StrikeBooks(g: Graph, b: Books, c: nat) returns (removed: bool, b': Books)
    requires Shaped(g) && c < |g.kind|
    ensures removed <==> !Protected(g, b, c)
    ensures b' == if removed then Strike(g, b, c) else b
  {
    b' := b;
    if g.kind[c].Proposition? {
      var name := g.kind[c].name;
      if name in b.base {
        b' := b'.(base := b.base - {name});
      } else if name in b.inputs {
        b' := b'.(inputs := b.inputs - {name}, lim := Unpair(b.lim, c));
      } else if name == Prop("INIT") || name == Prop("terminal") {
        return false, b;
      } else {
        var legal, lim := DropLegal(b.legal, b.lim, c);
        var goal := DropGoal(b.goal, c);
        b' := b'.(legal := legal, goal := goal, lim := lim);
      }
      b' := b'.(props := b.props - {c});
    }
    removed := true;
  }
}
