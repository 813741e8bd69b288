/**
 * Reading and updating one component.  All components share the current
 * vector `cur` and the next vector `nxt`; an update recomputes the
 * component's value from what its inputs report, writes it when it differs
 * from the stored bit and then queues every output.
 */
module Gates {
  import opened Gdl
  import opened Components
  import opened Propositions
  import opened Structure
  import opened Evaluation
  import opened Worklists

  // ---------------------------------------------------------------------------
  // What an update does, as functions of the vectors before it.
  // ---------------------------------------------------------------------------

  /** The current vector after updating `h`: a transition leaves it alone. */
  function NewCur(g: Graph, live: set<nat>, lvl: seq<nat>, cur: seq<bool>, nxt: seq<bool>, h: nat): (r: seq<bool>)
    requires Evaluable(g, live, lvl, cur, nxt) && h in live
    ensures |r| == |cur|
  {
    if g.kind[h] == Transition then cur else cur[g.index[h] := Target(g, live, lvl, cur, nxt, h)]
  }

  /** The next vector after updating `h`: only a transition writes it, at its base proposition's slot. */
  function NewNxt(g: Graph, live: set<nat>, lvl: seq<nat>, cur: seq<bool>, nxt: seq<bool>, h: nat): (r: seq<bool>)
    requires Evaluable(g, live, lvl, cur, nxt) && h in live
    ensures |r| == |nxt|
  {
    if g.kind[h] == Transition then nxt[Slot(g, live, h) := Target(g, live, lvl, cur, nxt, h)] else nxt
  }

  /**
   * The worklist after updating `h`: every output is queued when the stored
   * bit changes; a transition never queues anything.
   */
  function Fanout(g: Graph, live: set<nat>, lvl: seq<nat>, cur: seq<bool>, nxt: seq<bool>, wl: Worklist, h: nat): Worklist
    requires Evaluable(g, live, lvl, cur, nxt) && h in live
  {
    if g.kind[h] != Transition && cur[g.index[h]] != Target(g, live, lvl, cur, nxt, h)
    then AddAll(g, wl, g.outputs[h])
    else wl
  }

  // ---------------------------------------------------------------------------
  // Frame lemmas: an update is invisible to everything that does not read it.
  // ---------------------------------------------------------------------------

  /** No live component is its own input. */
  lemma NotOwnInput(g: Graph, live: set<nat>, lvl: seq<nat>, c: nat, j: nat)
    requires Wired(g, live, lvl) && c in live && j < |g.inputs[c]|
    ensures g.inputs[c][j] != c
  {
    if g.kind[c] == Transition {
      InputIsFedBy(g, live, c, j);
      assert g.outputs[c] == [g.outputs[c][0]];
    }
  }

  /**
   * Updating `c` changes no other component's stored value, and a
   * transition's update changes no stored value at all: it writes a
   * proposition's slot of the next vector, which only transitions' own
   * slots are read from.
   */
  lemma UpdateFrame(g: Graph, live: set<nat>, lvl: seq<nat>, cur: seq<bool>, nxt: seq<bool>, c: nat, y: nat)
    requires Evaluable(g, live, lvl, cur, nxt) && SlotsDistinct(g, live) && c in live && y in live
    requires y != c || g.kind[c] == Transition
    ensures Evaluable(g, live, lvl, NewCur(g, live, lvl, cur, nxt, c), NewNxt(g, live, lvl, cur, nxt, c))
    ensures Stored(g, live, NewCur(g, live, lvl, cur, nxt, c), NewNxt(g, live, lvl, cur, nxt, c), y)
         == Stored(g, live, cur, nxt, y)
  {
    if g.kind[c] == Transition && g.kind[y] == Transition {
      assert g.outputs[c][0] != y;
    }
  }

  /**
   * What a component reports depends only on the stored values of components
   * below it: changing the stored value of `c` alone leaves the report of
   * every component below `c` alone.
   */
  lemma {:induction false} ValueFrame(g: Graph, live: set<nat>, lvl: seq<nat>,
                                      cur1: seq<bool>, nxt1: seq<bool>, cur2: seq<bool>, nxt2: seq<bool>, c: nat, x: nat)
    requires Evaluable(g, live, lvl, cur1, nxt1) && Evaluable(g, live, lvl, cur2, nxt2)
    requires c in live && x in live && x != c
    requires g.kind[x] == Transition || lvl[x] < lvl[c]
    requires forall y :: y in live && y != c ==> Stored(g, live, cur1, nxt1, y) == Stored(g, live, cur2, nxt2, y)
    requires g.kind[c] == Transition ==> Stored(g, live, cur1, nxt1, c) == Stored(g, live, cur2, nxt2, c)
    ensures Value(g, live, lvl, cur1, nxt1, x) == Value(g, live, lvl, cur2, nxt2, x)
    decreases lvl[x]
  {
    if g.kind[x] == Or {
      var ins := g.inputs[x];
      forall j | 0 <= j < |ins| && g.kind[ins[j]] == Or
        ensures Value(g, live, lvl, cur1, nxt1, ins[j]) == Value(g, live, lvl, cur2, nxt2, ins[j])
      {
        ValueFrame(g, live, lvl, cur1, nxt1, cur2, nxt2, c, ins[j]);
      }
    }
  }

  /** What a component's inputs report does not depend on the component's own stored value. */
  lemma ReadingsFrame(g: Graph, live: set<nat>, lvl: seq<nat>,
                      cur1: seq<bool>, nxt1: seq<bool>, cur2: seq<bool>, nxt2: seq<bool>, c: nat)
    requires Evaluable(g, live, lvl, cur1, nxt1) && Evaluable(g, live, lvl, cur2, nxt2)
    requires Symmetric(g, live) && c in live
    requires forall y :: y in live && y != c ==> Stored(g, live, cur1, nxt1, y) == Stored(g, live, cur2, nxt2, y)
    requires g.kind[c] == Transition ==> Stored(g, live, cur1, nxt1, c) == Stored(g, live, cur2, nxt2, c)
    ensures ValueReadings(g, live, lvl, cur1, nxt1, c) == ValueReadings(g, live, lvl, cur2, nxt2, c)
  {
    var ins := g.inputs[c];
    forall j | 0 <= j < |ins|
      ensures Value(g, live, lvl, cur1, nxt1, ins[j]) == Value(g, live, lvl, cur2, nxt2, ins[j])
    {
      NotOwnInput(g, live, lvl, c, j);
      ValueFrame(g, live, lvl, cur1, nxt1, cur2, nxt2, c, ins[j]);
    }
  }

  /** An update does not read its own result: the value it computes is the same afterwards. */
  lemma TargetFrame(g: Graph, live: set<nat>, lvl: seq<nat>, cur: seq<bool>, nxt: seq<bool>, c: nat)
    requires Evaluable(g, live, lvl, cur, nxt) && Symmetric(g, live) && SlotsDistinct(g, live) && c in live
    ensures Evaluable(g, live, lvl, NewCur(g, live, lvl, cur, nxt, c), NewNxt(g, live, lvl, cur, nxt, c))
    ensures Target(g, live, lvl, NewCur(g, live, lvl, cur, nxt, c), NewNxt(g, live, lvl, cur, nxt, c), c)
         == Target(g, live, lvl, cur, nxt, c)
  {
    var cur' := NewCur(g, live, lvl, cur, nxt, c);
    var nxt' := NewNxt(g, live, lvl, cur, nxt, c);
    forall y | y in live && (y != c || g.kind[c] == Transition)
      ensures Stored(g, live, cur, nxt, y) == Stored(g, live, cur', nxt', y)
    {
      UpdateFrame(g, live, lvl, cur, nxt, c, y);
    }
    ReadingsFrame(g, live, lvl, cur, nxt, cur', nxt', c);
  }

  /** Updating a component a second time changes nothing and queues nothing. */
  lemma UpdateIdempotent(g: Graph, live: set<nat>, lvl: seq<nat>, cur: seq<bool>, nxt: seq<bool>, wl: Worklist, c: nat)
    requires Evaluable(g, live, lvl, cur, nxt) && Symmetric(g, live) && SlotsDistinct(g, live) && c in live
    ensures var cur' := NewCur(g, live, lvl, cur, nxt, c);
      var nxt' := NewNxt(g, live, lvl, cur, nxt, c);
      Evaluable(g, live, lvl, cur', nxt')
      && NewCur(g, live, lvl, cur', nxt', c) == cur'
      && NewNxt(g, live, lvl, cur', nxt', c) == nxt'
      && Fanout(g, live, lvl, cur', nxt', wl, c) == wl
  {
    TargetFrame(g, live, lvl, cur, nxt, c);
  }

  // ---------------------------------------------------------------------------
  // The components' own code.
  // ---------------------------------------------------------------------------

  /**
   * What a component reports to a reader: an OR gate scans its inputs and
   * stops at the first true one; a constant reports its fixed value; a
   * transition reads its own slot of the next vector; every other component
   * reads its own slot of the current vector.
   */
  method GetValue(a: Arena, live: set<nat>, ghost lvl: seq<nat>, cur: array<bool>, nxt: array<bool>, h: nat)
      returns (v: bool)
    requires Evaluable(a.g, live, lvl, cur[..], nxt[..]) && h in live
    ensures v == Value(a.g, live, lvl, cur[..], nxt[..], h)
    decreases if a.g.kind[h] == Or then lvl[h] + 1 else 0
  {
    var g := a.g;
    match g.kind[h]
    case Constant(b) =>
      v := b;
    case Transition =>
      v := nxt[g.index[h]];
    case Or =>
      var ins := g.inputs[h];
      v := false;
      var j := 0;
      while j < |ins| && !v
        invariant 0 <= j <= |ins|
        invariant v <==> exists i | 0 <= i < j ::
          if g.kind[ins[i]] == Or then Value(g, live, lvl, cur[..], nxt[..], ins[i])
          else Stored(g, live, cur[..], nxt[..], ins[i])
      {
        v := GetValue(a, live, lvl, cur, nxt, ins[j]);
        j := j + 1;
      }
    case _ =>
      v := cur[g.index[h]];
  }

  /** Queues every output of `h`, in list order. */
  method AddOutputs(a: Arena, wl: Worklist, h: nat) returns (r: Worklist)
    requires Shaped(a.g) && InRange(a.g) && h < |a.g.kind|
    ensures r == AddAll(a.g, wl, a.g.outputs[h])
  {
    var outs := a.g.outputs[h];
    r := wl;
    for j := 0 to |outs|
      invariant r == AddAll(a.g, wl, outs[..j])
    {
      assert outs[..j + 1][..j] == outs[..j];
      r := Add(a.g, r, outs[j]);
    }
    assert outs[..|outs|] == outs;
  }

  /** Writes `v` to the slot of `h` when it differs, and then queues the outputs. */
  method Commit(a: Arena, cur: array<bool>, wl: Worklist, h: nat, v: bool) returns (r: Worklist)
    requires Shaped(a.g) && InRange(a.g) && h < |a.g.kind| && a.g.index[h] < cur.Length
    modifies cur
    ensures cur[..] == old(cur[..])[a.g.index[h] := v]
    ensures r == if old(cur[a.g.index[h]]) != v then AddAll(a.g, wl, a.g.outputs[h]) else wl
  {
    if cur[a.g.index[h]] != v {
      cur[a.g.index[h]] := v;
      r := AddOutputs(a, wl, h);
    } else {
      r := wl;
    }
  }

  /** A view proposition copies its input's report; any other proposition uses its explicit value. */
  method UpdateProposition(a: Arena, live: set<nat>, ghost lvl: seq<nat>, cur: array<bool>, nxt: array<bool>,
                           wl: Worklist, h: nat) returns (r: Worklist)
    requires Evaluable(a.g, live, lvl, cur[..], nxt[..]) && h in live && a.g.kind[h].Proposition? && cur != nxt
    modifies cur
    ensures cur[..] == NewCur(a.g, live, lvl, old(cur[..]), nxt[..], h)
    ensures r == Fanout(a.g, live, lvl, old(cur[..]), nxt[..], wl, h)
  {
    var v;
    if IsView(a.g, h) {
      var x := a.GetSingleInput(h);
      v := GetValue(a, live, lvl, cur, nxt, x);
    } else {
      v := a.g.value[h];
    }
    r := Commit(a, cur, wl, h, v);
  }

  /** An AND gate is true unless some input reports false; the scan stops at the first false input. */
  method UpdateAnd(a: Arena, live: set<nat>, ghost lvl: seq<nat>, cur: array<bool>, nxt: array<bool>,
                   wl: Worklist, h: nat) returns (r: Worklist)
    requires Evaluable(a.g, live, lvl, cur[..], nxt[..]) && h in live && a.g.kind[h] == And && cur != nxt
    modifies cur
    ensures cur[..] == NewCur(a.g, live, lvl, old(cur[..]), nxt[..], h)
    ensures r == Fanout(a.g, live, lvl, old(cur[..]), nxt[..], wl, h)
  {
    var ins := a.g.inputs[h];
    ghost var readings := ValueReadings(a.g, live, lvl, cur[..], nxt[..], h);
    var negative := false;
    var j := 0;
    while j < |ins| && !negative
      invariant 0 <= j <= |ins|
      invariant cur[..] == old(cur[..]) && readings == ValueReadings(a.g, live, lvl, cur[..], nxt[..], h)
      invariant negative <==> exists i | 0 <= i < j :: !readings[i]
    {
      var b := GetValue(a, live, lvl, cur, nxt, ins[j]);
      assert b == readings[j];
      if !b {
        negative := true;
      }
      j := j + 1;
    }
    assert !negative ==> forall i | 0 <= i < |readings| :: readings[i];
    assert Target(a.g, live, lvl, cur[..], nxt[..], h) == Gate(a.g, live, h, readings, a.g.value[h]);
    assert Target(a.g, live, lvl, cur[..], nxt[..], h) == forall i | 0 <= i < |readings| :: readings[i];
    r := Commit(a, cur, wl, h, !negative);
  }

  /** An OR gate is true when some input reports true; the scan stops at the first true input. */
  method UpdateOr(a: Arena, live: set<nat>, ghost lvl: seq<nat>, cur: array<bool>, nxt: array<bool>,
                  wl: Worklist, h: nat) returns (r: Worklist)
    requires Evaluable(a.g, live, lvl, cur[..], nxt[..]) && h in live && a.g.kind[h] == Or && cur != nxt
    modifies cur
    ensures cur[..] == NewCur(a.g, live, lvl, old(cur[..]), nxt[..], h)
    ensures r == Fanout(a.g, live, lvl, old(cur[..]), nxt[..], wl, h)
  {
    var ins := a.g.inputs[h];
    ghost var readings := ValueReadings(a.g, live, lvl, cur[..], nxt[..], h);
    var positive := false;
    var j := 0;
    while j < |ins| && !positive
      invariant 0 <= j <= |ins|
      invariant cur[..] == old(cur[..]) && readings == ValueReadings(a.g, live, lvl, cur[..], nxt[..], h)
      invariant positive <==> exists i | 0 <= i < j :: readings[i]
    {
      var b := GetValue(a, live, lvl, cur, nxt, ins[j]);
      assert b == readings[j];
      if b {
        positive := true;
      }
      j := j + 1;
    }
    assert !positive ==> forall i | 0 <= i < |readings| :: !readings[i];
    assert Target(a.g, live, lvl, cur[..], nxt[..], h) == Gate(a.g, live, h, readings, a.g.value[h]);
    assert Target(a.g, live, lvl, cur[..], nxt[..], h) == exists i | 0 <= i < |readings| :: readings[i];
    r := Commit(a, cur, wl, h, positive);
  }

  /** A NOT gate negates the report of its single input. */
  method UpdateNot(a: Arena, live: set<nat>, ghost lvl: seq<nat>, cur: array<bool>, nxt: array<bool>,
                   wl: Worklist, h: nat) returns (r: Worklist)
    requires Evaluable(a.g, live, lvl, cur[..], nxt[..]) && h in live && a.g.kind[h] == Not && cur != nxt
    modifies cur
    ensures cur[..] == NewCur(a.g, live, lvl, old(cur[..]), nxt[..], h)
    ensures r == Fanout(a.g, live, lvl, old(cur[..]), nxt[..], wl, h)
  {
    var x := a.GetSingleInput(h);
    var b := GetValue(a, live, lvl, cur, nxt, x);
    r := Commit(a, cur, wl, h, !b);
  }

  /** A constant writes its fixed value. */
  method UpdateConstant(a: Arena, live: set<nat>, ghost lvl: seq<nat>, cur: array<bool>, nxt: array<bool>,
                        wl: Worklist, h: nat) returns (r: Worklist)
    requires Evaluable(a.g, live, lvl, cur[..], nxt[..]) && h in live && a.g.kind[h].Constant? && cur != nxt
    modifies cur
    ensures cur[..] == NewCur(a.g, live, lvl, old(cur[..]), nxt[..], h)
    ensures r == Fanout(a.g, live, lvl, old(cur[..]), nxt[..], wl, h)
  {
    assert Target(a.g, live, lvl, cur[..], nxt[..], h) == a.g.kind[h].value;
    r := Commit(a, cur, wl, h, a.g.kind[h].value);
  }

  /**
   * A transition copies its input's report to its base proposition's slot of
   * the next vector, and queues nothing.
   */
  method UpdateTransition(a: Arena, live: set<nat>, ghost lvl: seq<nat>, cur: array<bool>, nxt: array<bool>, h: nat)
    requires Evaluable(a.g, live, lvl, cur[..], nxt[..]) && h in live && a.g.kind[h] == Transition && cur != nxt
    modifies nxt
    ensures nxt[..] == NewNxt(a.g, live, lvl, cur[..], old(nxt[..]), h)
  {
    var x := a.GetSingleInput(h);
    var v := GetValue(a, live, lvl, cur, nxt, x);
    var out := a.GetSingleOutput(h);
    if nxt[a.g.index[out]] != v {
      nxt[a.g.index[out]] := v;
    }
  }

  /**
   * The update of whichever kind `h` is.  The set of already-checked
   * components and the tracing flag that the components also receive never
   * change what they compute.
   */
  method Update(a: Arena, live: set<nat>, ghost lvl: seq<nat>, cur: array<bool>, nxt: array<bool>,
                wl: Worklist, h: nat) returns (r: Worklist)
    requires Evaluable(a.g, live, lvl, cur[..], nxt[..]) && h in live && cur != nxt
    modifies cur, nxt
    ensures cur[..] == NewCur(a.g, live, lvl, old(cur[..]), old(nxt[..]), h)
    ensures nxt[..] == NewNxt(a.g, live, lvl, old(cur[..]), old(nxt[..]), h)
    ensures r == Fanout(a.g, live, lvl, old(cur[..]), old(nxt[..]), wl, h)
  {
    match a.g.kind[h]
    case Proposition(_) => r := UpdateProposition(a, live, lvl, cur, nxt, wl, h);
    case And => r := UpdateAnd(a, live, lvl, cur, nxt, wl, h);
    case Or => r := UpdateOr(a, live, lvl, cur, nxt, wl, h);
    case Not => r := UpdateNot(a, live, lvl, cur, nxt, wl, h);
    case Constant(_) => r := UpdateConstant(a, live, lvl, cur, nxt, wl, h);
    case Transition =>
      UpdateTransition(a, live, lvl, cur, nxt, h);
      r := wl;
  }
}
