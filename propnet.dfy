/**
 * The propositional network: the component arena, the indices over its
 * propositions, the two bit vectors the components share and the forcing
 * and draining that answer every query.
 *
 * The components were handed one current vector when the network was built
 * (`compState`) and keep it for good; the network's own `currentState`
 * starts as that same vector and is replaced by every forcing with the newly
 * forced target, so each forcing compares its target with the previous one.
 */
module PropNets {
  import opened Gdl
  import opened Components
  import opened Propositions
  import opened Structure
  import opened Evaluation
  import opened Worklists
  import opened Gates
  import opened Propagation
  import opened BitSets
  import opened MachineStates
  import opened Recording
  import opened Elision
  import opened Construction
  import opened Removal

  /** The slots of the live base propositions. */
  function BaseSlots(g: Graph, live: set<nat>): (s: set<nat>)
    requires Shaped(g) && InRange(g) && Closed(g, live)
    ensures forall p :: p in live && g.kind[p].Proposition? && IsBase(g, p) ==> g.index[p] in s
  {
    set p | p in live && g.kind[p].Proposition? && IsBase(g, p) :: g.index[p]
  }

  /** The next vector has bits set only at base propositions' slots. */
  predicate NextOnBases(g: Graph, live: set<nat>, nxt: seq<bool>)
    requires Shaped(g) && InRange(g) && Closed(g, live)
  {
    forall i :: 0 <= i < |nxt| && nxt[i] ==> i in BaseSlots(g, live)
  }

  /** Every slot below `n` belongs to exactly the live component the slot index names. */
  predicate Indexed(g: Graph, live: set<nat>, idx: map<nat, nat>, n: nat)
    requires Shaped(g) && Closed(g, live)
  {
    forall i :: 0 <= i < n ==> i in idx && idx[i] in live && g.index[idx[i]] == i
  }

  /** A transition's own slot of the next vector is never set, since it is not a base proposition's slot. */
  lemma TransitionSlotsClear(g: Graph, live: set<nat>, lvl: seq<nat>, nxt: seq<bool>)
    requires Formed(g, live, lvl) && SlotsDistinct(g, live) && NextOnBases(g, live, nxt)
    ensures forall t :: t in live && g.kind[t] == Transition && g.index[t] < |nxt| ==> !nxt[g.index[t]]
  {
    forall t | t in live && g.kind[t] == Transition && g.index[t] < |nxt|
      ensures !nxt[g.index[t]]
    {
      assert forall p :: p in live && g.kind[p].Proposition? ==> g.index[p] != g.index[t];
      assert g.index[t] !in BaseSlots(g, live);
    }
  }

  /** An update writes the next vector only at a base proposition's slot. */
  lemma NextOnBasesUpdate(g: Graph, live: set<nat>, lvl: seq<nat>, cur: seq<bool>, nxt: seq<bool>, c: nat)
    requires Wired(g, live, lvl) && Evaluable(g, live, lvl, cur, nxt) && c in live
    requires NextOnBases(g, live, nxt)
    ensures NextOnBases(g, live, NewNxt(g, live, lvl, cur, nxt, c))
  {
    if g.kind[c] == Transition {
      TransitionFeedsBase(g, live, lvl, c);
    }
  }

  /**
   * The forced target: the pristine vector with every bit of the state's
   * set and every forced slot set.
   */
  function Forced(pristine: seq<bool>, bits: set<nat>, forced: set<nat>): (t: seq<bool>)
    ensures |t| == |pristine|
  {
    seq(|pristine|, i requires 0 <= i < |pristine| => pristine[i] || i in bits || i in forced)
  }

  /** The slots of the input propositions of the moves that have one. */
  function MoveSlots(g: Graph, inputs: map<Sentence, nat>, moves: seq<Sentence>): set<nat>
    requires Shaped(g) && forall s :: s in inputs ==> inputs[s] < |g.kind|
  {
    set k | 0 <= k < |moves| && moves[k] in inputs :: g.index[inputs[moves[k]]]
  }

  /** A component's consistency does not depend on the explicit values of the other components. */
  lemma ConsistentValueFrame(g: Graph, g': Graph, live: set<nat>, lvl: seq<nat>, cur: seq<bool>, nxt: seq<bool>, h: nat)
    requires Evaluable(g, live, lvl, cur, nxt) && h in live
    requires g' == g.(value := g'.value) && |g'.value| == |g.value|
    requires Given(g, live, h) ==> g'.value[h] == g.value[h]
    requires Consistent(g, live, lvl, cur, nxt, h)
    ensures Evaluable(g', live, lvl, cur, nxt) && Consistent(g', live, lvl, cur, nxt, h)
  {
    assert StoredReadings(g', live, cur, nxt, h) == StoredReadings(g, live, cur, nxt, h);
  }

  /** The shape facts a network relies on do not depend on the components' explicit values. */
  lemma ShapeValueFrame(g: Graph, g': Graph, live: set<nat>, lvl: seq<nat>, n: nat, idx: map<nat, nat>, nxt: seq<bool>)
    requires g' == g.(value := g'.value) && |g'.value| == |g.value|
    requires Wired(g, live, lvl) && SlotsDistinct(g, live) && Slotted(g, live, n)
    requires Indexed(g, live, idx, n) && NextOnBases(g, live, nxt)
    ensures Wired(g', live, lvl) && SlotsDistinct(g', live) && Slotted(g', live, n)
    ensures Indexed(g', live, idx, n) && NextOnBases(g', live, nxt)
    ensures BaseSlots(g', live) == BaseSlots(g, live)
    ensures Topological(g', live) <==> Topological(g, live)
  {
    assert g'.kind == g.kind && g'.inputs == g.inputs && g'.outputs == g.outputs && g'.index == g.index;
    SymmetricFrame(g, g', live);
  }

  /**
   * After the differing slots are marked, every live component is queued or
   * still consistent: a component whose slot did not change kept its
   * explicit value, and its stored readings do not depend on the values.
   */
  lemma MarkedPending(g0: Graph, g': Graph, live: set<nat>, lvl: seq<nat>, cur: seq<bool>, nxt: seq<bool>,
                      prev: seq<bool>, target: seq<bool>, wl: Worklist)
    requires Evaluable(g0, live, lvl, cur, nxt) && AllConsistent(g0, live, lvl, cur, nxt)
    requires |prev| == |cur| && |target| == |cur|
    requires g' == g0.(value := g'.value) && |g'.value| == |g0.value|
    requires forall h :: h in live && Given(g0, live, h) ==>
      g'.value[h] == if prev[g0.index[h]] != target[g0.index[h]] then target[g0.index[h]] else g0.value[h]
    requires forall h :: h in live && prev[g0.index[h]] != target[g0.index[h]] ==> Queued(g0, wl, h)
    ensures Evaluable(g', live, lvl, cur, nxt) && Pending(g', live, lvl, cur, nxt, wl)
  {
    assert g'.kind == g0.kind && g'.inputs == g0.inputs && g'.outputs == g0.outputs && g'.index == g0.index && g'.topo == g0.topo;
    forall h | h in live
      ensures Queued(g', wl, h) || Consistent(g', live, lvl, cur, nxt, h)
    {
      if prev[g0.index[h]] == target[g0.index[h]] {
        ConsistentValueFrame(g0, g', live, lvl, cur, nxt, h);
      }
    }
  }

  /** Marking keeps explicit values in step with the vector when the new target replaces the previous one. */
  lemma MarkedTrack(g0: Graph, g': Graph, live: set<nat>, prev: seq<bool>, target: seq<bool>)
    requires Shaped(g0) && InRange(g0) && Closed(g0, live) && Slotted(g0, live, |prev|) && |target| == |prev|
    requires ValuesTrack(g0, live, prev)
    requires g' == g0.(value := g'.value) && |g'.value| == |g0.value|
    requires forall h :: h in live && Given(g0, live, h) ==>
      g'.value[h] == if prev[g0.index[h]] != target[g0.index[h]] then target[g0.index[h]] else g0.value[h]
    ensures Shaped(g') && InRange(g') && Closed(g', live) && Slotted(g', live, |target|)
    ensures ValuesTrack(g', live, target)
  {
    assert g'.kind == g0.kind && g'.inputs == g0.inputs && g'.outputs == g0.outputs && g'.index == g0.index;
  }

  /** What marking establishes, under the hypotheses that held before it. */
  lemma MarkedFacts(g0: Graph, g': Graph, live: set<nat>, lvl: seq<nat>, cur: seq<bool>, nxt: seq<bool>,
                    prev: seq<bool>, target: seq<bool>, wl: Worklist, tracked: bool, settled: bool)
    requires Evaluable(g0, live, lvl, cur, nxt) && |prev| == |cur| && |target| == |cur|
    requires MarkedUpTo(g0, g', live, prev, target, wl, |prev|)
    requires tracked ==> ValuesTrack(g0, live, prev)
    requires settled ==> Topological(g0, live) && AllConsistent(g0, live, lvl, cur, nxt)
    ensures g' == g0.(value := g'.value) && |g'.value| == |g0.value|
    ensures Evaluable(g', live, lvl, cur, nxt) && Keyed(g', live, wl)
    ensures tracked ==> ValuesTrack(g', live, target)
    ensures settled ==> Pending(g', live, lvl, cur, nxt, wl)
    ensures prev == target ==> wl == map[] && g' == g0
  {
    assert g'.kind == g0.kind && g'.inputs == g0.inputs && g'.outputs == g0.outputs && g'.index == g0.index && g'.topo == g0.topo;
    assert forall h :: h in live && Given(g0, live, h) ==>
      g'.value[h] == if prev[g0.index[h]] != target[g0.index[h]] then target[g0.index[h]] else g0.value[h];
    assert settled ==> forall h :: h in live && prev[g0.index[h]] != target[g0.index[h]] ==> Queued(g0, wl, h);
    if tracked {
      MarkedTrack(g0, g', live, prev, target);
    }
    MarkedPendingIf(g0, g', live, lvl, cur, nxt, prev, target, wl, settled);
    if prev == target {
      assert forall j :: 0 <= j < |prev| ==> prev[j] == target[j];
    }
  }

  lemma MarkedPendingIf(g0: Graph, g': Graph, live: set<nat>, lvl: seq<nat>, cur: seq<bool>, nxt: seq<bool>,
                        prev: seq<bool>, target: seq<bool>, wl: Worklist, settled: bool)
    requires Evaluable(g0, live, lvl, cur, nxt) && |prev| == |cur| && |target| == |cur|
    requires settled ==> AllConsistent(g0, live, lvl, cur, nxt)
    requires g' == g0.(value := g'.value) && |g'.value| == |g0.value|
    requires forall h :: h in live && Given(g0, live, h) ==>
      g'.value[h] == if prev[g0.index[h]] != target[g0.index[h]] then target[g0.index[h]] else g0.value[h]
    requires settled ==> forall h :: h in live && prev[g0.index[h]] != target[g0.index[h]] ==> Queued(g0, wl, h)
    ensures Evaluable(g', live, lvl, cur, nxt)
    ensures settled ==> Pending(g', live, lvl, cur, nxt, wl)
  {
    assert g'.kind == g0.kind && g'.inputs == g0.inputs && g'.outputs == g0.outputs && g'.index == g0.index;
    if settled {
      MarkedPending(g0, g', live, lvl, cur, nxt, prev, target, wl);
    }
  }

  /**
   * The target of a forcing: the pristine vector, then the state's bits,
   * then every move's input slot (moves without an input proposition are
   * skipped), then the forced slot when there is one.
   */
  method BuildTarget(g: Graph, pristine: array<bool>, inputs: map<Sentence, nat>, bits: set<nat>,
                     moves: seq<Sentence>, extra: Option<nat>) returns (target: array<bool>)
    requires Shaped(g) && forall s :: s in inputs ==> inputs[s] < |g.kind| && g.index[inputs[s]] < pristine.Length
    requires forall i :: i in bits ==> i < pristine.Length
    requires extra.Some? ==> extra.value < pristine.Length
    ensures fresh(target)
    ensures target[..] == Forced(pristine[..], bits, MoveSlots(g, inputs, moves) + (if extra.Some? then {extra.value} else {}))
  {
    var n := pristine.Length;
    target := new bool[n];
    forall i | 0 <= i < n {
      target[i] := pristine[i];
    }
    for i := 0 to n
      invariant forall j :: 0 <= j < n ==> target[j] == (pristine[j] || (j < i && j in bits))
    {
      if i in bits {
        target[i] := true;
      }
    }
    for m := 0 to |moves|
      invariant forall j :: 0 <= j < n ==> target[j] == (pristine[j] || j in bits || j in MoveSlots(g, inputs, moves[..m]))
    {
      assert MoveSlots(g, inputs, moves[..m + 1])
          == MoveSlots(g, inputs, moves[..m]) + (if moves[m] in inputs then {g.index[inputs[moves[m]]]} else {});
      if moves[m] in inputs {
        target[g.index[inputs[moves[m]]]] := true;
      }
    }
    assert moves[..|moves|] == moves;
    if extra.Some? {
      target[extra.value] := true;
    }
  }

  /**
   * The marking loop's progress after the first `i` slots: only explicit
   * values changed, every given proposition at a differing slot below `i`
   * holds its new bit, every component at such a slot is queued (when ranks
   * are distinct), and nothing was done at all while no slot differed.
   */
  ghost predicate MarkedUpTo(g0: Graph, g: Graph, live: set<nat>, prev: seq<bool>, target: seq<bool>, wl: Worklist, i: nat)
    requires Shaped(g0) && InRange(g0) && Closed(g0, live) && Slotted(g0, live, |prev|) && |target| == |prev|
  {
    g == g0.(value := g.value) && |g.value| == |g0.value|
    && Keyed(g0, live, wl)
    && ValuesMarked(g0, g, live, prev, target, i)
    && (Topological(g0, live) ==> QueuedMarked(g0, live, prev, target, wl, i))
    && (wl == map[] <==> forall j :: 0 <= j < i && j < |prev| ==> prev[j] == target[j])
    && (wl == map[] ==> g == g0)
  }

  ghost predicate ValuesMarked(g0: Graph, g: Graph, live: set<nat>, prev: seq<bool>, target: seq<bool>, i: nat)
    requires Shaped(g0) && InRange(g0) && Closed(g0, live) && Slotted(g0, live, |prev|) && |target| == |prev|
    requires |g.value| == |g0.value|
  {
    forall h :: h in live && Given(g0, live, h) ==>
      g.value[h] == if g0.index[h] < i && prev[g0.index[h]] != target[g0.index[h]] then target[g0.index[h]] else g0.value[h]
  }

  ghost predicate QueuedMarked(g0: Graph, live: set<nat>, prev: seq<bool>, target: seq<bool>, wl: Worklist, i: nat)
    requires Shaped(g0) && InRange(g0) && Closed(g0, live) && Slotted(g0, live, |prev|) && |target| == |prev|
  {
    forall h :: h in live && g0.index[h] < i && prev[g0.index[h]] != target[g0.index[h]] ==> Queued(g0, wl, h)
  }

  /** The step's effect on the explicit values. */
  lemma StepValues(g0: Graph, g: Graph, g': Graph, live: set<nat>, idx: map<nat, nat>, prev: seq<bool>, target: seq<bool>, i: nat)
    requires Shaped(g0) && InRange(g0) && Closed(g0, live) && Slotted(g0, live, |prev|) && |target| == |prev|
    requires SlotsDistinct(g0, live) && Indexed(g0, live, idx, |prev|) && i < |prev|
    requires |g.value| == |g0.value| && ValuesMarked(g0, g, live, prev, target, i)
    requires prev[i] == target[i] ==> g' == g
    requires prev[i] != target[i] ==>
      g' == if g0.kind[idx[i]].Proposition? then g.(value := g.value[idx[i] := target[i]]) else g
    ensures |g'.value| == |g0.value| && ValuesMarked(g0, g', live, prev, target, i + 1)
  {
  }

  /** The step's effect on the worklist. */
  lemma StepQueued(g0: Graph, live: set<nat>, idx: map<nat, nat>, prev: seq<bool>, target: seq<bool>,
                   wl: Worklist, wl': Worklist, i: nat)
    requires Shaped(g0) && InRange(g0) && Closed(g0, live) && Slotted(g0, live, |prev|) && |target| == |prev|
    requires SlotsDistinct(g0, live) && Indexed(g0, live, idx, |prev|) && i < |prev|
    requires Keyed(g0, live, wl) && Topological(g0, live) && QueuedMarked(g0, live, prev, target, wl, i)
    requires prev[i] == target[i] ==> wl' == wl
    requires prev[i] != target[i] ==> wl' == Add(g0, wl, idx[i])
    ensures QueuedMarked(g0, live, prev, target, wl', i + 1)
  {
    if prev[i] != target[i] {
      var c := idx[i];
      assert Queued(g0, wl', c);
      assert forall h :: h in live && Queued(g0, wl, h) ==> Queued(g0, wl', h);
    }
  }

  /** One slot of the marking loop. */
  lemma MarkStep(g0: Graph, g: Graph, g': Graph, live: set<nat>, idx: map<nat, nat>, prev: seq<bool>, target: seq<bool>,
                 wl: Worklist, wl': Worklist, i: nat)
    requires Shaped(g0) && InRange(g0) && Closed(g0, live) && Slotted(g0, live, |prev|) && |target| == |prev|
    requires SlotsDistinct(g0, live) && Indexed(g0, live, idx, |prev|) && i < |prev|
    requires MarkedUpTo(g0, g, live, prev, target, wl, i)
    requires prev[i] != target[i] && wl' == Add(g, wl, idx[i])
    requires g' == if g0.kind[idx[i]].Proposition? then g.(value := g.value[idx[i] := target[i]]) else g
    ensures MarkedUpTo(g0, g', live, prev, target, wl', i + 1)
  {
    assert g.topo == g0.topo;
    assert wl' == Add(g0, wl, idx[i]);
    StepValues(g0, g, g', live, idx, prev, target, i);
    if Topological(g0, live) {
      StepQueued(g0, live, idx, prev, target, wl, wl', i);
    }
  }

  /** An equal slot changes nothing. */
  lemma MarkSkip(g0: Graph, g: Graph, live: set<nat>, idx: map<nat, nat>, prev: seq<bool>, target: seq<bool>,
                 wl: Worklist, i: nat)
    requires Shaped(g0) && InRange(g0) && Closed(g0, live) && Slotted(g0, live, |prev|) && |target| == |prev|
    requires SlotsDistinct(g0, live) && Indexed(g0, live, idx, |prev|) && i < |prev|
    requires MarkedUpTo(g0, g, live, prev, target, wl, i)
    requires prev[i] == target[i]
    ensures MarkedUpTo(g0, g, live, prev, target, wl, i + 1)
  {
    StepValues(g0, g, g, live, idx, prev, target, i);
    if Topological(g0, live) {
      StepQueued(g0, live, idx, prev, target, wl, wl, i);
    }
  }

  /**
   * Compares the new target with the previous one slot by slot: the
   * component at every differing slot is queued and, when it is a
   * proposition, given the new bit as its explicit value.
   */
  method MarkSlots(a: Arena, live: set<nat>, idx: map<nat, nat>, prev: array<bool>, target: array<bool>)
      returns (wl: Worklist)
    requires Shaped(a.g) && InRange(a.g) && Closed(a.g, live) && Slotted(a.g, live, prev.Length)
    requires SlotsDistinct(a.g, live) && Indexed(a.g, live, idx, prev.Length) && target.Length == prev.Length
    modifies a
    ensures MarkedUpTo(old(a.g), a.g, live, prev[..], target[..], wl, prev.Length)
  {
    var n := prev.Length;
    ghost var g0 := a.g;
    wl := map[];
    for i := 0 to n
      invariant MarkedUpTo(g0, a.g, live, prev[..], target[..], wl, i)
    {
      ghost var g := a.g;
      ghost var wl0 := wl;
      if target[i] != prev[i] {
        var c := idx[i];
        wl := Add(a.g, wl, c);
        if a.g.kind[c].Proposition? {
          a.SetValue(c, target[i]);
        }
        MarkStep(g0, g, a.g, live, idx, prev[..], target[..], wl0, wl, i);
      } else {
        MarkSkip(g0, a.g, live, idx, prev[..], target[..], wl, i);
      }
    }
  }

  /**
   * Marking the differing slots keeps explicit values in step with the
   * vector and leaves every component that was consistent and is not
   * queued still consistent.
   */
  method MarkDiffering(a: Arena, live: set<nat>, ghost lvl: seq<nat>, idx: map<nat, nat>, prev: array<bool>, target: array<bool>,
                       ghost cur: seq<bool>, ghost nxt: seq<bool>)
      returns (wl: Worklist)
    requires Evaluable(a.g, live, lvl, cur, nxt) && |cur| == prev.Length
    requires SlotsDistinct(a.g, live) && Indexed(a.g, live, idx, prev.Length) && target.Length == prev.Length
    modifies a
    ensures a.g == old(a.g).(value := a.g.value) && |a.g.value| == |old(a.g.value)|
    ensures Evaluable(a.g, live, lvl, cur, nxt) && Keyed(a.g, live, wl)
    ensures old(ValuesTrack(a.g, live, prev[..])) ==> ValuesTrack(a.g, live, target[..])
    ensures old(Topological(a.g, live) && AllConsistent(a.g, live, lvl, cur, nxt)) ==> Pending(a.g, live, lvl, cur, nxt, wl)
    ensures prev[..] == target[..] ==> wl == map[] && a.g == old(a.g)
  {
    ghost var g0 := a.g;
    wl := MarkSlots(a, live, idx, prev, target);
    MarkedFacts(g0, a.g, live, lvl, cur, nxt, prev[..], target[..], wl,
                ValuesTrack(g0, live, prev[..]), Topological(g0, live) && AllConsistent(g0, live, lvl, cur, nxt));
  }

  /**
   * Once every component is consistent and the explicit values track the
   * forced vector, what each component stores is the circuit's evaluation
   * under that vector.
   */
  lemma SettledIsEval(g: Graph, live: set<nat>, lvl: seq<nat>, asg: seq<bool>, cur: seq<bool>, nxt: seq<bool>, h: nat)
    requires Evaluable(g, live, lvl, cur, nxt) && SlotsDistinct(g, live) && NextOnBases(g, live, nxt)
    requires AllConsistent(g, live, lvl, cur, nxt) && |asg| == |cur| && ValuesTrack(g, live, asg) && h in live
    ensures g.kind[h] != Transition ==> Stored(g, live, cur, nxt, h) == Eval(g, live, lvl, asg, h)
    ensures g.kind[h] == Transition ==> nxt[Slot(g, live, h)] == Eval(g, live, lvl, asg, h)
  {
    TransitionSlotsClear(g, live, lvl, nxt);
    ConsistentIsEval(g, live, lvl, asg, cur, nxt, h);
  }

  /**
   * The next state: its bits are base propositions' slots, and a base
   * proposition's slot is set exactly when the transition feeding it
   * evaluates to true.
   */
  ghost predicate NextIsEval(g: Graph, live: set<nat>, lvl: seq<nat>, asg: seq<bool>, bits: set<nat>)
    requires Formed(g, live, lvl) && Slotted(g, live, |asg|)
  {
    (forall i :: i in bits ==> i in BaseSlots(g, live))
    && forall t :: t in live && g.kind[t] == Transition ==>
         (g.index[g.outputs[t][0]] in bits <==> Eval(g, live, lvl, asg, t))
  }

  lemma NextStateIsEval(g: Graph, live: set<nat>, lvl: seq<nat>, asg: seq<bool>, cur: seq<bool>, nxt: seq<bool>)
    requires Evaluable(g, live, lvl, cur, nxt) && SlotsDistinct(g, live) && NextOnBases(g, live, nxt)
    requires AllConsistent(g, live, lvl, cur, nxt) && |asg| == |cur| && ValuesTrack(g, live, asg)
    ensures NextIsEval(g, live, lvl, asg, BitsOf(nxt))
  {
    forall t | t in live && g.kind[t] == Transition
      ensures g.index[g.outputs[t][0]] in BitsOf(nxt) <==> Eval(g, live, lvl, asg, t)
    {
      SettledIsEval(g, live, lvl, asg, cur, nxt, t);
    }
  }

  /** The init, terminal, legal and goal propositions are live propositions with slots below `n`. */
  predicate RecordedIn(g: Graph, live: set<nat>, n: nat, init: Option<nat>, terminal: Option<nat>,
                       legal: map<Role, set<nat>>, goal: map<Role, set<nat>>)
  {
    Shaped(g)
    && (init.Some? ==> Recorded1(g, live, n, init.value))
    && (terminal.Some? ==> Recorded1(g, live, n, terminal.value))
    && (forall r :: r in legal ==> RecordedAll(g, live, n, legal[r]))
    && (forall r :: r in goal ==> RecordedAll(g, live, n, goal[r]))
  }

  predicate RecordedAll(g: Graph, live: set<nat>, n: nat, s: set<nat>)
    requires Shaped(g)
  {
    forall p :: p in s ==> Recorded1(g, live, n, p)
  }

  predicate Recorded1(g: Graph, live: set<nat>, n: nat, p: nat)
    requires Shaped(g)
  {
    p in live && p < |g.kind| && g.kind[p].Proposition? && g.index[p] < n
  }

  lemma RecordedValueFrame(g: Graph, g': Graph, live: set<nat>, n: nat, init: Option<nat>, terminal: Option<nat>,
                           legal: map<Role, set<nat>>, goal: map<Role, set<nat>>)
    requires g' == g.(value := g'.value) && |g'.value| == |g.value|
    requires RecordedIn(g, live, n, init, terminal, legal, goal)
    ensures RecordedIn(g', live, n, init, terminal, legal, goal)
  {
    assert g'.kind == g.kind && g'.index == g.index;
  }

  /**
   * What the first updates leave in the current vector: every constant
   * already updated holds its value, and no slot but a negation's or a
   * constant's is set.
   */
  ghost predicate Primed(g: Graph, live: set<nat>, done: set<nat>, cur: seq<bool>)
    requires Shaped(g) && Closed(g, live) && Slotted(g, live, |cur|)
  {
    (forall h :: h in live && h in done && g.kind[h].Constant? ==> cur[g.index[h]] == g.kind[h].value)
    && (forall h :: h in live && g.kind[h] != Not && !g.kind[h].Constant? ==> !cur[g.index[h]])
  }

  /**
   * A chain of six components: a given proposition `z`, then alternately a
   * negation and a one-input OR, each reading the one before, with slots and
   * ranks equal to the handles.
   */
  function Chain(): Graph
  {
    Graph(seq(6, h => if h == 0 then Proposition(Prop("z")) else if h % 2 == 1 then Not else Or),
          seq(6, h => if h == 0 then [] else [h - 1]), seq(6, h => if h < 5 then [h + 1] else []),
          seq(6, h => h), seq(6, h => h), seq(6, h => false))
  }

  const ChainLive: set<nat> := {0, 1, 2, 3, 4, 5}
  const ChainLevels: seq<nat> := [0, 1, 2, 3, 4, 5]

  /** The chain's edges stay among its components. */
  lemma ChainClosed()
    ensures Shaped(Chain()) && InRange(Chain()) && Closed(Chain(), ChainLive)
  {
  }

  /** Levels rise along the chain, and its negations have one input each. */
  lemma ChainFormed()
    ensures Formed(Chain(), ChainLive, ChainLevels)
  {
    ChainClosed();
    assert Leveled(Chain(), ChainLevels) && Arity(Chain(), ChainLive);
  }

  /** Each edge of the chain is recorded at both ends. */
  lemma ChainSymmetric()
    ensures Shaped(Chain()) && Closed(Chain(), ChainLive) && Symmetric(Chain(), ChainLive)
  {
    ChainClosed();
    var g := Chain();
    forall c, d | c in ChainLive && d in ChainLive ensures Agree(g, c, d) {
      assert multiset(g.outputs[c])[d] == (if c < 5 && d == c + 1 then 1 else 0);
      assert multiset(g.inputs[d])[c] == (if d > 0 && c == d - 1 then 1 else 0);
    }
  }

  /** The chain is well formed, its slots are distinct and its ranks are topological. */
  lemma ChainWired()
    ensures Wired(Chain(), ChainLive, ChainLevels) && SlotsDistinct(Chain(), ChainLive)
    ensures Topological(Chain(), ChainLive)
  {
    ChainFormed();
    ChainSymmetric();
  }

  /** Every current vector of six bits evaluates on the chain. */
  lemma ChainEvaluable(cur: seq<bool>)
    requires |cur| == 6
    ensures Evaluable(Chain(), ChainLive, ChainLevels, cur, Clear(6))
    ensures Topological(Chain(), ChainLive)
  {
    ChainWired();
  }

  /** A negation with the one input `i` computes the negation of what `i` reports. */
  lemma NegationReads(g: Graph, live: set<nat>, lvl: seq<nat>, cur: seq<bool>, nxt: seq<bool>, h: nat, i: nat)
    requires Evaluable(g, live, lvl, cur, nxt) && h in live && g.kind[h] == Not && g.inputs[h] == [i]
    ensures i in live && Target(g, live, lvl, cur, nxt, h) == !Value(g, live, lvl, cur, nxt, i)
  {
    assert g.inputs[h][0] == i;
  }

  /** An OR with the one input `i`, itself no OR, reports and computes what `i` stores. */
  lemma OrCopies(g: Graph, live: set<nat>, lvl: seq<nat>, cur: seq<bool>, nxt: seq<bool>, h: nat, i: nat)
    requires Evaluable(g, live, lvl, cur, nxt) && h in live && g.kind[h] == Or && g.inputs[h] == [i]
    requires g.kind[g.inputs[h][0]] != Or
    ensures i in live
    ensures Value(g, live, lvl, cur, nxt, h) == Stored(g, live, cur, nxt, i)
    ensures Target(g, live, lvl, cur, nxt, h) == Stored(g, live, cur, nxt, i)
  {
    assert g.inputs[h][0] == i;
    var v := Stored(g, live, cur, nxt, i);
    assert Value(g, live, lvl, cur, nxt, h) == v by {
      if v {
        assert g.inputs[h][0] == i && g.kind[i] != Or;
      }
    }
    var r := ValueReadings(g, live, lvl, cur, nxt, h);
    assert r[0] == v;
  }

  /**
   * What an update of a negation computes on the chain: the negation of what
   * the negation two before it stores (through the OR between them, which
   * recomputes), or of `z` for the first negation.
   */
  lemma ChainNotTarget(cur: seq<bool>, h: nat)
    requires |cur| == 6 && (h == 1 || h == 3 || h == 5)
    ensures Evaluable(Chain(), ChainLive, ChainLevels, cur, Clear(6))
    ensures Target(Chain(), ChainLive, ChainLevels, cur, Clear(6), h) == !(if h == 1 then cur[0] else cur[h - 2])
  {
    ChainEvaluable(cur);
    var g := Chain();
    assert g.kind[h] == Not && g.inputs[h] == [h - 1];
    NegationReads(g, ChainLive, ChainLevels, cur, Clear(6), h, h - 1);
    if h > 1 {
      assert g.kind[h - 1] == Or && g.inputs[h - 1] == [h - 2] && g.kind[h - 2] == Not;
      OrCopies(g, ChainLive, ChainLevels, cur, Clear(6), h - 1, h - 2);
    }
  }

  /** What an update of an OR computes on the chain: what the negation before it stores. */
  lemma ChainOrTarget(cur: seq<bool>, h: nat)
    requires |cur| == 6 && (h == 2 || h == 4)
    ensures Evaluable(Chain(), ChainLive, ChainLevels, cur, Clear(6))
    ensures Target(Chain(), ChainLive, ChainLevels, cur, Clear(6), h) == cur[h - 1]
  {
    ChainEvaluable(cur);
    var g := Chain();
    assert g.kind[h] == Or && g.inputs[h] == [h - 1] && g.kind[h - 1] == Not;
    OrCopies(g, ChainLive, ChainLevels, cur, Clear(6), h, h - 1);
  }

  /**
   * The source's first propagation can leave a negation stale.  Over the
   * all-false vector, the updates of the negations may run in the order 3,
   * 5, 1: negation 3 turns true (queueing OR 4); negation 5 reads OR 4,
   * which recomputes from negation 3, stays false and queues nothing; and
   * negation 1 turns true (queueing OR 2).
   */
  lemma StaleSeeding(wl: Worklist)
    ensures var g, live, lvl, nxt := Chain(), ChainLive, ChainLevels, Clear(6);
            var c1 := Clear(6)[3 := true];
            Evaluable(g, live, lvl, c1, nxt)
            && NewCur(g, live, lvl, Clear(6), nxt, 3) == c1
            && NewCur(g, live, lvl, c1, nxt, 5) == c1 && Fanout(g, live, lvl, c1, nxt, wl, 5) == wl
            && NewCur(g, live, lvl, c1, nxt, 1) == c1[1 := true]
  {
    var c1 := Clear(6)[3 := true];
    ChainNotTarget(Clear(6), 3);
    ChainNotTarget(c1, 5);
    ChainNotTarget(c1, 1);
  }

  /**
   * Draining by rank then updates OR 2 (true, queueing 3), negation 3 (back
   * to false, queueing 4 again) and OR 4, which stays false and queues
   * nothing.  Negation 5 then holds false although the OR it reads stores
   * false.
   */
  lemma StaleDraining(wl: Worklist)
    ensures var g, live, lvl, nxt := Chain(), ChainLive, ChainLevels, Clear(6);
            var c3 := Clear(6)[3 := true][1 := true];
            var c4 := c3[2 := true];
            var c5 := c4[3 := false];
            Evaluable(g, live, lvl, c5, nxt)
            && NewCur(g, live, lvl, c3, nxt, 2) == c4
            && NewCur(g, live, lvl, c4, nxt, 3) == c5
            && NewCur(g, live, lvl, c5, nxt, 4) == c5 && Fanout(g, live, lvl, c5, nxt, wl, 4) == wl
            && !Consistent(g, live, lvl, c5, nxt, 5)
  {
    var c3 := Clear(6)[3 := true][1 := true];
    ChainOrTarget(c3, 2);
    ChainNotTarget(c3[2 := true], 3);
    ChainOrTarget(c3[2 := true][3 := false], 4);
  }

  /**
   * The whole run of the source's first propagation on the chain, over
   * topological ranks and without any AND gate, ending with negation 5
   * inconsistent.
   */
  lemma InitialPropagateStale(wl: Worklist)
    ensures Topological(Chain(), ChainLive)
    ensures var g, live, lvl, nxt := Chain(), ChainLive, ChainLevels, Clear(6);
            var c1 := Clear(6)[3 := true];
            var c3 := c1[1 := true];
            var c4 := c3[2 := true];
            var c5 := c4[3 := false];
            Evaluable(g, live, lvl, c5, nxt)
            && NewCur(g, live, lvl, Clear(6), nxt, 3) == c1
            && NewCur(g, live, lvl, c1, nxt, 5) == c1 && Fanout(g, live, lvl, c1, nxt, wl, 5) == wl
            && NewCur(g, live, lvl, c1, nxt, 1) == c3
            && NewCur(g, live, lvl, c3, nxt, 2) == c4
            && NewCur(g, live, lvl, c4, nxt, 3) == c5
            && NewCur(g, live, lvl, c5, nxt, 4) == c5 && Fanout(g, live, lvl, c5, nxt, wl, 4) == wl
            && !Consistent(g, live, lvl, c5, nxt, 5)
  {
    ChainWired();
    StaleSeeding(wl);
    StaleDraining(wl);
  }

  /** Updating a negation or a constant writes its own slot only, and a constant writes its value. */
  lemma PrimedStep(g: Graph, live: set<nat>, lvl: seq<nat>, cur: seq<bool>, nxt: seq<bool>, done: set<nat>, h: nat)
    requires Evaluable(g, live, lvl, cur, nxt) && SlotsDistinct(g, live) && h in live
    requires g.kind[h] == Not || g.kind[h].Constant?
    requires Primed(g, live, done, cur)
    ensures Primed(g, live, done + {h}, NewCur(g, live, lvl, cur, nxt, h))
  {
    var cur' := NewCur(g, live, lvl, cur, nxt, h);
    if g.kind[h].Constant? {
      assert Target(g, live, lvl, cur, nxt, h) == g.kind[h].value;
    }
    forall x | x in live && x != h
      ensures cur'[g.index[x]] == cur[g.index[x]]
    {
      assert g.index[x] != g.index[h];
    }
  }

  /** An update queues live components under their own ranks only. */
  lemma FanoutKeyed(g: Graph, live: set<nat>, lvl: seq<nat>, cur: seq<bool>, nxt: seq<bool>, wl: Worklist, h: nat)
    requires Evaluable(g, live, lvl, cur, nxt) && h in live && Keyed(g, live, wl)
    ensures Keyed(g, live, Fanout(g, live, lvl, cur, nxt, wl, h))
  {
    AddAllKeyed(g, live, wl, g.outputs[h]);
  }

  /** The shape facts depend on kinds and edges, not on slots or ranks. */
  lemma WiredFrame(g: Graph, g': Graph, live: set<nat>, lvl: seq<nat>)
    requires Shaped(g') && g'.kind == g.kind && g'.inputs == g.inputs && g'.outputs == g.outputs
    requires Wired(g, live, lvl)
    ensures Wired(g', live, lvl)
  {
    SymmetricFrame(g, g', live);
  }

  /** What the construction passes hand to the network. */
  datatype Parts = Parts(comps: set<nat>, props: set<nat>, base: map<Sentence, nat>, inputs: map<Sentence, nat>,
                         legal: map<Role, set<nat>>, goal: map<Role, set<nat>>, init: Option<nat>, terminal: Option<nat>,
                         lim: map<nat, nat>, counter: nat, idx: map<nat, nat>, roots: seq<nat>, order: seq<nat>)

  /**
   * What the construction passes leave: pruning's outcome on `g1`,
   * numbering's on `g2` (which differs from `g1` only in slots), the filing
   * of `g2`'s propositions, and the ranks of `g` (which differs from `g2`
   * only in ranks).
   */
  ghost predicate Assembled(g0: Graph, g1: Graph, g2: Graph, g: Graph, live: set<nat>, lvl: seq<nat>, p: Parts)
  {
    Pruned(g0, g1, live, lvl, p.comps)
    && g2 == g1.(index := g2.index) && g == g2.(topo := g.topo)
    && Shaped(g2) && InRange(g2) && Handles(g2, p.comps)
    && Indexing(g2, p.comps, p.props, p.base, p.inputs, p.counter, p.idx)
    && Handles(g2, p.props)
    && Filing(g2, p.props, p.inputs, p.legal, p.goal, p.init, p.terminal, p.lim)
    && Shaped(g) && InRange(g) && Handles(g, p.comps) && Ranked(g, p.comps, p.roots, true, p.order)
  }

  /** What the network's queries need of the assembled parts. */
  ghost predicate Usable(g: Graph, lvl: seq<nat>, p: Parts)
  {
    Wired(g, p.comps, lvl) && SlotsDistinct(g, p.comps) && Slotted(g, p.comps, p.counter)
    && Indexed(g, p.comps, p.idx, p.counter)
    && NextOnBases(g, p.comps, Clear(p.counter))
    && (forall s :: s in p.inputs ==> p.inputs[s] in p.comps)
    && (p.init.Some? ==> p.init.value in p.comps)
    && (p.terminal.Some? ==> p.terminal.value in p.comps)
    && RecordedIn(g, p.comps, p.counter, p.init, p.terminal, p.legal, p.goal)
  }

  /**
   * Runs the construction passes in order over the arena, ranking with the
   * corrected walk so that the ranks come out topological.
   */
  method Build(a: Arena, live: set<nat>, ghost lvl: seq<nat>) returns (p: Parts, ghost g1: Graph, ghost g2: Graph)
    requires a.Valid() && Wired(a.g, live, lvl)
    requires NamesUnique(a.g, live) && BaseNotInput(a.g, live)
    requires RolesNamed(a.g, live, "legal") && RolesNamed(a.g, live, "goal")
    modifies a
    ensures a.Valid() && Assembled(old(a.g), g1, g2, a.g, live, lvl, p) && Usable(a.g, lvl, p)
    ensures Topological(a.g, p.comps)
  {
    ghost var g0 := a.g;
    var comps := PruneComponents(a, live, lvl);
    g1 := a.g;
    var props, base, inputs, counter, idx := NumberComponents(a, comps);
    g2 := a.g;
    RolesNamedPart(g0, g2, live, props, "legal");
    RolesNamedPart(g0, g2, live, props, "goal");
    var legal, goal, init, terminal, lim := FilePropositions(a.g, props, inputs);
    WiredFrame(g1, a.g, comps, lvl);
    var roots, order := RankTopologically(a, comps, lvl);
    WiredFrame(g1, a.g, comps, lvl);
    BuiltSlots(g2, a.g, comps, counter, idx, lvl);
    BuiltRecorded(g2, a.g, comps, props, inputs, legal, goal, init, terminal, lim, counter, idx);
    p := Parts(comps, props, base, inputs, legal, goal, init, terminal, lim, counter, idx, roots, order);
  }

  /** Numbered slots are distinct, below the counter, and named back by the slot map. */
  lemma BuiltSlots(g: Graph, g': Graph, comps: set<nat>, counter: nat, idx: map<nat, nat>, lvl: seq<nat>)
    requires Shaped(g) && Numbered(g, comps, counter, idx)
    requires Wired(g', comps, lvl) && g'.index == g.index
    ensures SlotsDistinct(g', comps) && Slotted(g', comps, counter) && Indexed(g', comps, idx, counter)
  {
  }

  /** Filed propositions are numbered live propositions. */
  lemma BuiltRecorded(g: Graph, g': Graph, comps: set<nat>, props: set<nat>, inputs: map<Sentence, nat>,
                      legal: map<Role, set<nat>>, goal: map<Role, set<nat>>, init: Option<nat>, terminal: Option<nat>,
                      lim: map<nat, nat>, counter: nat, idx: map<nat, nat>)
    requires Shaped(g) && InRange(g) && Handles(g, comps) && props <= comps && Numbered(g, comps, counter, idx)
    requires Filing(g, props, inputs, legal, goal, init, terminal, lim)
    requires Shaped(g') && g'.kind == g.kind && g'.index == g.index
    ensures RecordedIn(g', comps, counter, init, terminal, legal, goal)
  {
    forall r | r in legal ensures RecordedAll(g', comps, counter, legal[r]) {
      assert legal[r] == Playing(g, props, "legal", r);
    }
    forall r | r in goal ensures RecordedAll(g', comps, counter, goal[r]) {
      assert goal[r] == Playing(g, props, "goal", r);
    }
  }

  /** The roles are named in any part of the components. */
  lemma RolesNamedPart(g: Graph, g': Graph, live: set<nat>, props: set<nat>, rel: string)
    requires Shaped(g) && Handles(g, live) && RolesNamed(g, live, rel)
    requires Shaped(g') && g'.kind == g.kind && props <= live
    ensures Handles(g', props) && RolesNamed(g', props, rel)
  {
  }

  /**
   * The network's construction in full: runs the construction passes, then
   * starts the network over what they leave.  With the corrected ranking and
   * first propagation the network is settled for the first query.
   */
  method Create(roles: seq<Role>, a: Arena, live: set<nat>, ghost lvl: seq<nat>)
      returns (net: PropNet, p: Parts, ghost g1: Graph, ghost g2: Graph)
    requires a.Valid() && Wired(a.g, live, lvl)
    requires NamesUnique(a.g, live) && BaseNotInput(a.g, live)
    requires RolesNamed(a.g, live, "legal") && RolesNamed(a.g, live, "goal")
    modifies a
    ensures fresh(net) && net.arena == a && net.roles == roles && net.lvl == lvl && net.Holds(p)
    ensures net.Ready() && net.Recorded() && net.currentState == net.compState
    ensures Assembled(old(a.g), g1, g2, a.g, live, lvl, p) && Topological(a.g, net.components)
    ensures Primed(a.g, net.components, net.components, net.pristine[..])
    ensures net.Settled()
  {
    p, g1, g2 := Build(a, live, lvl);
    net := Start(roles, a, p, lvl);
  }

  /** Builds the network over the parts, then runs the corrected first propagation. */
  method Start(roles: seq<Role>, a: Arena, p: Parts, ghost lvl: seq<nat>) returns (net: PropNet)
    requires a.Valid() && Usable(a.g, lvl, p)
    ensures fresh(net) && net.arena == a && net.roles == roles && net.lvl == lvl && net.Holds(p)
    ensures net.Ready() && net.Recorded() && net.currentState == net.compState
    ensures Primed(a.g, net.components, net.components, net.pristine[..])
    ensures Topological(a.g, net.components) ==> net.Settled()
  {
    net := new PropNet(roles, a, p, lvl);
    net.InitialPropagateSeeded();
    if Topological(a.g, net.components) {
      ConsistentTracks(a.g, net.components, lvl, net.compState[..], net.nextState[..]);
    }
  }

  class PropNet {
    const arena: Arena
    var components: set<nat>
    var propositions: set<nat>
    var basePropositions: map<Sentence, nat>
    var inputPropositions: map<Sentence, nat>
    var legalPropositions: map<Role, set<nat>>
    var goalPropositions: map<Role, set<nat>>
    var initProposition: Option<nat>
    var terminalProposition: Option<nat>
    var legalInputMap: map<nat, nat>
    const roles: seq<Role>
    var compcounter: nat
    var idxComps: map<nat, nat>
    var topologicalOrdering: seq<nat>
    /** The current vector the components were handed. */
    const compState: array<bool>
    /** The most recently forced target (at first the components' vector itself). */
    var currentState: array<bool>
    const nextState: array<bool>
    var pristine: array<bool>
    /** Levels witnessing that every cycle passes through a transition. */
    ghost var lvl: seq<nat>

    /**
     * Takes over what the construction passes left: the components, the
     * propositions filed by kind, the slots and the ranks.  The vectors start
     * cleared and the current one is the components' own.
     */
    constructor (roles: seq<Role>, a: Arena, p: Parts, ghost lvl0: seq<nat>)
      requires a.Valid() && Usable(a.g, lvl0, p)
      ensures Ready() && Recorded() && arena == a && this.roles == roles && lvl == lvl0 && Holds(p)
      ensures compState.Length == p.counter && currentState == compState && compState[..] == Clear(p.counter)
      ensures fresh(compState) && fresh(nextState)
    {
      arena := a;
      this.roles := roles;
      components := p.comps;
      propositions := p.props;
      basePropositions := p.base;
      inputPropositions := p.inputs;
      legalPropositions := p.legal;
      goalPropositions := p.goal;
      initProposition := p.init;
      terminalProposition := p.terminal;
      legalInputMap := p.lim;
      compcounter := p.counter;
      idxComps := p.idx;
      topologicalOrdering := p.order;
      var cur := new bool[p.counter](_ => false);
      compState := cur;
      currentState := cur;
      nextState := new bool[p.counter](_ => false);
      pristine := new bool[p.counter];
      lvl := lvl0;
      assert cur[..] == Clear(p.counter);
      new;
    }

    /** The network's components, filed propositions, slots and ranks are the parts'. */
    ghost predicate Holds(p: Parts)
      reads this`components, this`propositions, this`basePropositions, this`inputPropositions,
            this`legalPropositions, this`goalPropositions, this`initProposition, this`terminalProposition,
            this`legalInputMap, this`compcounter, this`idxComps, this`topologicalOrdering
    {
      components == p.comps && propositions == p.props && basePropositions == p.base
      && inputPropositions == p.inputs && legalPropositions == p.legal && goalPropositions == p.goal
      && initProposition == p.init && terminalProposition == p.terminal && legalInputMap == p.lim
      && compcounter == p.counter && idxComps == p.idx && topologicalOrdering == p.order
    }

    /** What answering queries needs of the network's shape and vectors. */
    ghost predicate Ready()
      reads this, arena, nextState
    {
      var g := arena.g;
      var n := compState.Length;
      Wired(g, components, lvl) && SlotsDistinct(g, components) && Slotted(g, components, n)
      && nextState.Length == n && currentState.Length == n && pristine.Length == n
      && compState != nextState && currentState != nextState
      && pristine != nextState && pristine != compState && pristine != currentState
      && Indexed(g, components, idxComps, n)
      && NextOnBases(g, components, nextState[..])
      && (forall s :: s in inputPropositions ==> inputPropositions[s] in components)
      && (initProposition.Some? ==> initProposition.value in components)
      && (terminalProposition.Some? ==> terminalProposition.value in components)
    }

    /** The recorded propositions are live propositions. */
    ghost predicate Recorded()
      reads this, arena
    {
      RecordedIn(arena.g, components, compState.Length, initProposition, terminalProposition, legalPropositions, goalPropositions)
    }

    /**
     * Every component holds its gate function of what its inputs store, and
     * every given proposition's explicit value is its bit of the forced target.
     */
    ghost predicate Settled()
      reads this, arena, compState, currentState, nextState
      requires Ready()
    {
      AllConsistent(arena.g, components, lvl, compState[..], nextState[..])
      && ValuesTrack(arena.g, components, currentState[..])
    }

    /**
     * The first updates: every negation and constant takes its value, the
     * others keep their cleared slots, and the components those updates
     * feed are queued.
     */
    method UpdateSources() returns (wl: Worklist)
      requires Ready() && compState[..] == Clear(compState.Length)
      modifies compState, nextState
      ensures Ready() && nextState[..] == old(nextState[..])
      ensures Keyed(arena.g, components, wl)
      ensures Primed(arena.g, components, components, compState[..])
    {
      var g := arena.g;
      var live := components;
      wl := map[];
      var todo := live;
      ghost var done: set<nat> := {};
      while todo != {}
        invariant todo <= live && done <= live && forall h :: h in live ==> h in done || h in todo
        invariant nextState[..] == old(nextState[..]) && Ready()
        invariant Keyed(g, live, wl)
        invariant Primed(g, live, done, compState[..])
      {
        var h :| h in todo;
        if g.kind[h] == Not || g.kind[h].Constant? {
          PrimedStep(g, live, lvl, compState[..], nextState[..], done, h);
          FanoutKeyed(g, live, lvl, compState[..], nextState[..], wl, h);
          wl := Update(arena, live, lvl, compState, nextState, wl, h);
        }
        done := done + {h};
        todo := todo - {h};
      }
    }

    /**
     * The updates of the negations and constants over the all-false vector,
     * after which the vector is kept as the pristine one; the worklist those
     * updates filled is returned.
     */
    method KeepSources() returns (wl: Worklist)
      requires Ready() && compState[..] == Clear(compState.Length)
      modifies this`pristine, compState, nextState
      ensures Ready() && fresh(pristine) && currentState == old(currentState)
      ensures old(Recorded()) ==> Recorded()
      ensures Keyed(arena.g, components, wl)
      ensures Primed(arena.g, components, components, pristine[..])
    {
      wl := UpdateSources();
      pristine := new bool[compState.Length];
      forall i | 0 <= i < compState.Length {
        pristine[i] := compState[i];
      }
      assert pristine[..] == compState[..];
    }

    /**
     * The first propagation over the all-false vector: every negation and
     * constant is updated, the vector is then kept as the pristine one, and
     * only after that is the worklist those updates filled drained.
     */
    method InitialPropagate()
      requires Ready() && compState[..] == Clear(compState.Length)
      modifies this`pristine, compState, nextState
      ensures Ready() && fresh(pristine) && currentState == old(currentState)
      ensures old(Recorded()) ==> Recorded()
      ensures Primed(arena.g, components, components, pristine[..])
    {
      var wl := KeepSources();
      ForwardProp(wl);
    }

    /**
     * The first propagation, corrected: every negation and constant is
     * updated and the vector kept as the pristine one as before, but then
     * every live component is queued, not only those the first updates feed.
     * With topological ranks every component is consistent afterwards.
     */
    method InitialPropagateSeeded()
      requires Ready() && compState[..] == Clear(compState.Length)
      modifies this`pristine, compState, nextState
      ensures Ready() && fresh(pristine) && currentState == old(currentState)
      ensures old(Recorded()) ==> Recorded()
      ensures Primed(arena.g, components, components, pristine[..])
      ensures Topological(arena.g, components) ==> AllConsistent(arena.g, components, lvl, compState[..], nextState[..])
    {
      var _ := KeepSources();
      var wl := SeedAll(arena.g, components);
      ForwardProp(wl);
    }

    /**
     * Forces a target and seeds the worklist with the components whose slots
     * it changes.  The previous target is the comparison point, and the new
     * target becomes the current one.
     */
    method MarkThings(bits: set<nat>, moves: seq<Sentence>, markInit: bool) returns (wl: Worklist)
      requires Ready()
      requires forall i :: i in bits ==> i < compState.Length
      requires markInit ==> initProposition.Some?
      modifies this`currentState, arena
      ensures fresh(currentState) && Ready()
      ensures arena.g == old(arena.g).(value := arena.g.value) && |arena.g.value| == |old(arena.g.value)|
      ensures currentState[..] == Forced(pristine[..], bits, old(MoveSlots(arena.g, inputPropositions, moves)
                                           + (if markInit then {arena.g.index[initProposition.value]} else {})))
      ensures Keyed(arena.g, components, wl)
      ensures old(ValuesTrack(arena.g, components, currentState[..])) ==> ValuesTrack(arena.g, components, currentState[..])
      ensures Topological(arena.g, components) && old(Settled())
              ==> Pending(arena.g, components, lvl, compState[..], nextState[..], wl)
      ensures old(currentState[..]) == currentState[..] ==> wl == map[] && arena.g == old(arena.g)
    {
      var extra := if markInit then Some(arena.g.index[initProposition.value]) else None;
      var target := BuildTarget(arena.g, pristine, inputPropositions, bits, moves, extra);
      var prev := currentState;
      ghost var g0 := arena.g;
      wl := MarkDiffering(arena, components, lvl, idxComps, prev, target, compState[..], nextState[..]);
      currentState := target;
      ShapeValueFrame(g0, arena.g, components, lvl, compState.Length, idxComps, nextState[..]);
    }

    /**
     * Drains the worklist, lowest rank first, updating each component taken.
     * When ranks are topological and every live component was queued or
     * consistent, every component is consistent afterwards.
     */
    method ForwardProp(wl0: Worklist)
      requires Ready() && Keyed(arena.g, components, wl0)
      modifies compState, nextState
      ensures Ready()
      ensures Topological(arena.g, components)
              && old(Pending(arena.g, components, lvl, compState[..], nextState[..], wl0))
              ==> AllConsistent(arena.g, components, lvl, compState[..], nextState[..])
      ensures wl0 == map[] ==> compState[..] == old(compState[..]) && nextState[..] == old(nextState[..])
    {
      var g := arena.g;
      var live := components;
      ghost var start := Topological(g, live) && Pending(g, live, lvl, compState[..], nextState[..], wl0);
      var wl := wl0;
      while wl != map[]
        invariant Keyed(g, live, wl)
        invariant Evaluable(g, live, lvl, compState[..], nextState[..])
        invariant NextOnBases(g, live, nextState[..])
        invariant start ==> Pending(g, live, lvl, compState[..], nextState[..], wl)
        invariant wl0 == map[] ==> wl == map[] && compState[..] == old(compState[..]) && nextState[..] == old(nextState[..])
        decreases Potential(WeightTable(g, live, lvl), wl)
      {
        var k := First(wl);
        var c := wl[k];
        ghost var cur := compState[..];
        ghost var nxt := nextState[..];
        PotentialStep(g, live, lvl, wl, k, cur[g.index[c]] != Target(g, live, lvl, cur, nxt, c));
        if start {
          DrainStep(g, live, lvl, cur, nxt, wl, k);
        }
        NextOnBasesUpdate(g, live, lvl, cur, nxt, c);
        ghost var w := WeightTable(g, live, lvl);
        ghost var before := Potential(w, wl);
        wl := Update(arena, live, lvl, compState, nextState, wl - {k}, c);
        assert Potential(w, wl) < before;
      }
    }

    /**
     * Forces the state's bits, the moves' input slots and optionally the
     * init slot, then drains.  When ranks are topological and the network
     * was settled, it is settled on the new target afterwards.
     */
    method ForceAndDrain(bits: set<nat>, moves: seq<Sentence>, markInit: bool)
      requires Ready()
      requires forall i :: i in bits ==> i < compState.Length
      requires markInit ==> initProposition.Some?
      modifies this`currentState, arena, compState, nextState
      ensures Ready()
      ensures arena.g == old(arena.g).(value := arena.g.value) && |arena.g.value| == |old(arena.g.value)|
      ensures currentState[..] == Forced(pristine[..], bits, old(MoveSlots(arena.g, inputPropositions, moves)
                                           + (if markInit then {arena.g.index[initProposition.value]} else {})))
      ensures Topological(arena.g, components) && old(Settled()) ==> Settled()
      ensures old(Recorded()) ==> Recorded()
      ensures old(currentState[..]) == currentState[..]
              ==> arena.g == old(arena.g) && compState[..] == old(compState[..]) && nextState[..] == old(nextState[..])
    {
      ghost var g0 := arena.g;
      ghost var recorded := Recorded();
      var wl := MarkThings(bits, moves, markInit);
      if recorded {
        RecordedValueFrame(g0, arena.g, components, compState.Length, initProposition, terminalProposition, legalPropositions, goalPropositions);
      }
      ForwardProp(wl);
    }

    /**
     * Forces a state with no moves and drains, as every query but the
     * successor does.  Forcing the target already current changes nothing.
     */
    method ForceState(bits: set<nat>)
      requires Ready() && Recorded()
      requires forall i :: i in bits ==> i < compState.Length
      modifies this`currentState, arena, compState, nextState
      ensures Ready() && Recorded()
      ensures currentState[..] == Forced(pristine[..], bits, {})
      ensures Topological(arena.g, components) == old(Topological(arena.g, components))
      ensures old(Topological(arena.g, components) && Settled()) ==> Settled()
      ensures old(currentState[..]) == currentState[..]
              ==> arena.g == old(arena.g) && compState[..] == old(compState[..]) && nextState[..] == old(nextState[..])
    {
      ghost var g0 := arena.g;
      assert MoveSlots(arena.g, inputPropositions, []) == {};
      ForceAndDrain(bits, [], false);
      ShapeValueFrame(g0, arena.g, components, lvl, compState.Length, idxComps, old(nextState[..]));
    }

    /** A snapshot of the next vector: only base propositions' slots can be set. */
    method GetStateFromBase() returns (s: MachineState)
      requires Ready()
      ensures fresh(s) && s.bits == BitsOf(nextState[..]) && !s.cacheActive
      ensures forall i :: i in s.bits ==> i in BaseSlots(arena.g, components)
    {
      s := new MachineState(BitsOf(nextState[..]));
    }

    /**
     * The initial state: forces only the init slot over the pristine vector,
     * drains, and snapshots the next vector.
     */
    method MarkInit() returns (s: MachineState)
      requires Ready() && initProposition.Some?
      modifies this`currentState, arena, compState, nextState
      ensures Ready() && initProposition.value < |arena.g.index|
      ensures fresh(s) && s.bits == BitsOf(nextState[..])
      ensures currentState[..] == Forced(pristine[..], {}, {arena.g.index[initProposition.value]})
      ensures Topological(arena.g, components) && old(Settled())
              ==> Settled() && NextIsEval(arena.g, components, lvl, currentState[..], s.bits)
    {
      ghost var slot := arena.g.index[initProposition.value];
      assert MoveSlots(arena.g, inputPropositions, []) == {};
      ForceAndDrain({}, [], true);
      assert arena.g.index == old(arena.g.index);
      assert currentState[..] == Forced(pristine[..], {}, {slot});
      s := GetStateFromBase();
      if Topological(arena.g, components) && old(Settled()) {
        NextStateIsEval(arena.g, components, lvl, currentState[..], compState[..], nextState[..]);
      }
    }

    /** The bookkeeping of propositions the network keeps. */
    function Ledger(): (b: Books)
      reads this`propositions, this`basePropositions, this`inputPropositions,
            this`legalPropositions, this`goalPropositions, this`legalInputMap
      ensures b.props == propositions && b.lim == legalInputMap
    {
      Books(propositions, basePropositions, inputPropositions, legalPropositions, goalPropositions, legalInputMap)
    }

    /**
     * Removes a live component.  The INIT and terminal propositions, unless
     * filed as base or input, are refused and nothing changes.  Otherwise the
     * component leaves the books as `Strike` says and leaves the live
     * components, and its neighbours drop their edges to it.  Slots, ranks
     * and the init and terminal propositions are left as they were.
     */
    method RemoveComponent(c: nat) returns (removed: bool)
      requires arena.Valid() && Closed(arena.g, components) && Symmetric(arena.g, components) && c in components
      modifies this`propositions, this`basePropositions, this`inputPropositions, this`legalPropositions,
               this`goalPropositions, this`legalInputMap, this`components, arena
      ensures removed <==> !Protected(old(arena.g), old(Ledger()), c)
      ensures !removed ==> unchanged(this) && arena.g == old(arena.g)
      ensures removed ==> Ledger() == Strike(old(arena.g), old(Ledger()), c)
      ensures removed ==> components == old(components) - {c} && Unlinked(old(arena.g), arena.g, c)
    {
      var live := components;
      var g := arena.g;
      var b;
      removed, b := StrikeBooks(g, Ledger(), c);
      if !removed {
        return;
      }
      propositions, basePropositions, inputPropositions := b.props, b.base, b.inputs;
      legalPropositions, goalPropositions, legalInputMap := b.legal, b.goal, b.lim;
      components := live - {c};
      Unlink(arena, live, c);
    }
  }
}
