/**
 * The indices a network records over its propositions when it is built:
 * the propositions themselves, the slots of the bit vectors (base
 * propositions first, then input propositions, then every other
 * proposition, then every other component), the legal and goal
 * propositions by role, the init and terminal propositions, and the pairing
 * of input propositions with legal propositions.
 */
module Recording {
  import opened Gdl
  import opened Components
  import opened Propositions

  /** Which distinguished proposition a search looks for. */
  datatype Wanted = InitName | TerminalName

  predicate Names(w: Wanted, s: Sentence)
  {
    match w
    case InitName => IsInitName(s)
    case TerminalName => IsTerminalName(s)
  }

  /**
   * Looks through the components for a proposition with the wanted name and
   * returns the first one met; with none, returns nothing.
   */
  method FindProposition(g: Graph, among: set<nat>, w: Wanted) returns (r: Option<nat>)
    requires Shaped(g) && forall h :: h in among ==> h < |g.kind|
    ensures r.Some? ==> r.value in among && g.kind[r.value].Proposition? && Names(w, g.kind[r.value].name)
    ensures r.None? <==> forall h :: h in among && g.kind[h].Proposition? ==> !Names(w, g.kind[h].name)
  {
    var todo := among;
    while todo != {}
      invariant todo <= among
      invariant forall h :: h in among - todo && g.kind[h].Proposition? ==> !Names(w, g.kind[h].name)
    {
      var h :| h in todo;
      if g.kind[h].Proposition? && Names(w, g.kind[h].name) {
        return Some(h);
      }
      todo := todo - {h};
    }
    return None;
  }

  // ---------------------------------------------------------------------------
  // What the factory guarantees of the components it hands over.
  // ---------------------------------------------------------------------------

  /** Live handles name arena components. */
  predicate Handles(g: Graph, live: set<nat>)
  {
    forall h :: h in live ==> h < |g.kind|
  }

  /** No two live propositions carry the same sentence. */
  predicate NamesUnique(g: Graph, live: set<nat>)
    requires Handles(g, live)
  {
    forall p, q :: p in live && q in live && g.kind[p].Proposition? && g.kind[p] == g.kind[q] ==> p == q
  }

  /** The propositions among the live components. */
  method RecordPropositions(g: Graph, live: set<nat>) returns (props: set<nat>)
    requires Handles(g, live)
    ensures props == set h | h in live && g.kind[h].Proposition?
  {
    props := {};
    var todo := live;
    while todo != {}
      invariant todo <= live
      invariant props == set h | h in live - todo && g.kind[h].Proposition?
    {
      var h :| h in todo;
      if g.kind[h].Proposition? {
        props := props + {h};
      }
      todo := todo - {h};
    }
  }

  // ---------------------------------------------------------------------------
  // Slots of the bit vectors.
  // ---------------------------------------------------------------------------

  /**
   * Every component of `done` has a slot below `counter`, no two share a
   * slot, and `idx` maps every slot below `counter` back to its component.
   */
  predicate Numbered(g: Graph, done: set<nat>, counter: nat, idx: map<nat, nat>)
    requires Shaped(g)
  {
    (forall h :: h in done ==> h < |g.kind| && g.index[h] < counter)
    && (forall h1, h2 :: h1 in done && h2 in done && g.index[h1] == g.index[h2] ==> h1 == h2)
    && (forall i :: 0 <= i < counter ==> i in idx && idx[i] in done && g.index[idx[i]] == i)
  }

  /** Giving a fresh component the next slot keeps the numbering. */
  lemma NumberStep(g: Graph, g': Graph, done: set<nat>, counter: nat, idx: map<nat, nat>, h: nat)
    requires Shaped(g) && Numbered(g, done, counter, idx) && h < |g.kind| && h !in done
    requires g' == g.(index := g.index[h := counter])
    ensures Numbered(g', done + {h}, counter + 1, idx[counter := h])
  {
    forall i | 0 <= i < counter
      ensures idx[i] != h
    {
    }
  }

  /** Which components a numbering pass gives slots to. */
  datatype Selector =
    | BaseProps
    | InputProps
    | OtherProps(base: map<Sentence, nat>, inputs: map<Sentence, nat>)
    | NonProps

  predicate Selected(g: Graph, sel: Selector, h: nat)
    requires Shaped(g) && InRange(g) && h < |g.kind|
  {
    match sel
    case BaseProps => g.kind[h].Proposition? && IsBase(g, h)
    case InputProps => IsInput(g, h)
    case OtherProps(base, inputs) => g.kind[h].Proposition? && h !in base.Values && h !in inputs.Values
    case NonProps => !g.kind[h].Proposition?
  }

  /** The components of `among` a selector picks. */
  function Picks(g: Graph, sel: Selector, among: set<nat>): (s: set<nat>)
    requires Shaped(g) && InRange(g) && Handles(g, among)
    ensures forall h :: h in s <==> h in among && Selected(g, sel, h)
  {
    set h | h in among && Selected(g, sel, h)
  }

  /** Slots outside `picked` are as they were in `g0`. */
  predicate SlotsKept(g0: Graph, g: Graph, picked: set<nat>)
    requires Shaped(g0) && Shaped(g) && |g.kind| == |g0.kind|
  {
    forall h :: 0 <= h < |g.kind| && h !in picked ==> g.index[h] == g0.index[h]
  }

  /** `names` records exactly the picked propositions, each under its sentence. */
  predicate NamesPicked(g: Graph, picked: set<nat>, names: map<Sentence, nat>)
    requires Shaped(g) && Handles(g, picked)
  {
    (forall s :: s in names ==> names[s] in picked && g.kind[names[s]] == Proposition(s))
    && (forall h :: h in picked && g.kind[h].Proposition? ==> g.kind[h].name in names)
  }

  /** The picked components have slots from `counter0` on. */
  predicate SlotsFrom(g: Graph, picked: set<nat>, counter0: nat)
    requires Shaped(g) && Handles(g, picked)
  {
    forall h :: h in picked ==> counter0 <= g.index[h]
  }

  /** The components of `s` have slots from `lo` up to but excluding `hi`. */
  predicate Ranged(g: Graph, s: set<nat>, lo: nat, hi: nat)
    requires Shaped(g) && Handles(g, s)
  {
    forall h :: h in s ==> lo <= g.index[h] < hi
  }

  lemma RangedKept(g: Graph, g': Graph, s: set<nat>, lo: nat, hi: nat)
    requires Shaped(g) && Shaped(g') && |g'.kind| == |g.kind| && Handles(g, s) && Ranged(g, s, lo, hi)
    requires forall h :: h in s && h < |g.kind| ==> g'.index[h] == g.index[h]
    ensures Ranged(g', s, lo, hi)
  {
  }

  /** The slot-keeping part of a numbering pass's loop, once `picked` have been numbered. */
  ghost predicate Numbering(g0: Graph, g: Graph, picked: set<nat>, done: set<nat>,
                            counter0: nat, counter: nat, idx: map<nat, nat>, names: map<Sentence, nat>)
    requires Shaped(g0) && Handles(g0, picked)
  {
    Shaped(g) && InRange(g) && g == g0.(index := g.index)
    && counter0 <= counter && SlotsFrom(g, picked, counter0)
    && Numbered(g, done + picked, counter, idx)
    && SlotsKept(g0, g, picked)
    && NamesPicked(g, picked, names)
  }

  /** Numbering a fresh component keeps the loop's facts. */
  lemma NumberingPick(g0: Graph, g: Graph, picked: set<nat>, done: set<nat>,
                      counter0: nat, counter: nat, idx: map<nat, nat>, names: map<Sentence, nat>, h: nat)
    requires Shaped(g0) && Handles(g0, picked) && h < |g0.kind| && h !in picked && h !in done
    requires Numbering(g0, g, picked, done, counter0, counter, idx, names)
    ensures Numbering(g0, g.(index := g.index[h := counter]), picked + {h}, done, counter0, counter + 1, idx[counter := h],
                      if g0.kind[h].Proposition? then names[g0.kind[h].name := h] else names)
  {
    var g' := g.(index := g.index[h := counter]);
    assert g'.kind == g0.kind && g'.inputs == g0.inputs && g'.outputs == g0.outputs;
    assert Shaped(g') && InRange(g') && g' == g0.(index := g'.index);
    NumberStep(g, g', done + picked, counter, idx, h);
    assert done + picked + {h} == done + (picked + {h});
    KeptAfterPick(g0, g, picked, h, counter);
    FromAfterPick(g, picked, h, counter0, counter);
    NamesAfterPick(g, picked, names, h, counter);
  }

  lemma KeptAfterPick(g0: Graph, g: Graph, picked: set<nat>, h: nat, counter: nat)
    requires Shaped(g0) && Shaped(g) && |g.kind| == |g0.kind| && h < |g.kind|
    requires SlotsKept(g0, g, picked)
    ensures SlotsKept(g0, g.(index := g.index[h := counter]), picked + {h})
  {
  }

  lemma FromAfterPick(g: Graph, picked: set<nat>, h: nat, counter0: nat, counter: nat)
    requires Shaped(g) && Handles(g, picked) && h < |g.kind| && counter0 <= counter
    requires SlotsFrom(g, picked, counter0)
    ensures SlotsFrom(g.(index := g.index[h := counter]), picked + {h}, counter0)
  {
  }

  lemma NamesAfterPick(g: Graph, picked: set<nat>, names: map<Sentence, nat>, h: nat, counter: nat)
    requires Shaped(g) && Handles(g, picked) && h < |g.kind|
    requires NamesPicked(g, picked, names)
    ensures NamesPicked(g.(index := g.index[h := counter]), picked + {h},
                        if g.kind[h].Proposition? then names[g.kind[h].name := h] else names)
  {
  }

  /** Taking one more component from `todo` picks it when the selector does. */
  lemma PicksStep(g: Graph, sel: Selector, among: set<nat>, todo: set<nat>, h: nat)
    requires Shaped(g) && InRange(g) && Handles(g, among) && todo <= among && h in todo
    ensures Picks(g, sel, among - (todo - {h})) == Picks(g, sel, among - todo) + (if Selected(g, sel, h) then {h} else {})
  {
  }

  /**
   * One numbering pass: every component of `among` the selector picks gets
   * the next slot, is recorded under that slot, and a picked proposition is
   * recorded under its sentence.  Nothing but slots changes.
   */
  method NumberWhere(a: Arena, sel: Selector, among: set<nat>, ghost done: set<nat>, counter: nat, idx: map<nat, nat>)
      returns (counter': nat, idx': map<nat, nat>, names: map<Sentence, nat>)
    requires a.Valid() && Handles(a.g, among) && Numbered(a.g, done, counter, idx)
    requires forall h :: h in among && Selected(a.g, sel, h) ==> h !in done
    modifies a
    ensures a.Valid() && a.g == old(a.g).(index := a.g.index)
    ensures Numbered(a.g, done + Picks(old(a.g), sel, among), counter', idx')
    ensures counter <= counter'
    ensures Ranged(a.g, Picks(old(a.g), sel, among), counter, counter')
    ensures forall h :: h in done && h < |a.g.kind| ==> a.g.index[h] == old(a.g.index[h])
    ensures forall h :: 0 <= h < |a.g.kind| && h !in Picks(old(a.g), sel, among) ==> a.g.index[h] == old(a.g.index[h])
    ensures forall s :: s in names ==> names[s] in Picks(old(a.g), sel, among) && a.g.kind[names[s]] == Proposition(s)
    ensures forall h :: h in Picks(old(a.g), sel, among) && a.g.kind[h].Proposition? ==> a.g.kind[h].name in names
  {
    ghost var g0 := a.g;
    var todo := among;
    ghost var picked := {};
    counter', idx', names := counter, idx, map[];
    assert done + {} == done;
    while todo != {}
      invariant todo <= among && picked == Picks(g0, sel, among - todo)
      invariant Numbering(g0, a.g, picked, done, counter, counter', idx', names)
    {
      var h :| h in todo;
      PicksStep(g0, sel, among, todo, h);
      if Selected(a.g, sel, h) {
        NumberingPick(g0, a.g, picked, done, counter, counter', idx', names, h);
        a.SetIndex(h, counter');
        if a.g.kind[h].Proposition? {
          names := names[a.g.kind[h].name := h];
        }
        idx' := idx'[counter' := h];
        counter' := counter' + 1;
        picked := picked + {h};
      }
      todo := todo - {h};
    }
    assert among - todo == among;
  }

  /** No live proposition is both a base and an input proposition. */
  predicate BaseNotInput(g: Graph, live: set<nat>)
    requires Shaped(g) && InRange(g) && Handles(g, live)
  {
    forall p :: p in live && g.kind[p].Proposition? && IsBase(g, p) ==> !IsInput(g, p)
  }

  /** The order in which the slots are handed out. */
  function Tier(g: Graph, h: nat): (t: nat)
    requires Shaped(g) && InRange(g) && h < |g.kind|
    ensures t < 4
    ensures t == 3 <==> !g.kind[h].Proposition?
  {
    if !g.kind[h].Proposition? then 3
    else if IsBase(g, h) then 0
    else if IsInput(g, h) then 1
    else 2
  }

  /** The picks of a pass depend on kinds and edges, not on slots. */
  lemma PicksIgnoreSlots(g: Graph, g': Graph, sel: Selector, among: set<nat>)
    requires Shaped(g) && InRange(g) && Handles(g, among) && g' == g.(index := g'.index) && |g'.index| == |g.index|
    ensures Shaped(g') && InRange(g') && Handles(g', among) && Picks(g', sel, among) == Picks(g, sel, among)
  {
    assert g'.kind == g.kind && g'.inputs == g.inputs;
  }

  /** A sentence map built by a pass names every picked proposition, and only picked ones, so it holds each of them. */
  lemma ValuesArePicks(g: Graph, live: set<nat>, sel: Selector, names: map<Sentence, nat>)
    requires Shaped(g) && InRange(g) && Handles(g, live) && NamesUnique(g, live)
    requires forall s :: s in names ==> names[s] in Picks(g, sel, live) && g.kind[names[s]] == Proposition(s)
    requires forall h :: h in Picks(g, sel, live) && g.kind[h].Proposition? ==> g.kind[h].name in names
    ensures forall h :: h in Picks(g, sel, live) && g.kind[h].Proposition? ==> names[g.kind[h].name] == h
    ensures forall h :: h in live && g.kind[h].Proposition? ==> (h in names.Values <==> h in Picks(g, sel, live))
  {
    forall h | h in live && g.kind[h].Proposition? && h in names.Values
      ensures h in Picks(g, sel, live)
    {
      var s :| s in names && names[s] == h;
    }
  }

  /** The live components of one tier. */
  function TierSet(g: Graph, live: set<nat>, k: nat): (s: set<nat>)
    requires Shaped(g) && InRange(g) && Handles(g, live)
    ensures forall h :: h in s <==> h in live && Tier(g, h) == k
  {
    set h | h in live && Tier(g, h) == k
  }

  /** Every live component is in exactly one tier. */
  lemma TiersCover(g: Graph, live: set<nat>)
    requires Shaped(g) && InRange(g) && Handles(g, live)
    ensures TierSet(g, live, 0) + TierSet(g, live, 1) + TierSet(g, live, 2) + TierSet(g, live, 3) == live
  {
  }

  /** The base and input passes pick the first two tiers. */
  lemma FirstTiers(g: Graph, live: set<nat>, props: set<nat>)
    requires Shaped(g) && InRange(g) && Handles(g, live) && props == set h | h in live && g.kind[h].Proposition?
    requires BaseNotInput(g, live)
    ensures Handles(g, props)
    ensures Picks(g, BaseProps, props) == TierSet(g, live, 0)
    ensures Picks(g, InputProps, props) == TierSet(g, live, 1)
  {
  }

  /** With unique names, the remaining-propositions pass picks the third tier and the last pass the fourth. */
  lemma LastTiers(g: Graph, live: set<nat>, props: set<nat>, base: map<Sentence, nat>, inputs: map<Sentence, nat>)
    requires Shaped(g) && InRange(g) && Handles(g, live) && props == set h | h in live && g.kind[h].Proposition?
    requires NamesUnique(g, live) && BaseNotInput(g, live)
    requires forall s :: s in base ==> base[s] in TierSet(g, live, 0) && g.kind[base[s]] == Proposition(s)
    requires forall h :: h in TierSet(g, live, 0) ==> g.kind[h].name in base
    requires forall s :: s in inputs ==> inputs[s] in TierSet(g, live, 1) && g.kind[inputs[s]] == Proposition(s)
    requires forall h :: h in TierSet(g, live, 1) ==> g.kind[h].name in inputs
    ensures Handles(g, props)
    ensures Picks(g, OtherProps(base, inputs), props) == TierSet(g, live, 2)
    ensures Picks(g, NonProps, live) == TierSet(g, live, 3)
    ensures forall h :: h in TierSet(g, live, 0) ==> base[g.kind[h].name] == h
    ensures forall h :: h in TierSet(g, live, 1) ==> inputs[g.kind[h].name] == h
  {
    FirstTiers(g, live, props);
    ValuesArePicks(g, live, BaseProps, base);
    ValuesArePicks(g, live, InputProps, inputs);
  }

  /**
   * What slot numbering leaves: the propositions recorded, every component
   * numbered with a distinct slot below the counter and the slot map naming
   * it back, slots handed out tier by tier, and the base and input indices
   * naming exactly the base and input propositions.
   */
  ghost predicate Indexing(g: Graph, comps: set<nat>, props: set<nat>, base: map<Sentence, nat>, inputs: map<Sentence, nat>,
                           counter: nat, idx: map<nat, nat>)
    requires Shaped(g) && InRange(g) && Handles(g, comps)
  {
    props == (set h | h in comps && g.kind[h].Proposition?)
    && Numbered(g, comps, counter, idx)
    && (forall p, q :: p in comps && q in comps && Tier(g, p) < Tier(g, q) ==> g.index[p] < g.index[q])
    && (forall s :: s in base ==> base[s] in comps && g.kind[base[s]] == Proposition(s) && IsBase(g, base[s]))
    && (forall p :: p in comps && Tier(g, p) == 0 ==> g.kind[p].name in base && base[g.kind[p].name] == p)
    && (forall s :: s in inputs ==> inputs[s] in comps && g.kind[inputs[s]] == Proposition(s) && IsInput(g, inputs[s]))
    && (forall p :: p in comps && IsInput(g, p) ==> g.kind[p].name in inputs && inputs[g.kind[p].name] == p)
  }

  /**
   * Hands out the slots: base propositions first, then input propositions,
   * then the other propositions, then every component that is not a
   * proposition.  Records the base and input propositions by sentence and
   * every slot's component.
   */
  method SetupIndices(a: Arena, live: set<nat>, props: set<nat>)
      returns (base: map<Sentence, nat>, inputs: map<Sentence, nat>, counter: nat, idx: map<nat, nat>)
    requires a.Valid() && Handles(a.g, live) && props == set h | h in live && a.g.kind[h].Proposition?
    requires NamesUnique(a.g, live) && BaseNotInput(a.g, live)
    modifies a
    ensures a.Valid() && a.g == old(a.g).(index := a.g.index)
    ensures Handles(a.g, live) && Indexing(a.g, live, props, base, inputs, counter, idx)
  {
    ghost var g0 := a.g;
    ghost var t0, t1, t2, t3 := TierSet(g0, live, 0), TierSet(g0, live, 1), TierSet(g0, live, 2), TierSet(g0, live, 3);
    FirstTiers(g0, live, props);
    TiersCover(g0, live);
    var c1, c2, c3;
    var idx0, idx1, idx2, other;
    c1, idx0, base := NumberWhere(a, BaseProps, props, {}, 0, map[]);
    ghost var g1 := a.g;
    PicksIgnoreSlots(g0, g1, InputProps, props);
    c2, idx1, inputs := NumberWhere(a, InputProps, props, t0, c1, idx0);
    ghost var g2 := a.g;
    RangedKept(g1, g2, t0, 0, c1);
    LastTiers(g0, live, props, base, inputs);
    PicksIgnoreSlots(g0, g2, OtherProps(base, inputs), props);
    c3, idx2, other := NumberWhere(a, OtherProps(base, inputs), props, t0 + t1, c2, idx1);
    ghost var g3 := a.g;
    RangedKept(g2, g3, t0, 0, c1);
    RangedKept(g2, g3, t1, c1, c2);
    PicksIgnoreSlots(g0, g3, NonProps, live);
    counter, idx, other := NumberWhere(a, NonProps, live, t0 + t1 + t2, c3, idx2);
    RangedKept(g3, a.g, t0, 0, c1);
    RangedKept(g3, a.g, t1, c1, c2);
    RangedKept(g3, a.g, t2, c2, c3);
    PicksIgnoreSlots(g0, a.g, BaseProps, props);
    IndexingDone(g0, a.g, live, props, base, inputs, c1, c2, c3, counter, idx);
  }

  /** The four passes' outcomes together: every live component numbered, tier by tier, base and input propositions recorded. */
  lemma IndexingDone(g0: Graph, g: Graph, live: set<nat>, props: set<nat>, base: map<Sentence, nat>, inputs: map<Sentence, nat>,
                     c1: nat, c2: nat, c3: nat, counter: nat, idx: map<nat, nat>)
    requires Shaped(g0) && InRange(g0) && Handles(g0, live) && props == set h | h in live && g0.kind[h].Proposition?
    requires NamesUnique(g0, live) && BaseNotInput(g0, live)
    requires Shaped(g) && g == g0.(index := g.index)
    requires Numbered(g, TierSet(g0, live, 0) + TierSet(g0, live, 1) + TierSet(g0, live, 2) + TierSet(g0, live, 3), counter, idx)
    requires Ranged(g, TierSet(g0, live, 0), 0, c1) && Ranged(g, TierSet(g0, live, 1), c1, c2)
    requires Ranged(g, TierSet(g0, live, 2), c2, c3) && Ranged(g, TierSet(g0, live, 3), c3, counter)
    requires c1 <= c2 <= c3
    requires forall s :: s in base ==> base[s] in TierSet(g0, live, 0) && g0.kind[base[s]] == Proposition(s)
    requires forall h :: h in TierSet(g0, live, 0) ==> g0.kind[h].name in base
    requires forall s :: s in inputs ==> inputs[s] in TierSet(g0, live, 1) && g0.kind[inputs[s]] == Proposition(s)
    requires forall h :: h in TierSet(g0, live, 1) ==> g0.kind[h].name in inputs
    ensures Handles(g, live) && Indexing(g, live, props, base, inputs, counter, idx)
  {
    TiersCover(g0, live);
    LastTiers(g0, live, props, base, inputs);
    TiersInOrder(g0, g, live, c1, c2, c3, counter);
    BaseRecorded(g0, g, live, base);
    InputsRecorded(g0, g, live, inputs);
  }

  /** The base map holds exactly the first tier, each proposition under its sentence. */
  lemma BaseRecorded(g0: Graph, g: Graph, live: set<nat>, base: map<Sentence, nat>)
    requires Shaped(g0) && InRange(g0) && Handles(g0, live) && Shaped(g) && g == g0.(index := g.index)
    requires forall s :: s in base ==> base[s] in TierSet(g0, live, 0) && g0.kind[base[s]] == Proposition(s)
    requires forall h :: h in TierSet(g0, live, 0) ==> g0.kind[h].name in base && base[g0.kind[h].name] == h
    ensures InRange(g)
    ensures forall s :: s in base ==> base[s] in live && g.kind[base[s]] == Proposition(s) && IsBase(g, base[s])
    ensures forall p :: p in live && Tier(g, p) == 0 ==> g.kind[p].name in base && base[g.kind[p].name] == p
  {
    assert g.kind == g0.kind && g.inputs == g0.inputs;
    forall p | p in live ensures Tier(g, p) == Tier(g0, p) && IsBase(g, p) == IsBase(g0, p) {
    }
  }

  /** The input map holds exactly the second tier, each proposition under its sentence. */
  lemma InputsRecorded(g0: Graph, g: Graph, live: set<nat>, inputs: map<Sentence, nat>)
    requires Shaped(g0) && InRange(g0) && Handles(g0, live) && Shaped(g) && g == g0.(index := g.index)
    requires BaseNotInput(g0, live)
    requires forall s :: s in inputs ==> inputs[s] in TierSet(g0, live, 1) && g0.kind[inputs[s]] == Proposition(s)
    requires forall h :: h in TierSet(g0, live, 1) ==> g0.kind[h].name in inputs && inputs[g0.kind[h].name] == h
    ensures InRange(g)
    ensures forall s :: s in inputs ==> inputs[s] in live && g.kind[inputs[s]] == Proposition(s) && IsInput(g, inputs[s])
    ensures forall p :: p in live && IsInput(g, p) ==> g.kind[p].name in inputs && inputs[g.kind[p].name] == p
  {
    assert g.kind == g0.kind && g.inputs == g0.inputs;
    forall p | p in live ensures Tier(g, p) == Tier(g0, p) && IsInput(g, p) == IsInput(g0, p) {
    }
    forall p | p in live && IsInput(g0, p) ensures p in TierSet(g0, live, 1) {
    }
  }

  /** Slots handed out tier by tier come in tier order. */
  lemma TiersInOrder(g0: Graph, g: Graph, live: set<nat>, c1: nat, c2: nat, c3: nat, c4: nat)
    requires Shaped(g0) && InRange(g0) && Handles(g0, live) && Shaped(g) && g == g0.(index := g.index)
    requires Ranged(g, TierSet(g0, live, 0), 0, c1) && Ranged(g, TierSet(g0, live, 1), c1, c2)
    requires Ranged(g, TierSet(g0, live, 2), c2, c3) && Ranged(g, TierSet(g0, live, 3), c3, c4)
    requires c1 <= c2 <= c3
    ensures InRange(g)
    ensures forall p, q :: p in live && q in live && Tier(g, p) < Tier(g, q) ==> g.index[p] < g.index[q]
  {
    assert g.kind == g0.kind && g.inputs == g0.inputs;
    forall p, q | p in live && q in live && Tier(g, p) < Tier(g, q)
      ensures g.index[p] < g.index[q]
    {
      assert Tier(g, p) == Tier(g0, p) && Tier(g, q) == Tier(g0, q);
      assert p in TierSet(g0, live, Tier(g0, p)) && q in TierSet(g0, live, Tier(g0, q));
    }
  }


  // ---------------------------------------------------------------------------
  // Legal and goal propositions by role.
  // ---------------------------------------------------------------------------

  /** A relation whose first argument is a constant, which names a role. */
  predicate RoleArgument(s: Sentence)
  {
    s.Rel? && |s.body| > 0 && s.body[0].Const?
  }

  function RoleOf(s: Sentence): Role
    requires RoleArgument(s)
  {
    Role(s.body[0].name)
  }

  /** A proposition `(rel r ...)` is one of role `r`'s propositions of that relation. */
  predicate Plays(g: Graph, p: nat, rel: string, r: Role)
    requires Shaped(g) && p < |g.kind|
  {
    g.kind[p].Proposition? && IsRelationNamed(g.kind[p].name, rel)
    && RoleArgument(g.kind[p].name) && RoleOf(g.kind[p].name) == r
  }

  function Playing(g: Graph, s: set<nat>, rel: string, r: Role): set<nat>
    requires Shaped(g) && Handles(g, s)
  {
    set p | p in s && Plays(g, p, rel, r)
  }

  /** Propositions of the relation whose first argument is not a constant cannot be filed under a role. */
  predicate RolesNamed(g: Graph, props: set<nat>, rel: string)
    requires Shaped(g) && Handles(g, props)
  {
    forall p :: p in props && g.kind[p].Proposition? && IsRelationNamed(g.kind[p].name, rel) ==> RoleArgument(g.kind[p].name)
  }

  lemma PlayingStep(g: Graph, done: set<nat>, p: nat, rel: string, r: Role)
    requires Shaped(g) && Handles(g, done) && p < |g.kind|
    ensures Playing(g, done + {p}, rel, r) == Playing(g, done, rel, r) + (if Plays(g, p, rel, r) then {p} else {})
  {
  }

  /** The loop facts of filing propositions by role. */
  ghost predicate Filed(g: Graph, done: set<nat>, rel: string, m: map<Role, set<nat>>)
    requires Shaped(g) && Handles(g, done)
  {
    (forall r :: r in m ==> m[r] != {} && m[r] == Playing(g, done, rel, r))
    && (forall r :: r !in m ==> Playing(g, done, rel, r) == {})
  }

  lemma FiledStep(g: Graph, done: set<nat>, rel: string, m: map<Role, set<nat>>, p: nat)
    requires Shaped(g) && Handles(g, done) && p < |g.kind| && Filed(g, done, rel, m)
    ensures !(g.kind[p].Proposition? && IsRelationNamed(g.kind[p].name, rel)) ==> Filed(g, done + {p}, rel, m)
    ensures g.kind[p].Proposition? && IsRelationNamed(g.kind[p].name, rel) && RoleArgument(g.kind[p].name)
            ==> var r := RoleOf(g.kind[p].name);
                Filed(g, done + {p}, rel, m[r := (if r in m then m[r] else {}) + {p}])
  {
    forall r: Role
      ensures Playing(g, done + {p}, rel, r) == Playing(g, done, rel, r) + (if Plays(g, p, rel, r) then {p} else {})
    {
      PlayingStep(g, done, p, rel, r);
    }
  }

  /**
   * Files every proposition named by relation `rel` under the role its first
   * argument names.  A role is a key exactly when it has such a proposition.
   */
  method RecordByRole(g: Graph, props: set<nat>, rel: string) returns (m: map<Role, set<nat>>)
    requires Shaped(g) && Handles(g, props) && RolesNamed(g, props, rel)
    ensures forall r :: r in m ==> m[r] == Playing(g, props, rel, r) && m[r] != {}
    ensures forall r :: r !in m ==> Playing(g, props, rel, r) == {}
  {
    m := map[];
    var todo := props;
    while todo != {}
      invariant todo <= props
      invariant Filed(g, props - todo, rel, m)
    {
      var p :| p in todo;
      FiledStep(g, props - todo, rel, m, p);
      if g.kind[p].Proposition? && IsRelationNamed(g.kind[p].name, rel) {
        var r := RoleOf(g.kind[p].name);
        m := m[r := (if r in m then m[r] else {}) + {p}];
      }
      assert props - (todo - {p}) == (props - todo) + {p};
      todo := todo - {p};
    }
    assert props - todo == props;
  }

  /** A role's legal propositions are named `(legal r m)` and every such proposition is filed under `r`. */
  lemma FiledUnderRole(g: Graph, props: set<nat>, rel: string, m: map<Role, set<nat>>, p: nat)
    requires Shaped(g) && Handles(g, props) && RolesNamed(g, props, rel)
    requires forall r :: r in m ==> m[r] == Playing(g, props, rel, r)
    requires forall r :: r !in m ==> Playing(g, props, rel, r) == {}
    requires p in props && g.kind[p].Proposition? && IsRelationNamed(g.kind[p].name, rel)
    ensures RoleOf(g.kind[p].name) in m && p in m[RoleOf(g.kind[p].name)]
  {
    assert p in Playing(g, props, rel, RoleOf(g.kind[p].name));
  }

  // ---------------------------------------------------------------------------
  // Pairing input propositions with legal propositions.
  // ---------------------------------------------------------------------------

  /** Propositions named by relations. */
  predicate Relations(g: Graph, s: set<nat>)
  {
    forall p :: p in s ==> p < |g.kind| && g.kind[p].Proposition? && g.kind[p].name.Rel?
  }

  function Body(g: Graph, p: nat): seq<Term>
    requires p < |g.kind| && g.kind[p].Proposition? && g.kind[p].name.Rel?
  {
    g.kind[p].name.body
  }

  /** Every proposition filed under some role. */
  function Filed1(m: map<Role, set<nat>>): (s: set<nat>)
    ensures forall p :: p in s <==> exists r :: r in m && p in m[r]
  {
    set r, p | r in m && p in m[r] :: p
  }

  /** No two propositions of the set share a body. */
  predicate BodiesUnique(g: Graph, s: set<nat>)
    requires Relations(g, s)
  {
    forall p, q :: p in s && q in s && Body(g, p) == Body(g, q) ==> p == q
  }

  /** `k` and `v` are an input and a legal proposition, one way round or the other, with the same body. */
  predicate Paired(g: Graph, ins: set<nat>, legals: set<nat>, k: nat, v: nat)
    requires Relations(g, ins) && Relations(g, legals)
  {
    ((k in ins && v in legals) || (k in legals && v in ins)) && Body(g, k) == Body(g, v)
  }

  /** The loop facts of indexing input propositions by body. */
  ghost predicate ByBody(g: Graph, ins: set<nat>, done: set<nat>, byBody: map<seq<Term>, nat>)
    requires Relations(g, ins)
  {
    (forall b :: b in byBody ==> byBody[b] in ins && Body(g, byBody[b]) == b)
    && (forall i :: i in done && i in ins ==> Body(g, i) in byBody)
  }

  /** Indexes the input propositions by their bodies. */
  method InputsByBody(g: Graph, ins: set<nat>) returns (byBody: map<seq<Term>, nat>)
    requires Relations(g, ins)
    ensures forall b :: b in byBody ==> byBody[b] in ins && Body(g, byBody[b]) == b
    ensures forall i :: i in ins ==> Body(g, i) in byBody
  {
    byBody := map[];
    var todo := ins;
    while todo != {}
      invariant todo <= ins
      invariant ByBody(g, ins, ins - todo, byBody)
    {
      var i :| i in todo;
      byBody := byBody[Body(g, i) := i];
      todo := todo - {i};
    }
  }

  /** The loop facts of pairing legal propositions with input propositions. */
  ghost predicate Pairing(g: Graph, ins: set<nat>, legals: set<nat>, byBody: map<seq<Term>, nat>, done: set<nat>,
                          lim: map<nat, nat>, uniq: bool)
    requires Relations(g, ins) && Relations(g, legals)
  {
    (forall k :: k in lim ==> Paired(g, ins, legals, k, lim[k]))
    && (forall l :: l in done && l in legals && Body(g, l) in byBody ==> l in lim)
    && (uniq ==> forall k :: k in lim ==> lim[k] in lim && lim[lim[k]] == k)
  }

  lemma PairingStep(g: Graph, ins: set<nat>, legals: set<nat>, byBody: map<seq<Term>, nat>, done: set<nat>,
                    lim: map<nat, nat>, uniq: bool, l: nat)
    requires Relations(g, ins) && Relations(g, legals) && l in legals
    requires forall b :: b in byBody ==> byBody[b] in ins && Body(g, byBody[b]) == b
    requires uniq ==> BodiesUnique(g, ins) && BodiesUnique(g, legals) && ins !! legals
    requires Pairing(g, ins, legals, byBody, done, lim, uniq)
    ensures Body(g, l) !in byBody ==> Pairing(g, ins, legals, byBody, done + {l}, lim, uniq)
    ensures Body(g, l) in byBody ==>
              Pairing(g, ins, legals, byBody, done + {l}, lim[byBody[Body(g, l)] := l][l := byBody[Body(g, l)]], uniq)
  {
    if Body(g, l) in byBody && uniq {
      var i := byBody[Body(g, l)];
      var lim' := lim[i := l][l := i];
      forall k | k in lim'
        ensures lim'[k] in lim' && lim'[lim'[k]] == k
      {
        if k != i && k != l {
          assert Paired(g, ins, legals, k, lim[k]);
          assert lim[lim[k]] == k;
        }
      }
    }
  }

  /**
   * Pairs every legal proposition with the input proposition of the same
   * body, both ways round.  When no two inputs and no two legal propositions
   * share a body, every pair is mutual.
   */
  method MakeLegalInputMap(g: Graph, inputs: map<Sentence, nat>, legal: map<Role, set<nat>>) returns (lim: map<nat, nat>)
    requires Relations(g, inputs.Values) && Relations(g, Filed1(legal))
    ensures forall k :: k in lim ==> Paired(g, inputs.Values, Filed1(legal), k, lim[k])
    ensures forall l :: l in Filed1(legal) && (exists i :: i in inputs.Values && Body(g, i) == Body(g, l)) ==> l in lim
    ensures BodiesUnique(g, inputs.Values) && BodiesUnique(g, Filed1(legal)) && inputs.Values !! Filed1(legal)
            ==> forall k :: k in lim ==> lim[k] in lim && lim[lim[k]] == k
  {
    var ins := inputs.Values;
    var legals := Filed1(legal);
    ghost var uniq := BodiesUnique(g, ins) && BodiesUnique(g, legals) && ins !! legals;
    var byBody := InputsByBody(g, ins);
    lim := map[];
    var todo := legals;
    while todo != {}
      invariant todo <= legals
      invariant Pairing(g, ins, legals, byBody, legals - todo, lim, uniq)
    {
      var l :| l in todo;
      PairingStep(g, ins, legals, byBody, legals - todo, lim, uniq, l);
      if Body(g, l) in byBody {
        var i := byBody[Body(g, l)];
        lim := lim[i := l][l := i];
      }
      assert legals - (todo - {l}) == (legals - todo) + {l};
      todo := todo - {l};
    }
    assert legals - todo == legals;
  }
}
