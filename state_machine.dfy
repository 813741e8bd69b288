/**
 * The game-rule queries answered by forcing a state into the propositional
 * network and draining it: terminal, goal, legal moves, next state and
 * initial state, and the joint-move to `does` conversion they use.
 */
module StateMachines {
  import opened Gdl
  import opened Components
  import opened Evaluation
  import opened Propagation
  import opened BitSets
  import opened MachineStates
  import opened Structure
  import opened PropNets

  /** The ways a query fails: each is an exception of the engine. */
  datatype Error =
    | GoalDefinition   // not exactly one goal proposition of the role is true
    | NoLegalMoves     // no legal proposition of the role is true
    | NotEnoughMoves   // a joint move with fewer moves than there are roles
    | Malformed        // a recorded proposition whose name lacks the expected argument

  datatype Result<T> = Success(value: T) | Failure(error: Error)

  /**
   * The move a legal proposition names: the second argument of its
   * relation; a name with no second argument has no move.
   */
  function GetMoveFromProposition(s: Sentence): (r: Result<Move>)
    ensures r.Success? <==> s.Rel? && |s.body| > 1
  {
    if s.Rel? && |s.body| > 1 then Success(Move(s.body[1])) else Failure(Malformed)
  }

  /**
   * The reward a goal proposition names: its second argument, a constant
   * read as a signed 32-bit decimal integer.
   */
  function GetGoalValue(s: Sentence): (r: Result<int>)
    ensures r.Success? ==> IntMin <= r.value <= IntMax
    ensures r.Success? <==> s.Rel? && |s.body| > 1 && s.body[1].Const? && ParseInt(s.body[1].name).Some?
  {
    if s.Rel? && |s.body| > 1 && s.body[1].Const? then
      match ParseInt(s.body[1].name)
      case Some(v) => Success(v)
      case None => Failure(Malformed)
    else Failure(Malformed)
  }

  /** The legal proposition of a role's move names that same move back. */
  lemma LegalMoveRoundTrip(r: Role, m: Move)
    ensures GetMoveFromProposition(Rel("legal", [Const(r.name), m.contents])) == Success(m)
    ensures GetMoveFromProposition(Does(r, m)) == Success(m)
  {
  }

  /** The goal proposition `(goal r n)` yields the reward `n` for every 32-bit `n`. */
  lemma GoalValueRoundTrip(r: Role, n: int)
    requires IntMin <= n <= IntMax
    ensures GetGoalValue(Rel("goal", [Const(r.name), Const(IntToString(n))])) == Success(n)
  {
    ParseIntToString(n);
  }

  /** The `does` sentences of a joint move, one per role in role order: the i-th role plays the i-th move. */
  function JointDoes(roles: seq<Role>, moves: seq<Move>): (d: seq<Sentence>)
    requires |moves| >= |roles|
    ensures |d| == |roles|
    ensures forall i :: 0 <= i < |roles| ==> IsRelationNamed(d[i], "does") && d[i].body == [Const(roles[i].name), moves[i].contents]
  {
    seq(|roles|, i requires 0 <= i < |roles| => Does(roles[i], moves[i]))
  }

  /** Every `does` sentence of a joint move names back the move its role plays. */
  lemma JointDoesNamesMoves(roles: seq<Role>, moves: seq<Move>, i: nat)
    requires |moves| >= |roles| && i < |roles|
    ensures GetMoveFromProposition(JointDoes(roles, moves)[i]) == Success(moves[i])
  {
  }

  /**
   * Converts a joint move: fewer moves than roles is an error, and extra
   * moves are ignored.
   */
  method ToDoes(roles: seq<Role>, moves: seq<Move>) returns (r: Result<seq<Sentence>>)
    ensures r.Failure? <==> |moves| < |roles|
    ensures r.Failure? ==> r.error == NotEnoughMoves
    ensures r.Success? ==> r.value == JointDoes(roles, moves)
  {
    if |moves| < |roles| {
      return Failure(NotEnoughMoves);
    }
    var doeses: seq<Sentence> := [];
    for i := 0 to |roles|
      invariant doeses == JointDoes(roles[..i], moves)
    {
      doeses := doeses + [Does(roles[i], moves[i])];
    }
    assert roles[..|roles|] == roles;
    r := Success(doeses);
  }

  /** The components of `s` whose bit in `cur` is set. */
  function TrueAmong(g: Graph, cur: seq<bool>, s: set<nat>): (t: set<nat>)
    requires Shaped(g) && forall p :: p in s ==> p < |g.kind| && g.index[p] < |cur|
    ensures forall p :: p in t <==> p in s && cur[g.index[p]]
  {
    set p | p in s && cur[g.index[p]]
  }

  /**
   * Counts the components of `s` whose bit is set, in any order,
   * remembering one of them when there is one.
   */
  method CountTrue(g: Graph, cur: array<bool>, s: set<nat>) returns (count: nat, last: Option<nat>)
    requires Shaped(g) && forall p :: p in s ==> p < |g.kind| && g.index[p] < cur.Length
    ensures count == |TrueAmong(g, cur[..], s)|
    ensures last.Some? <==> count > 0
    ensures last.Some? ==> last.value in TrueAmong(g, cur[..], s)
  {
    var todo := s;
    count := 0;
    last := None;
    while todo != {}
      invariant todo <= s
      invariant count == |TrueAmong(g, cur[..], s - todo)|
      invariant last.Some? ==> last.value in TrueAmong(g, cur[..], s - todo)
      invariant last.Some? <==> count > 0
      decreases |todo|
    {
      var p :| p in todo;
      assert TrueAmong(g, cur[..], s - (todo - {p}))
          == TrueAmong(g, cur[..], s - todo) + (if cur[g.index[p]] then {p} else {});
      if cur[g.index[p]] {
        last := Some(p);
        count := count + 1;
      }
      todo := todo - {p};
    }
    assert s - todo == s;
  }

  /**
   * The reward named by the one true proposition of `goals`; any other
   * number of true propositions is an error.
   */
  method PickGoal(g: Graph, cur: array<bool>, goals: set<nat>) returns (r: Result<int>)
    requires Shaped(g) && forall p :: p in goals ==> p < |g.kind| && g.kind[p].Proposition? && g.index[p] < cur.Length
    ensures r == Failure(GoalDefinition) <==> |TrueAmong(g, cur[..], goals)| != 1
    ensures forall p :: p in TrueAmong(g, cur[..], goals) && |TrueAmong(g, cur[..], goals)| == 1
              ==> r == GetGoalValue(g.kind[p].name)
  {
    var truegoals, trueprop := CountTrue(g, cur, goals);
    if truegoals != 1 {
      r := Failure(GoalDefinition);
    } else {
      var p := trueprop.value;
      assert TrueAmong(g, cur[..], goals) == {p} by {
        assert |TrueAmong(g, cur[..], goals) - {p}| == 0;
      }
      r := GetGoalValue(g.kind[p].name);
      assert r != Failure(GoalDefinition);
    }
  }

  /** Whether some component of `s` whose bit is set has a name that names no move. */
  ghost predicate SomeMalformed(g: Graph, cur: seq<bool>, s: set<nat>)
    requires Shaped(g) && forall p :: p in s ==> p < |g.kind| && g.kind[p].Proposition? && g.index[p] < |cur|
  {
    exists p :: p in TrueAmong(g, cur, s) && GetMoveFromProposition(g.kind[p].name).Failure?
  }

  /** A component of `s` is true in `cur` exactly when it evaluates to true under `asg`. */
  ghost predicate TruthIsEval(g: Graph, live: set<nat>, lvl: seq<nat>, cur: seq<bool>, asg: seq<bool>, s: set<nat>)
    requires Formed(g, live, lvl) && Slotted(g, live, |asg|)
    requires forall p :: p in s ==> p in live && g.index[p] < |cur|
  {
    forall p :: p in s ==> (p in TrueAmong(g, cur, s) <==> Eval(g, live, lvl, asg, p))
  }

  /**
   * `props` lists each true component of `s` once, and `moves` holds, at the
   * same position, the move that component's name names.
   */
  ghost predicate Listed(g: Graph, cur: seq<bool>, s: set<nat>, props: seq<nat>, moves: seq<Move>)
    requires Shaped(g) && forall p :: p in s ==> p < |g.kind| && g.kind[p].Proposition? && g.index[p] < |cur|
  {
    |props| == |moves|
    && (forall i, j :: 0 <= i < j < |props| ==> props[i] != props[j])
    && (forall p :: p in props <==> p in TrueAmong(g, cur, s))
    && (forall k :: 0 <= k < |props| ==> props[k] in s && GetMoveFromProposition(g.kind[props[k]].name) == Success(moves[k]))
  }

  /** Taking one more component keeps the listing: appended when it is true, skipped when it is not. */
  lemma ListedStep(g: Graph, cur: seq<bool>, s: set<nat>, done: set<nat>, p: nat, props: seq<nat>, moves: seq<Move>)
    requires Shaped(g) && forall q :: q in s ==> q < |g.kind| && g.kind[q].Proposition? && g.index[q] < |cur|
    requires done <= s && p in s && p !in done
    requires Listed(g, cur, done, props, moves)
    ensures !cur[g.index[p]] ==> Listed(g, cur, done + {p}, props, moves)
    ensures cur[g.index[p]] && GetMoveFromProposition(g.kind[p].name).Success?
            ==> Listed(g, cur, done + {p}, props + [p], moves + [GetMoveFromProposition(g.kind[p].name).value])
  {
    assert TrueAmong(g, cur, done + {p}) == TrueAmong(g, cur, done) + (if cur[g.index[p]] then {p} else {});
  }

  /**
   * What a legal-move query answers over `s` given the vector `cur`: none
   * true is one error and a true component naming no move another;
   * otherwise the listing of the true components and their moves.
   */
  ghost predicate MovesOutcome(g: Graph, cur: seq<bool>, s: set<nat>, r: Result<seq<Move>>, props: seq<nat>)
    requires Shaped(g) && forall p :: p in s ==> p < |g.kind| && g.kind[p].Proposition? && g.index[p] < |cur|
  {
    (r.Failure? ==> r.error == NoLegalMoves || r.error == Malformed)
    && (r == Failure(NoLegalMoves) <==> TrueAmong(g, cur, s) == {})
    && (r == Failure(Malformed) <==> SomeMalformed(g, cur, s))
    && (r.Success? ==> Listed(g, cur, s, props, r.value))
  }

  /**
   * The moves named by the true propositions of `legals`, one per true
   * proposition (`props` lists those propositions in the order taken).  A
   * true proposition that names no move is an error as soon as it is met,
   * and so is finding none true.
   */
  method CollectMoves(g: Graph, cur: array<bool>, legals: set<nat>) returns (r: Result<seq<Move>>, ghost props: seq<nat>)
    requires Shaped(g) && forall p :: p in legals ==> p < |g.kind| && g.kind[p].Proposition? && g.index[p] < cur.Length
    ensures r.Failure? ==> r.error == NoLegalMoves || r.error == Malformed
    ensures r == Failure(NoLegalMoves) <==> TrueAmong(g, cur[..], legals) == {}
    ensures r == Failure(Malformed) <==> SomeMalformed(g, cur[..], legals)
    ensures r.Success? ==> Listed(g, cur[..], legals, props, r.value)
  {
    var todo := legals;
    var moves: seq<Move> := [];
    props := [];
    while todo != {}
      invariant todo <= legals
      invariant Listed(g, cur[..], legals - todo, props, moves)
      decreases |todo|
    {
      var p :| p in todo;
      ListedStep(g, cur[..], legals, legals - todo, p, props, moves);
      assert legals - (todo - {p}) == (legals - todo) + {p};
      if cur[g.index[p]] {
        var m := GetMoveFromProposition(g.kind[p].name);
        if m.Failure? {
          assert p in TrueAmong(g, cur[..], legals);
          return Failure(Malformed), props;
        }
        moves := moves + [m.value];
        props := props + [p];
      }
      todo := todo - {p};
    }
    assert legals - todo == legals;
    assert !SomeMalformed(g, cur[..], legals) by {
      forall p | p in TrueAmong(g, cur[..], legals)
        ensures GetMoveFromProposition(g.kind[p].name).Success?
      {
        var k :| 0 <= k < |props| && props[k] == p;
      }
    }
    if |moves| == 0 {
      assert TrueAmong(g, cur[..], legals) == {} by {
        assert props == [];
      }
      r := Failure(NoLegalMoves);
    } else {
      assert props[0] in TrueAmong(g, cur[..], legals);
      r := Success(moves);
    }
  }

  class StateMachine {
    const net: PropNet
    const roles: seq<Role>

    /** Wraps a network made by `PropNets.Create`; the roles are the network's. */
    constructor (n: PropNet)
      ensures net == n && roles == n.roles
    {
      net := n;
      roles := n.roles;
    }

    function GetRoles(): (r: seq<Role>)
      ensures r == roles
    {
      roles
    }

    /**
     * Whether the state is terminal: the terminal proposition's bit after
     * forcing the state with no moves and draining.
     */
    method IsTerminal(state: MachineState) returns (b: bool)
      requires net.Ready() && net.Recorded() && net.terminalProposition.Some?
      requires forall i :: i in state.bits ==> i < net.compState.Length
      modifies net`currentState, net.arena, net.compState, net.nextState
      ensures net.Ready() && net.Recorded()
      ensures net.currentState[..] == Forced(net.pristine[..], state.bits, {})
      ensures b == net.compState[net.arena.g.index[net.terminalProposition.value]]
      ensures Topological(net.arena.g, net.components) && old(net.Settled())
              ==> net.Settled() && b == Eval(net.arena.g, net.components, net.lvl, net.currentState[..], net.terminalProposition.value)
    {
      net.ForceState(state.bits);
      var t := net.terminalProposition.value;
      b := net.compState[net.arena.g.index[t]];
      if Topological(net.arena.g, net.components) && old(net.Settled()) {
        SettledIsEval(net.arena.g, net.components, net.lvl, net.currentState[..], net.compState[..], net.nextState[..], t);
      }
    }

    /** Once the network is settled, a recorded proposition's bit is its evaluation under the forced vector. */
    lemma TrueIsEval(s: set<nat>)
      requires net.Ready() && net.Settled()
      requires forall p :: p in s ==> p in net.components && net.arena.g.kind[p].Proposition?
      ensures TruthIsEval(net.arena.g, net.components, net.lvl, net.compState[..], net.currentState[..], s)
    {
      forall p | p in s
        ensures p in TrueAmong(net.arena.g, net.compState[..], s) <==> Eval(net.arena.g, net.components, net.lvl, net.currentState[..], p)
      {
        SettledIsEval(net.arena.g, net.components, net.lvl, net.currentState[..], net.compState[..], net.nextState[..], p);
      }
    }

    /**
     * The reward of a role: after forcing the state and draining, exactly
     * one of the role's goal propositions must be true, and its second
     * argument is the reward; any other number of true goals is an error.
     */
    method GetGoal(state: MachineState, role: Role) returns (r: Result<int>)
      requires net.Ready() && net.Recorded() && role in net.goalPropositions
      requires forall i :: i in state.bits ==> i < net.compState.Length
      modifies net`currentState, net.arena, net.compState, net.nextState
      ensures net.Ready() && net.Recorded()
      ensures net.currentState[..] == Forced(net.pristine[..], state.bits, {})
      ensures r == Failure(GoalDefinition) <==> |TrueAmong(net.arena.g, net.compState[..], net.goalPropositions[role])| != 1
      ensures forall p :: p in TrueAmong(net.arena.g, net.compState[..], net.goalPropositions[role]) && |TrueAmong(net.arena.g, net.compState[..], net.goalPropositions[role])| == 1
                ==> r == GetGoalValue(net.arena.g.kind[p].name)
      ensures Topological(net.arena.g, net.components) && old(net.Settled())
              ==> net.Settled() && TruthIsEval(net.arena.g, net.components, net.lvl, net.compState[..], net.currentState[..], net.goalPropositions[role])
    {
      net.ForceState(state.bits);
      var goals := net.goalPropositions[role];
      r := PickGoal(net.arena.g, net.compState, goals);
      if Topological(net.arena.g, net.components) && old(net.Settled()) {
        TrueIsEval(goals);
      }
    }
  
    /**
     * The diagnostic pass before the no-legal-moves error: the same state is
     * forced and drained again and the role's legal propositions are logged.
     * The target is already current, so nothing changes.
     */
    method RecheckLegal(state: MachineState)
      requires net.Ready() && net.Recorded()
      requires forall i :: i in state.bits ==> i < net.compState.Length
      requires net.currentState[..] == Forced(net.pristine[..], state.bits, {})
      modifies net`currentState, net.arena, net.compState, net.nextState
      ensures net.Ready() && net.Recorded()
      ensures net.arena.g == old(net.arena.g) && net.compState[..] == old(net.compState[..]) && net.nextState[..] == old(net.nextState[..])
      ensures net.currentState[..] == old(net.currentState[..])
      ensures old(Topological(net.arena.g, net.components) && net.Settled()) ==> net.Settled()
    {
      net.ForceState(state.bits);
    }

    /**
     * The legal moves of a role: after forcing the state and draining, one
     * move per true legal proposition of the role.  Finding none true is an
     * error, raised after forcing and draining the same state once more.
     */
    method GetLegalMoves(state: MachineState, role: Role) returns (r: Result<seq<Move>>, ghost props: seq<nat>)
      requires net.Ready() && net.Recorded() && role in net.legalPropositions
      requires forall i :: i in state.bits ==> i < net.compState.Length
      modifies net`currentState, net.arena, net.compState, net.nextState
      ensures net.Ready() && net.Recorded()
      ensures net.currentState[..] == Forced(net.pristine[..], state.bits, {})
      ensures MovesOutcome(net.arena.g, net.compState[..], net.legalPropositions[role], r, props)
      ensures old(Topological(net.arena.g, net.components) && net.Settled())
              ==> net.Settled() && TruthIsEval(net.arena.g, net.components, net.lvl, net.compState[..], net.currentState[..], net.legalPropositions[role])
    {
      ghost var settled := Topological(net.arena.g, net.components) && net.Settled();
      net.ForceState(state.bits);
      var legals := net.legalPropositions[role];
      r, props := CollectMoves(net.arena.g, net.compState, legals);
      if settled {
        TrueIsEval(legals);
      }
      if r == Failure(NoLegalMoves) {
        // The same state is forced again; the target is unchanged, so nothing else changes.
        RecheckLegal(state);
      }
    }

    /**
     * The successor state: the joint move becomes `does` sentences, the
     * state and their input slots are forced, the network is drained, and
     * the next vector is snapshot.  Too few moves is an error raised before
     * anything changes.
     */
    method GetNextState(state: MachineState, moves: seq<Move>) returns (r: Result<MachineState>)
      requires net.Ready() && net.Recorded()
      requires forall i :: i in state.bits ==> i < net.compState.Length
      modifies net`currentState, net.arena, net.compState, net.nextState
      ensures net.Ready() && net.Recorded()
      ensures r.Failure? <==> |moves| < |roles|
      ensures r.Failure? ==> r.error == NotEnoughMoves && unchanged(net, net.arena, net.compState, net.nextState)
      ensures r.Success? ==> fresh(r.value) && r.value.bits == BitsOf(net.nextState[..])
      ensures r.Success? ==> net.currentState[..] == Forced(net.pristine[..], state.bits,
                                                            old(MoveSlots(net.arena.g, net.inputPropositions, JointDoes(roles, moves))))
      ensures r.Success? && Topological(net.arena.g, net.components) && old(net.Settled())
              ==> net.Settled() && NextIsEval(net.arena.g, net.components, net.lvl, net.currentState[..], r.value.bits)
    {
      var doeses := ToDoes(roles, moves);
      if doeses.Failure? {
        return Failure(doeses.error);
      }
      net.ForceAndDrain(state.bits, doeses.value, false);
      var s := net.GetStateFromBase();
      if Topological(net.arena.g, net.components) && old(net.Settled()) {
        NextStateIsEval(net.arena.g, net.components, net.lvl, net.currentState[..], net.compState[..], net.nextState[..]);
      }
      r := Success(s);
    }

    /** The initial state: the init proposition alone is forced over the pristine vector. */
    method GetInitialState() returns (s: MachineState)
      requires net.Ready() && net.initProposition.Some?
      modifies net`currentState, net.arena, net.compState, net.nextState
      ensures net.Ready()
      ensures net.initProposition.value < |net.arena.g.index|
      ensures fresh(s) && s.bits == BitsOf(net.nextState[..])
      ensures net.currentState[..] == Forced(net.pristine[..], {}, {net.arena.g.index[net.initProposition.value]})
      ensures Topological(net.arena.g, net.components) && old(net.Settled())
              ==> net.Settled() && NextIsEval(net.arena.g, net.components, net.lvl, net.currentState[..], s.bits)
    {
      s := net.MarkInit();
    }
  }
}
