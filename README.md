# Incremental propositional-network evaluator — a Dafny model

This project models the core of the heavensbee game player's propositional network (propnet), the circuit the player uses to answer game-rule queries. A propnet is a boolean circuit of typed components: propositions (one per GDL sentence), AND, OR and NOT gates, constants, and transitions. Transitions carry a base proposition's value into the next state.

The network holds two bit vectors:
- the **current** vector, with one slot per component;
- the **next** vector, which transitions write at their base proposition's slot.

A query forces a target vector: the pristine bits, plus the bits of a machine state, plus the input propositions of a joint move, plus optionally the `INIT` proposition. The target is compared with the previously forced target. Every component whose slot changed goes into a worklist keyed by rank. The worklist is then drained, lowest rank first. Each component taken recomputes its gate function and, when its bit changes, queues its outputs. So only what lies downstream of a change is re-evaluated.

The model has five layers.

- **Components and their updates** (`gdl.dfy`, `component.dfy`, `proposition.dfy`, `gates.dfy`).
  - Components are natural-number handles into an `Arena` whose `Graph` records each component's kind, input and output lists, slot (`index`), rank (`topo`) and explicit proposition value.
  - The mutators of `Component` are methods of `Arena`.
  - Each component kind's `update_and_fprop` is a method over the two `array<bool>` vectors and the worklist, proved equal to the specification functions `NewCur`, `NewNxt` and `Fanout`.
- **Meaning** (`structure.dfy`, `evaluation.dfy`).
  - `Wired` states what the factory guarantees:
    - input and output lists mirror each other, counted with multiplicity;
    - every edge stays among live components;
    - NOT gates and transitions have one input, and transitions one output into a base proposition;
    - a ghost level function shows that every cycle passes through a transition.
  - `Value` is what a component reports to its readers. An OR gate recomputes its disjunction recursively; every other kind reads its stored bit.
  - `Consistent` says a component's written slot holds its gate function of its inputs' stored bits.
  - `Eval` is the circuit's full evaluation under an assignment to the given (non-view) propositions.
- **Drain** (`worklist.dfy`, `drain.dfy`).
  - The worklist (a `TreeSet` ordered by rank) is a `map` from rank to component. Adding a component whose rank is already queued is therefore a no-op, as it is in the tree set.
  - A weight potential shows that draining terminates.
  - `DrainStep` shows that processing the least-ranked entry keeps "every live component is queued or consistent" whenever ranks are topological.
- **Construction** (`elision.dfy`, `pruning.dfy`, `recording.dfy`, `ranks.dfy`, `construction.dfy`, `propnet.dfy`). These run the `PropNet` constructor's passes in order:
  - splice out view propositions with one output;
  - keep what is connected to `terminal`;
  - number the slots tier by tier;
  - file the legal, goal, init and terminal propositions, and pair legal with input propositions;
  - rank by reverse post-order of a depth-first trace from a synthetic root;
  - run the initial propagation.

  Ranking and the initial propagation exist twice: as the source writes them, and corrected (see "## Findings"). The construction uses the corrected versions.

  `removeComponent` is in `removal.dfy`.
- **Snapshots and queries** (`machine_state.dfy`, `state_machine.dfy`).
  - A machine state is its set of bits, with the JDK `BitSet` hash written out word by word.
  - The queries (terminal, goal, legal moves, next state, initial state) force a state, drain, and read the result.
  - Each query's failure cases are `Result` errors.

Two aliasing facts of the source are kept explicit.
- The components hold the vector they were handed (`compState`), while `current_state` is reassigned to each new target (`currentState`). So the comparison that seeds the worklist is against the previously forced target, not against the components' vector.
- `Transition.getValue` reads the transition's own slot of the next vector, whereas its update writes the base proposition's slot. No update writes a transition's own slot, so the model reports a transition as false. The only reader of a transition is a base proposition, which is not a view and so never uses that report. `Eval` reads transitions as false accordingly, and `NextStateIsEval` relates each base bit of the next vector to the evaluation of its transition.

The headline results:
- `Evaluation.ConsistentIsEval` and `PropNets.SettledIsEval`: a settled network holds, in every slot, the circuit's evaluation under the forced target.
- `PropNets.PropNet.ForwardProp`: draining settles the network when ranks are topological.
- `StateMachines.StateMachine.GetNextState`: when ranks are topological and the network was settled before the query, the returned state's bits are exactly the next-state evaluation of every base proposition.
- `PropNets.Create`: construction with the corrected ranking and first propagation ends with topological ranks and a settled network, so that premise holds for the first query, and every query keeps it.

## Model

| member | source | states |
|---|---|---|
| Gdl.Does | src/main/java/org/ggp/base/util/statemachine/implementation/heavensbeepropnet/HeavensbeePropNetStateMachine.java:372-388 | The `does` sentence of a role's move is a relation named `does` whose arguments are the role's name and then the move. |
| Gdl.ToUpper | src/main/java/org/ggp/base/util/propnet/architecture/PropNet.java:644-658 | Upper-casing keeps the length and maps every character through the ASCII upper-case mapping. |
| Gdl.InitNameCases | src/main/java/org/ggp/base/util/propnet/architecture/PropNet.java:644-658 | A sentence counts as the init proposition exactly when it is a bare constant spelling `init` in any mix of letter cases (each of the sixteen spellings), and the `terminal` proposition never does. |
| Gdl.ParseInt | src/main/java/org/ggp/base/util/statemachine/implementation/heavensbeepropnet/HeavensbeePropNetStateMachine.java:405-410 | A parsed goal value lies in the signed 32-bit range, and the empty string and a lone sign are rejected. |
| Gdl.ParseIntToString | src/main/java/org/ggp/base/util/statemachine/implementation/heavensbeepropnet/HeavensbeePropNetStateMachine.java:405-410 | Every signed 32-bit integer written in decimal parses back to itself. |
| Gdl.ParseIntRejectsNonDigit | src/main/java/org/ggp/base/util/statemachine/implementation/heavensbeepropnet/HeavensbeePropNetStateMachine.java:405-410 | A non-digit anywhere after the first character makes parsing fail. |
| Components.RemoveFirst | src/main/java/org/ggp/base/util/propnet/architecture/Component.java:51-59 | Removing from an edge list takes away exactly one occurrence (multiset difference), leaves the list as it was when the element is absent, and adds nothing. |
| Components.RemoveFirstSplits | src/main/java/org/ggp/base/util/propnet/architecture/Component.java:51-54 | Removal cuts out the first occurrence and keeps the rest of the list in order. |
| Components.Arena.NewComponent | src/main/java/org/ggp/base/util/propnet/architecture/Component.java:33-38 | A new component gets the next handle, empty input and output lists, rank 0 and slot 0, and nothing else changes. |
| Components.Arena.AddInput | src/main/java/org/ggp/base/util/propnet/architecture/Component.java:46-49 | Appends one entry to the component's input list; every other list and field is unchanged. |
| Components.Arena.AddOutput | src/main/java/org/ggp/base/util/propnet/architecture/Component.java:77-80 | Appends one entry to the component's output list; every other list and field is unchanged. |
| Components.Arena.RemoveInput | src/main/java/org/ggp/base/util/propnet/architecture/Component.java:51-54 | Only the component's input list changes, and it loses one occurrence of the argument. |
| Components.Arena.RemoveOutput | src/main/java/org/ggp/base/util/propnet/architecture/Component.java:56-59 | Only the component's output list changes, and it loses one occurrence of the argument. |
| Components.Arena.RemoveAllInputs | src/main/java/org/ggp/base/util/propnet/architecture/Component.java:61-64 | The component's input list becomes empty and nothing else changes. |
| Components.Arena.RemoveAllOutputs | src/main/java/org/ggp/base/util/propnet/architecture/Component.java:66-69 | The component's output list becomes empty and nothing else changes. |
| Components.Arena.GetSingleInput | src/main/java/org/ggp/base/util/propnet/architecture/Component.java:99-102 | On a component with exactly one input, returns that input: the input list is exactly that one handle. |
| Components.Arena.GetSingleOutput | src/main/java/org/ggp/base/util/propnet/architecture/Component.java:121-124 | On a component with exactly one output, returns that output: the output list is exactly that one handle. |
| Components.Arena.SetIndex | src/main/java/org/ggp/base/util/propnet/architecture/Component.java:180-184 | Changes only the component's slot. |
| Components.Arena.SetTopoIndex | src/main/java/org/ggp/base/util/propnet/architecture/Component.java:186-190 | Changes only the component's rank. |
| Components.Arena.SetValue | src/main/java/org/ggp/base/util/propnet/architecture/components/Proposition.java:78-81 | Changes only the proposition's explicit value; neither bit vector is touched. |
| Propositions.IsBase | src/main/java/org/ggp/base/util/propnet/architecture/components/Proposition.java:117-127 | A proposition is base exactly when its input list is a single transition. |
| Propositions.IsInput | src/main/java/org/ggp/base/util/propnet/architecture/components/Proposition.java:129-139 | A proposition is input exactly when its name is a relation named `does`. |
| Propositions.IsView | src/main/java/org/ggp/base/util/propnet/architecture/components/Proposition.java:141-149 | A proposition is a view exactly when it has one input that is not a transition; a view is never base. |
| Propositions.ClassificationPartitions | src/main/java/org/ggp/base/util/propnet/architecture/components/Proposition.java:117-149 | Having exactly one input is the same as being base or view, and no proposition is both. |
| Structure.InputIsFedBy | src/main/java/org/ggp/base/util/propnet/architecture/Component.java:46-80 | In a network whose edge lists mirror each other, a component appears among the outputs of each of its inputs. |
| Structure.OutputIsFed | src/main/java/org/ggp/base/util/propnet/architecture/Component.java:46-80 | In a mirrored network, a component appears among the inputs of each of its outputs. |
| Structure.TransitionFeedsBase | src/main/java/org/ggp/base/util/propnet/architecture/components/Transition.java:55-79 | A live transition's single output is a live base proposition, which is the slot its update writes. |
| Structure.TransitionsFeedDistinct | src/main/java/org/ggp/base/util/propnet/architecture/components/Transition.java:55-79 | Two different transitions write different base propositions, so their next-vector writes never collide. |
| Evaluation.ValueMatchesStored | src/main/java/org/ggp/base/util/propnet/architecture/components/Or.java:21-31 | The recursive OR value equals the OR gate's stored bit once every OR gate below it is consistent. |
| Evaluation.ConsistentValues | src/main/java/org/ggp/base/util/propnet/architecture/components/Or.java:21-31 | In a fully consistent state, what every component reports (including an OR gate's recomputation) is its stored value. |
| Evaluation.ConsistentIsDenotation | src/main/java/org/ggp/base/util/propnet/architecture/PropNet.java:62-76 | A fully consistent state is the circuit's evaluation from the given propositions' values: each non-transition's stored value and each transition's written next bit equal their denotation. |
| Evaluation.DenotationFrame | src/main/java/org/ggp/base/util/propnet/architecture/components/Transition.java:23-28 | The circuit's evaluation depends on the next vector only at the transitions' own slots. |
| Evaluation.ConsistentIsEval | src/main/java/org/ggp/base/util/propnet/architecture/PropNet.java:62-76 | When the transitions' own next slots are clear, a fully consistent state holds `Eval` in every written slot. |
| Evaluation.ConsistentTracks | src/main/java/org/ggp/base/util/propnet/architecture/components/Proposition.java:170-227 | In a fully consistent state every given proposition's explicit value is its bit. |
| Worklists.Add | src/main/java/org/ggp/base/util/propnet/architecture/PropNet.java:37-42 | Adding to the rank-ordered worklist adds the component's rank as a key and keeps every queued entry; a rank already queued keeps its component, so the add is a no-op. |
| Worklists.AddAll | src/main/java/org/ggp/base/util/propnet/architecture/components/And.java:78-91 | Adding a list of outputs adds exactly their ranks as keys, keeps the queued entries, and maps each new key to the output of that rank. |
| Worklists.AddAllKeyed | src/main/java/org/ggp/base/util/propnet/architecture/PropNet.java:37-42 | Adding live components keeps the worklist keyed: each entry is a live component stored under its own rank. |
| Worklists.First | src/main/java/org/ggp/base/util/propnet/architecture/PropNet.java:915-921 | Returns the smallest rank in a non-empty worklist. |
| Worklists.PotentialStep | src/main/java/org/ggp/base/util/propnet/architecture/PropNet.java:911-939 | Taking the first entry, and queuing its outputs or not, strictly lowers a weight potential, so the drain terminates. |
| Worklists.SeedAll | src/main/java/org/ggp/base/util/propnet/architecture/PropNet.java:1005-1044 | Seeding the corrected first drain queues, keyed, exactly the live components' ranks, so with distinct ranks every live component is queued. |
| Gates.UpdateFrame | src/main/java/org/ggp/base/util/propnet/architecture/components/And.java:51-101 | Updating one component leaves what every other component stores unchanged. |
| Gates.ValueFrame | src/main/java/org/ggp/base/util/propnet/architecture/components/Or.java:21-31 | What a component reports depends only on what the components below it store. |
| Gates.ReadingsFrame | src/main/java/org/ggp/base/util/propnet/architecture/components/Or.java:21-31 | A component's inputs report the same values when nothing but the component's own stored value changed. |
| Gates.TargetFrame | src/main/java/org/ggp/base/util/propnet/architecture/components/And.java:51-101 | After its update, a component holds its own gate function of its inputs. |
| Gates.UpdateIdempotent | src/main/java/org/ggp/base/util/propnet/architecture/components/Constant.java:61-89 | Updating the same component twice changes neither vector nor the worklist the second time. |
| Gates.GetValue | src/main/java/org/ggp/base/util/propnet/architecture/components/Or.java:21-31 | `getValue` of every kind: an OR gate scans its inputs recursively, a constant gives its fixed value, a transition reads its own next slot, and the others read their current bit. The result is the reported `Value`. |
| Gates.AddOutputs | src/main/java/org/ggp/base/util/propnet/architecture/components/And.java:78-91 | The worklist after adding a component's outputs is `AddAll` of them. |
| Gates.Commit | src/main/java/org/ggp/base/util/propnet/architecture/components/Not.java:56-76 | Writes the component's bit and queues its outputs exactly when the bit changed; otherwise the worklist is unchanged. |
| Gates.UpdateProposition | src/main/java/org/ggp/base/util/propnet/architecture/components/Proposition.java:170-227 | A view proposition copies its input's value and any other proposition takes its explicit value; outputs are queued exactly on a change. |
| Gates.UpdateAnd | src/main/java/org/ggp/base/util/propnet/architecture/components/And.java:51-101 | The bit becomes true exactly when no input reports false (true with no inputs); outputs are queued exactly on a change. |
| Gates.UpdateOr | src/main/java/org/ggp/base/util/propnet/architecture/components/Or.java:58-104 | The bit becomes true exactly when some input reports true; outputs are queued exactly on a change. |
| Gates.UpdateNot | src/main/java/org/ggp/base/util/propnet/architecture/components/Not.java:47-81 | The bit becomes the negation of the single input; outputs are queued exactly on a change. |
| Gates.UpdateConstant | src/main/java/org/ggp/base/util/propnet/architecture/components/Constant.java:61-89 | The bit becomes the fixed value; outputs are queued exactly on a change. |
| Gates.UpdateTransition | src/main/java/org/ggp/base/util/propnet/architecture/components/Transition.java:55-79 | Writes the input's value into the next vector at the base proposition's slot, and touches neither the current vector nor the worklist. |
| Gates.Update | src/main/java/org/ggp/base/util/propnet/architecture/Component.java:192-202 | Dispatches on the component's kind; the new vectors and worklist are those the kind's update defines. |
| Propagation.ReadingsSettled | src/main/java/org/ggp/base/util/propnet/architecture/PropNet.java:911-939 | With topological ranks, when every live component is queued or consistent, the least-ranked queued component's inputs report exactly what they store. |
| Propagation.UpdatedIsConsistent | src/main/java/org/ggp/base/util/propnet/architecture/PropNet.java:911-939 | With topological ranks, updating the least-ranked queued component makes it consistent. |
| Propagation.OtherStaysConsistent | src/main/java/org/ggp/base/util/propnet/architecture/PropNet.java:911-939 | Updating a component keeps every other consistent component consistent unless it reads the updated one and that one's bit moved. |
| Propagation.DrainStep | src/main/java/org/ggp/base/util/propnet/architecture/PropNet.java:911-939 | One drain step keeps the invariant that every live component is queued or consistent. |
| BitSets.BitsOf | src/main/java/org/ggp/base/util/propnet/architecture/PropNet.java:887-890 | A vector's bit set holds exactly the indices of its true slots. |
| BitSets.Hash | src/main/java/org/ggp/base/util/statemachine/implementation/heavensbeepropnet/HeavensbeeMachineState.java:31-35 | The `BitSet` hash is a 32-bit integer. |
| BitSets.MixIgnoresTrailingWords | src/main/java/org/ggp/base/util/statemachine/implementation/heavensbeepropnet/HeavensbeeMachineState.java:31-35 | The hash depends only on the words in use: zero words above the highest set bit do not change it. |
| BitSets.EmptyHash | src/main/java/org/ggp/base/util/statemachine/implementation/heavensbeepropnet/HeavensbeeMachineState.java:31-35 | The empty bit set hashes to 1234. |
| MachineStates.MachineState.constructor | src/main/java/org/ggp/base/util/statemachine/implementation/heavensbeepropnet/HeavensbeeMachineState.java:19-24 | A new snapshot holds the given bits and is not cached. |
| MachineStates.MachineState.HashCode | src/main/java/org/ggp/base/util/statemachine/implementation/heavensbeepropnet/HeavensbeeMachineState.java:31-35 | The snapshot's hash is a 32-bit integer. |
| MachineStates.MachineState.Clone | src/main/java/org/ggp/base/util/statemachine/implementation/heavensbeepropnet/HeavensbeeMachineState.java:42-53 | A clone is a fresh, equal snapshot (both ways round) with no cache. |
| MachineStates.MachineState.SetCache | src/main/java/org/ggp/base/util/statemachine/implementation/heavensbeepropnet/HeavensbeeMachineState.java:105-110 | Afterwards the snapshot is cached and holds both given vectors. |
| MachineStates.MachineState.CheckCache | src/main/java/org/ggp/base/util/statemachine/implementation/heavensbeepropnet/HeavensbeeMachineState.java:82-99 | Reports a current and a next mismatch exactly when the cached vector is missing or differs, and changes nothing. |
| MachineStates.EqualsHash | src/main/java/org/ggp/base/util/statemachine/implementation/heavensbeepropnet/HeavensbeeMachineState.java:55-65 | Equality of snapshots is reflexive and symmetric, and equal snapshots hash alike. |
| Elision.SpliceView | src/main/java/org/ggp/base/util/propnet/architecture/PropNet.java:238-245 | The six edge operations leave the view with no edges and let its input feed its output in its place; every other list is unchanged. |
| Elision.SpliceEnds | src/main/java/org/ggp/base/util/propnet/architecture/PropNet.java:224-230 | A spliceable view's input and output are live and distinct from it and from each other, the input is not a transition, and each end lists the view once. |
| Elision.SpliceWired | src/main/java/org/ggp/base/util/propnet/architecture/PropNet.java:211-264 | Splicing a view out leaves the rest of the network wired: closed, mirrored, leveled and with the arities of NOT gates and transitions. |
| Elision.SplicePointless | src/main/java/org/ggp/base/util/propnet/architecture/PropNet.java:211-264 | Splicing one view out does not change whether any other component is a spliceable view or a base proposition. |
| Elision.SpliceOut | src/main/java/org/ggp/base/util/propnet/architecture/PropNet.java:211-264 | Splicing keeps the network wired without the view, empties the view's lists, and keeps every other component's classification. |
| Elision.ElideViews | src/main/java/org/ggp/base/util/propnet/architecture/PropNet.java:211-264 | The kept set is exactly the live components that were not single-output views. The rest stays wired, no kept component is such a view any more, the removed views have no edges, and base classification is unchanged. |
| Pruning.Unvisited | src/main/java/org/ggp/base/util/propnet/architecture/PropNet.java:303-330 | The neighbours the search still has to visit: exactly the unvisited members of the list. |
| Pruning.AppendUnvisited | src/main/java/org/ggp/base/util/propnet/architecture/PropNet.java:303-330 | The loop that extends the to-visit list appends exactly the unvisited neighbours. |
| Pruning.Reach | src/main/java/org/ggp/base/util/propnet/architecture/PropNet.java:303-330 | The search from `terminal` visits a closed set holding it that is contained in every closed set holding it: exactly what is connected to `terminal`. |
| Pruning.WiredPart | src/main/java/org/ggp/base/util/propnet/architecture/PropNet.java:336-353 | A closed part of a wired network is wired. |
| Pruning.PruneUnreached | src/main/java/org/ggp/base/util/propnet/architecture/PropNet.java:266-356 | Without a terminal proposition the components are left as they were. Otherwise the kept set holds `terminal`, is wired, and is the least closed set around it. |
| Recording.FindProposition | src/main/java/org/ggp/base/util/propnet/architecture/PropNet.java:732-747 | The search returns a proposition with the wanted name, and returns none exactly when no proposition has it. |
| Recording.RecordPropositions | src/main/java/org/ggp/base/util/propnet/architecture/PropNet.java:715-725 | The recorded propositions are exactly the live components that are propositions. |
| Recording.NumberWhere | src/main/java/org/ggp/base/util/propnet/architecture/PropNet.java:589-604 | The selected components get distinct slots from the counter on, each slot maps back to its component, earlier slots keep theirs, and the name index records exactly the selected propositions. |
| Recording.SetupIndices | src/main/java/org/ggp/base/util/propnet/architecture/PropNet.java:749-770 | Slots are distinct and consecutive from 0, handed out tier by tier (base, input, other propositions, gates), and the base and input indices name exactly the base and input propositions. |
| Recording.TiersInOrder | src/main/java/org/ggp/base/util/propnet/architecture/PropNet.java:749-770 | A component of a lower tier always has a lower slot than one of a higher tier. |
| Recording.BaseRecorded | src/main/java/org/ggp/base/util/propnet/architecture/PropNet.java:589-604 | The base index names live base propositions under their own names, and every base proposition is in it. |
| Recording.InputsRecorded | src/main/java/org/ggp/base/util/propnet/architecture/PropNet.java:665-680 | The input index names live input propositions under their own names, and every input proposition is in it. |
| Recording.RecordByRole | src/main/java/org/ggp/base/util/propnet/architecture/PropNet.java:687-708 | Each role maps to exactly its legal (or goal) propositions, and a role with none has no entry. |
| Recording.FiledUnderRole | src/main/java/org/ggp/base/util/propnet/architecture/PropNet.java:616-637 | Every goal (or legal) proposition is filed under the role its first argument names. |
| Recording.InputsByBody | src/main/java/org/ggp/base/util/propnet/architecture/PropNet.java:434-455 | The body index maps each input proposition's argument list to an input with that body, and every input's body is indexed. |
| Recording.MakeLegalInputMap | src/main/java/org/ggp/base/util/propnet/architecture/PropNet.java:434-455 | Each entry pairs an input and a legal proposition with the same body. Every legal with a matching input is paired, and with unique bodies the map goes both ways. |
| Ranking.SetupVisitorRoot | src/main/java/org/ggp/base/util/propnet/architecture/PropNet.java:772-787 | The synthetic root's outputs are, each once, exactly the live components with no inputs and some outputs (or, for the corrected walk, the live components all of whose inputs are transitions). |
| Ranking.Visit | src/main/java/org/ggp/base/util/propnet/architecture/PropNet.java:405-422 | The depth-first visit leaves exactly the trace `Walk` defines: nothing new when the component is already traced, otherwise the component, then each child's visit in list order followed by the component again. |
| Ranking.Walk | src/main/java/org/ggp/base/util/propnet/architecture/PropNet.java:405-422 | The visit's trace extends the trace it starts from and holds the visited component. |
| Ranking.WalkVisits | src/main/java/org/ggp/base/util/propnet/architecture/PropNet.java:405-422 | A visit appends only the visited component and components not traced before, ends with the visited component, and leaves nothing new when it was already traced. Every newly traced component has all its children traced, is led to from the visited component, and each child last sighted after it leads back to it (the trace is a depth-first post-order). |
| Ranking.LastKept | src/main/java/org/ggp/base/util/propnet/architecture/PropNet.java:371-403 | Extending a trace with entries other than a component keeps that component's last sighting, the position the reverse scan ranks it by. |
| Ranking.SetupVisitationList | src/main/java/org/ggp/base/util/propnet/architecture/PropNet.java:371-403 | Ranks 0, 1, 2 … go to distinct components, exactly those the walk sighted other than the root, in decreasing order of their last sighting in the trace; only ranks change, and unranked components keep their old rank. |
| Ranking.RankedReached | src/main/java/org/ggp/base/util/propnet/architecture/PropNet.java:371-422 | The ranked components are exactly those the synthetic root leads to. |
| Ranking.RankedBackEdges | src/main/java/org/ggp/base/util/propnet/architecture/PropNet.java:371-422 | Every child of a ranked component is ranked, and a child ranked below its parent leads back to it: every edge ranked backward closes a cycle (the reverse post-order property). |
| Ranking.RankedLive | src/main/java/org/ggp/base/util/propnet/architecture/PropNet.java:371-422 | When the root points at live components only, every ranked component is live. |
| Ranking.CutRanksTopological | src/main/java/org/ggp/base/util/propnet/architecture/PropNet.java:371-422 | With the corrected root and a walk that stops at transitions, exactly the live components are ranked and the ranks are topological. |
| Construction.PruneComponents | src/main/java/org/ggp/base/util/propnet/architecture/PropNet.java:163-166 | After elision and pruning the network is wired, has no single-output views, and is exactly what is connected to `terminal` (or every kept component when there is none). |
| Construction.NumberComponents | src/main/java/org/ggp/base/util/propnet/architecture/PropNet.java:178-188 | Slot numbering yields the tiered, consecutive indexing and the base and input indices. |
| Construction.FilePropositions | src/main/java/org/ggp/base/util/propnet/architecture/PropNet.java:190-195 | Legal and goal propositions are filed by role, the init and terminal propositions are found when present, and legal and input propositions are paired. |
| Construction.RankComponents | src/main/java/org/ggp/base/util/propnet/architecture/PropNet.java:197-201 | The source's ranking: the root points at the components without inputs that have outputs, and the ranks are the reverse post-order of the walk's trace (`Ranked`), so exactly the components the root leads to are ranked, each ranked one lies among the components, and unranked ones keep their rank. |
| Construction.RankTopologically | src/main/java/org/ggp/base/util/propnet/architecture/PropNet.java:197-201 | The corrected ranking ranks exactly the components, and the ranks are topological. |
| Construction.SourceRanksBackward | src/main/java/org/ggp/base/util/propnet/architecture/PropNet.java:371-422 | On a well-formed network where a proposition without inputs feeds an OR, which feeds a transition into a base proposition that feeds the OR back, the source's ranks are not topological. |
| Removal.DropFromOutputs | src/main/java/org/ggp/base/util/propnet/architecture/PropNet.java:878-879 | Every input of the removed component loses it from its output list, as many times as it was listed, and nothing else changes. |
| Removal.DropFromInputs | src/main/java/org/ggp/base/util/propnet/architecture/PropNet.java:880-881 | Every output of the removed component loses it from its input list, and nothing else changes. |
| Removal.Unlink | src/main/java/org/ggp/base/util/propnet/architecture/PropNet.java:875-881 | No neighbour keeps an edge to the removed component; all other edges are unchanged. |
| Removal.UnlinkedRest | src/main/java/org/ggp/base/util/propnet/architecture/PropNet.java:875-881 | After unlinking, the remaining components stay closed and mirrored and none of them mentions the removed one. |
| Removal.Unpair | src/main/java/org/ggp/base/util/propnet/architecture/PropNet.java:849-853 | Unpairing removes both directions of the pair and keeps every other entry. |
| Removal.UnpairInvolution | src/main/java/org/ggp/base/util/propnet/architecture/PropNet.java:849-853 | A pairing that goes both ways still does after unpairing, and mentions the removed proposition nowhere. |
| Removal.DropFiled | src/main/java/org/ggp/base/util/propnet/architecture/PropNet.java:859-871 | The proposition leaves every role's set, and nothing else leaves. |
| Removal.DropLegal | src/main/java/org/ggp/base/util/propnet/architecture/PropNet.java:859-868 | The legal loop drops the proposition from every role's set and unpairs it when some set held it. |
| Removal.DropGoal | src/main/java/org/ggp/base/util/propnet/architecture/PropNet.java:869-871 | The goal loop drops the proposition from every role's set. |
| Removal.StrikeBooked | src/main/java/org/ggp/base/util/propnet/architecture/PropNet.java:841-874 | Removing an unprotected component keeps the bookkeeping consistent and leaves no mention of it. |
| Removal.StrikeBooks | src/main/java/org/ggp/base/util/propnet/architecture/PropNet.java:841-874 | Removal is refused exactly for the `INIT` and `terminal` propositions that are neither base nor input; otherwise the books are struck. |
| PropNets.TransitionSlotsClear | src/main/java/org/ggp/base/util/propnet/architecture/components/Transition.java:23-28 | When only base slots of the next vector are set, no transition's own slot is set, so `getValue` of a transition is false. |
| PropNets.NextOnBasesUpdate | src/main/java/org/ggp/base/util/propnet/architecture/components/Transition.java:55-79 | Updates only ever set base-proposition slots of the next vector. |
| PropNets.BuildTarget | src/main/java/org/ggp/base/util/propnet/architecture/PropNet.java:1095-1148 | The target is the pristine vector OR the state's bits OR the slots of the moves that have input propositions OR, when asked, the init slot. |
| PropNets.MarkSlots | src/main/java/org/ggp/base/util/propnet/architecture/PropNet.java:1170-1194 | Every slot where the previous and the new target differ is queued, and its proposition's explicit value is set to the new bit; equal slots are neither queued nor changed. |
| PropNets.MarkDiffering | src/main/java/org/ggp/base/util/propnet/architecture/PropNet.java:1157-1194 | Marking keeps the shape, makes the explicit values track the new target, and leaves every live component queued or consistent. With an unchanged target it queues nothing and changes nothing. |
| PropNets.SettledIsEval | src/main/java/org/ggp/base/util/propnet/architecture/PropNet.java:62-76 | In a settled network every non-transition bit is the circuit's evaluation under the forced target, and every transition's written next bit is its evaluation. |
| PropNets.NextStateIsEval | src/main/java/org/ggp/base/util/propnet/architecture/PropNet.java:62-76 | A settled network's next vector holds only base slots, and a base slot is set exactly when its transition evaluates to true. |
| PropNets.Build | src/main/java/org/ggp/base/util/propnet/architecture/PropNet.java:163-201 | The constructor's passes in order leave a pruned, numbered, filed and ranked network ready for queries, with topological ranks. |
| PropNets.Create | src/main/java/org/ggp/base/util/propnet/architecture/PropNet.java:152-209 | Construction ends ready and recorded, with the current target being the components' own vector, the pristine vector primed, topological ranks and a settled network. |
| PropNets.Start | src/main/java/org/ggp/base/util/propnet/architecture/PropNet.java:174-208 | The network is set up over the assembled parts with cleared vectors, ready for queries; the first propagation primes the pristine vector and, when ranks are topological, leaves the network settled. |
| PropNets.PropNet.constructor | src/main/java/org/ggp/base/util/propnet/architecture/PropNet.java:156-176 | The network takes over the parts, with both vectors cleared and the current target aliasing the components' vector. |
| PropNets.PropNet.UpdateSources | src/main/java/org/ggp/base/util/propnet/architecture/PropNet.java:1015-1023 | The first updates run only NOT gates and constants: afterwards every constant holds its value, no other slot but a NOT gate's is set, the next vector is unchanged, and the queued components are keyed by rank. |
| PropNets.PropNet.KeepSources | src/main/java/org/ggp/base/util/propnet/architecture/PropNet.java:1005-1031 | The pristine vector is a fresh copy taken after the NOT and constant updates: constants hold their values and no other slot but a NOT gate's is set; the returned worklist is keyed. |
| PropNets.PropNet.InitialPropagate | src/main/java/org/ggp/base/util/propnet/architecture/PropNet.java:1005-1044 | The source's first propagation: the pristine vector is primed and the worklist the NOT and constant updates filled is drained. |
| PropNets.PropNet.InitialPropagateSeeded | src/main/java/org/ggp/base/util/propnet/architecture/PropNet.java:1005-1044 | The corrected first propagation, which drains a worklist holding every component, primes the pristine vector and, when ranks are topological, leaves every component consistent. |
| PropNets.InitialPropagateStale | src/main/java/org/ggp/base/util/propnet/architecture/PropNet.java:1005-1044 | On a chain of a given proposition and alternating negations and one-input ORs, with topological ranks and no AND gate, a run of the source's first propagation ends with the last negation inconsistent. |
| PropNets.ChainNotTarget | src/main/java/org/ggp/base/util/propnet/architecture/components/Not.java:47-81 | On that chain a negation computes the negation of what the negation two before it stores (or of the given proposition), reading through the OR between them. |
| PropNets.ChainOrTarget | src/main/java/org/ggp/base/util/propnet/architecture/components/Or.java:58-104 | On that chain an OR computes what the negation before it stores. |
| PropNets.OrCopies | src/main/java/org/ggp/base/util/propnet/architecture/components/Or.java:21-31 | An OR with one input that is no OR reports and computes what that input stores. |
| PropNets.NegationReads | src/main/java/org/ggp/base/util/propnet/architecture/components/Not.java:47-81 | A negation computes the negation of what its single input reports. |
| PropNets.PropNet.MarkThings | src/main/java/org/ggp/base/util/propnet/architecture/PropNet.java:1088-1197 | The new target is `Forced`, the worklist is keyed, and every live component whose slot changed is queued; re-forcing the same target queues nothing and changes nothing. |
| PropNets.PropNet.ForwardProp | src/main/java/org/ggp/base/util/propnet/architecture/PropNet.java:911-939 | Draining the worklist lowest rank first ends with every component consistent when ranks are topological; an empty worklist changes nothing. |
| PropNets.PropNet.ForceAndDrain | src/main/java/org/ggp/base/util/propnet/architecture/PropNet.java:1071-1087 | Forcing and draining settles the network on the new target when ranks are topological; re-forcing the same target changes nothing. |
| PropNets.PropNet.ForceState | src/main/java/org/ggp/base/util/propnet/architecture/PropNet.java:1071-1074 | Forcing only a state's bits keeps the network settled and makes `Forced(pristine, bits, {})` the current target. |
| PropNets.PropNet.GetStateFromBase | src/main/java/org/ggp/base/util/propnet/architecture/PropNet.java:887-890 | The snapshot holds exactly the set bits of the next vector, all of them base slots, and is not cached. |
| PropNets.PropNet.MarkInit | src/main/java/org/ggp/base/util/propnet/architecture/PropNet.java:892-909 | Forces only the init slot over the pristine vector, drains, and returns the next vector's bits. |
| PropNets.PropNet.RemoveComponent | src/main/java/org/ggp/base/util/propnet/architecture/PropNet.java:837-885 | Refused exactly for the protected names, with nothing changed. Otherwise the books are struck, the component leaves `components`, and it is unlinked from its neighbours. |
| StateMachines.GetMoveFromProposition | src/main/java/org/ggp/base/util/statemachine/implementation/heavensbeepropnet/HeavensbeePropNetStateMachine.java:395-398 | A legal proposition yields a move exactly when its relation has a second argument. |
| StateMachines.GetGoalValue | src/main/java/org/ggp/base/util/statemachine/implementation/heavensbeepropnet/HeavensbeePropNetStateMachine.java:405-410 | A goal proposition yields a 32-bit reward exactly when its second argument is a constant that parses as a 32-bit integer. |
| StateMachines.LegalMoveRoundTrip | src/main/java/org/ggp/base/util/statemachine/implementation/heavensbeepropnet/HeavensbeePropNetStateMachine.java:395-398 | The legal and `does` sentences of a role's move both name that move back. |
| StateMachines.GoalValueRoundTrip | src/main/java/org/ggp/base/util/statemachine/implementation/heavensbeepropnet/HeavensbeePropNetStateMachine.java:405-410 | `(goal r n)` yields `n` for every 32-bit `n`. |
| StateMachines.JointDoes | src/main/java/org/ggp/base/util/statemachine/implementation/heavensbeepropnet/HeavensbeePropNetStateMachine.java:372-388 | One `does` sentence per role, in role order, the i-th role playing the i-th move. |
| StateMachines.JointDoesNamesMoves | src/main/java/org/ggp/base/util/statemachine/implementation/heavensbeepropnet/HeavensbeePropNetStateMachine.java:372-388 | Each `does` sentence of a joint move names back the move of its role. |
| StateMachines.ToDoes | src/main/java/org/ggp/base/util/statemachine/implementation/heavensbeepropnet/HeavensbeePropNetStateMachine.java:372-388 | Fails exactly when there are fewer moves than roles; otherwise returns the joint move's `does` sentences, ignoring extra moves. |
| StateMachines.CountTrue | src/main/java/org/ggp/base/util/statemachine/implementation/heavensbeepropnet/HeavensbeePropNetStateMachine.java:143-154 | Counts exactly the true members of the set and remembers one of them when there is one. |
| StateMachines.PickGoal | src/main/java/org/ggp/base/util/statemachine/implementation/heavensbeepropnet/HeavensbeePropNetStateMachine.java:143-166 | A goal-definition error exactly when the number of true goal propositions is not one; otherwise the reward named by that one proposition. |
| StateMachines.CollectMoves | src/main/java/org/ggp/base/util/statemachine/implementation/heavensbeepropnet/HeavensbeePropNetStateMachine.java:210-243 | No true legal proposition is one error and a true one naming no move another; otherwise one move per true legal proposition, each the move its proposition names. |
| StateMachines.StateMachine.constructor | src/main/java/org/ggp/base/util/statemachine/implementation/heavensbeepropnet/HeavensbeePropNetStateMachine.java:66-81 | The machine wraps the network and takes its roles. |
| StateMachines.StateMachine.GetRoles | src/main/java/org/ggp/base/util/statemachine/implementation/heavensbeepropnet/HeavensbeePropNetStateMachine.java:355-357 | The roles are the network's roles. |
| StateMachines.StateMachine.IsTerminal | src/main/java/org/ggp/base/util/statemachine/implementation/heavensbeepropnet/HeavensbeePropNetStateMachine.java:88-113 | Forces the state with no moves, drains, and returns the terminal proposition's bit. |
| StateMachines.StateMachine.TrueIsEval | src/main/java/org/ggp/base/util/statemachine/implementation/heavensbeepropnet/HeavensbeePropNetStateMachine.java:143-154 | In a settled network, a recorded proposition is true exactly when it evaluates to true under the forced target. |
| StateMachines.StateMachine.GetGoal | src/main/java/org/ggp/base/util/statemachine/implementation/heavensbeepropnet/HeavensbeePropNetStateMachine.java:123-167 | After forcing and draining, an error exactly when not exactly one of the role's goal propositions is true; otherwise that proposition's reward. |
| StateMachines.StateMachine.RecheckLegal | src/main/java/org/ggp/base/util/statemachine/implementation/heavensbeepropnet/HeavensbeePropNetStateMachine.java:228-243 | Forcing the same state again before the no-legal-moves error changes nothing. |
| StateMachines.StateMachine.GetLegalMoves | src/main/java/org/ggp/base/util/statemachine/implementation/heavensbeepropnet/HeavensbeePropNetStateMachine.java:185-249 | After forcing and draining, one move per true legal proposition of the role, or the no-legal-moves (or malformed) error. |
| StateMachines.StateMachine.GetNextState | src/main/java/org/ggp/base/util/statemachine/implementation/heavensbeepropnet/HeavensbeePropNetStateMachine.java:255-296 | Too few moves is an error with nothing changed. Otherwise the state and the moves' inputs are forced and the network drained; when ranks are topological and the network was settled before, the result's bits are the next-state evaluation of every base proposition. |
| StateMachines.StateMachine.GetInitialState | src/main/java/org/ggp/base/util/statemachine/implementation/heavensbeepropnet/HeavensbeePropNetStateMachine.java:175-179 | Forces only the init slot over the pristine vector, drains, and returns the next vector's bits. |

## Left out

- PropNets.PropNet.ForwardProp: settlement after a drain is proved only when ranks are topological (every input that is not a transition ranked below its reader). The source's ranks are not topological once the root leads into a cycle (see "## Findings"); the construction ranks with the corrected walk, whose ranks are. `DrainStep`, `ForceAndDrain`, the queries and `Settled` carry the same premise.
- PropNets.PropNet.InitialPropagate: does not claim that the network is settled afterwards, because the source's first propagation need not settle it (see "## Findings"). The construction runs `InitialPropagateSeeded` instead.
- PropNets.PropNet.RemoveComponent: does not restore the query invariant `Ready`. As in the source, it leaves the slot map, the slots, the ranks and the ordering as they were, so a removed component's slot stays allocated.
- Removal.Protected: the `INIT` and `terminal` checks compare names by value. The source compares against the pooled `GdlPool` sentences by reference, which is the same thing only while every sentence is pooled. A proposition recorded as init under another letter case (`init`) is not protected.
- Removal.StrikeBooked: the bookkeeping invariant `Booked` is a premise, not proved from construction. In particular, the two-way legal/input pairing holds only when bodies are unique and input and legal propositions differ, which construction proves only under those conditions.
- The factory's guarantees are premises of construction:
  - the wired shape (mirrored edge lists, NOT gates and transitions with one input, transitions feeding base propositions, every cycle through a transition);
  - unique proposition names;
  - no proposition both base and input;
  - legal and goal sentences naming a role.
  `OptimizingPropNetFactory` is not part of this model, so `initialize` is modelled by the state machine's constructor taking a network.
- Recording.SetupIndices: slots are distinct, consecutive from 0 and handed out tier by tier. The sizes of the tiers (how many base or input slots there are) are not tracked.
- Iteration order of `HashSet` and `HashMap` (components, propositions, legal and goal sets) is an arbitrary choice (`:|`). So slot order within a tier, the order of legal moves and which proposition a name search finds first are left open.
- StateMachines.ToDoes: looks up each role's move by position in the role list, which equals the source's role-index lookup only when roles are distinct.
- Gdl.ParseInt: accepts ASCII digits only. `Integer.parseInt` also accepts other Unicode decimal digits.
- Gdl.ToUpper: maps ASCII letters only. `String.toUpperCase` also maps non-ASCII letters.
- Crashes of the source on states it cannot hold are preconditions, not error results:
  - a missing `terminal` or `INIT` proposition when a query needs it;
  - a role without goal or legal propositions (a missing map key);
  - a machine state whose bits lie outside the vectors.
- BitSets are modelled as sets of naturals. The engine's vectors are fixed-length `array<bool>`, and `BitSet` growth is not modelled.
- The per-state cache path is modelled only as the snapshot's cache fields. `use_cache_if_there` always answers false, and `cache_marked_bases` is called from nowhere in the queries, so neither is part of this model.
- Logging, tracing and diagnostics are left out: `GamerLogger` calls, the `tracing` flag, the `checkset` argument, `renderToFile` (and the timestamp it uses), `toString`, `toDotFormat`, `printTree`, `reveal_hbstate`, `check_transitions`, `check_transition`, `check_component` and `check_legal_props`. None of them changes the network.
- `getOrdering` always throws and is left out, and so are the unused `markbases`, `markactions` and `addComponent`.
- `VisitorComp` appears only as the synthetic root handle of the depth-first ranking.
- The move-selection players, the older `heavensbeeold` prototype and the search-layer exception are not part of this model.
- `getNumAnds`, `getNumOrs`, `getNumNots`, `getNumLinks`, `getSize` and the plain getters are left out. They count or return fields without changing anything.

## Findings

| source | as written | input that shows it | evidently intended | confidence | as-written member | corrected member |
|---|---|---|---|---|---|---|
| src/main/java/org/ggp/base/util/propnet/architecture/PropNet.java:371-422 | The visitor root points at the components without inputs that have outputs, and the walk follows every output edge, transitions included; ranks are the reverse post-order of its trace. | A proposition `a` without inputs feeds an OR, the OR a transition, the transition a base proposition `b`, and `b` the OR: the walk reaches `b` only through the OR, so `a`, the OR, the transition and `b` get ranks 0 to 3 although `b` feeds the OR. The drain then can update the OR before `b`. | Ranks kept in `topological_ordering` are topological: every input that is not a transition ranks below its reader, which the drain needs to settle the network. | not executed | Construction.RankComponents, Construction.SourceRanksBackward | Construction.RankTopologically |
| src/main/java/org/ggp/base/util/propnet/architecture/PropNet.java:1005-1044 | The first drain is seeded only with what the NOT and constant updates queue. | A given proposition `z`, then alternately a NOT and a one-input OR, six components in all, with topological ranks. With the NOT updates running in the order 3, 5, 1, the drain updates the ORs and NOT 3 again but never NOT 5, which ends false although the OR it reads is false. | The first propagation leaves the pristine state settled: every component holds its gate function of its inputs. | not executed; depends on the iteration order of the component set | PropNets.PropNet.InitialPropagate, PropNets.InitialPropagateStale | PropNets.PropNet.InitialPropagateSeeded |
