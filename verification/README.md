# NAO choreography planner — a Dafny model

The planner looks for a dance for the NAO robot. The dance is a sequence of
moves that:

- starts at a start pose and ends at a goal pose;
- performs every mandatory move;
- stays inside a time budget;
- follows a compatibility graph that says which move may follow which.

The repository has three variants of this planner, and this project models
the planning core of each.

**The freshness planner** (`DanceProblem` of `src/dance.py`) is module
`FreshnessPlanner`. Its properties are in `FreshnessProperties`.

- A state is the current move, the pending mandatory moves, the elapsed time
  and a per-move "freshness" score vector.
- A step charges the move's own execution time and never repeats the
  current move.
- The step cost rewards stale moves and penalises two mandatory moves in a
  row.

**The transition planner** (`DanceProblem` of `src/dance_planning.py`) is
module `TransitionPlanner`. Its properties are in `TransitionProperties`.

- A state is the current move, the pending mandatory moves and the elapsed
  time.
- A step charges the transition time of the edge it takes.
- A goal state must end inside a tolerance window below the time limit.

Both variants hand their problem to an external A* engine. The model
therefore gives each one the same three things:

- `Run` folds a plan through `actions` and `result`.
- `Solution` is a plan that `actions` offers step by step and that ends in a
  state passing `goal_test`.
- `ValidChoreography` describes the same plans without the state machine.
  An if-and-only-if lemma connects the two.

**The hand-written planner of `src/a.py`** has two parts.

- `ShortestPath` models `a_star_planner`, a best-first search with a zero
  heuristic, i.e. Dijkstra's algorithm. It is an imperative loop over a
  sequence-backed priority queue. Ghost bookkeeping proves that it
  terminates, that a returned path is a cheapest walk, and that "no path"
  means no walk of finite cost exists.
- `Choreography` models `generate_full_choreography`, which chains one
  cheapest walk per segment between consecutive mandatory positions.
  `Chain` holds the facts about the chained sequence.

`Basics` holds the shared vocabulary:

- moves as names. `src/dance.py` compares and hashes its moves by name.
  The `Move` of `src/dance_planning.py` compares by object identity. That
  agrees with comparing by name because its catalogue builds one object per
  name;
- `Option`;
- `ExtReal`, which is `Fin(r)` or `Inf` for `float('inf')`;
- the pending-set update.

`MoveGraph` holds `src/a.py`'s move graph, its walks and their costs.

Times, scores and costs are exact `real`s.

## Model

Some members are plain definitions with no contract of their own. Their properties are stated by the lemma rows that cite the same lines:

- `GoalTest` of both variants: `SolutionIsValidChoreography`, and `GoalTestBudgetRedundant` for the freshness planner;
- `FreshnessPlanner.H`: `HPruneSoundUnlessFinished`, `HRefinedBelowH` and `HInfiniteAtReachableGoal`;
- `FreshnessPlanner.Rate`: the `Refresh` and `Result` rows;
- `Choreography.Segments` (StandInit followed by the goals): `GenerateFullChoreography`.

| member | source | states |
|---|---|---|
| Basics.Discharge | src/dance.py:122-125 | Removing the performed move from the pending set never grows the set, always leaves the move out, shrinks the set by exactly one when the move was pending, and otherwise changes nothing. |
| FreshnessPlanner.AddCompatibles | src/dance.py:40-41 | `add_compatibles` adds exactly the given targets to one move's successor set. It leaves every other move, and every duration, as it was. |
| FreshnessPlanner.AddCompatiblesCommutes | src/dance.py:40-41 | Because successors form a set, two `add_compatibles` calls give the same graph in either order, and repeating a call changes nothing. |
| FreshnessPlanner.Init | src/dance.py:78-87 | The initial state is the start move with the whole mandatory set still pending. The start move stays pending even when it is mandatory. The start move's own execution time has already elapsed, and there is one zero score per entry of the move list. |
| FreshnessPlanner.Actions | src/dance.py:97-113 | Every returned move is a successor of the current move, fits the 110 s budget, and is not the current move. Every successor that passes both filters is returned, and none is returned twice. |
| FreshnessPlanner.Refresh | src/dance.py:127-136 | The score update keeps the vector's length. It resets exactly the slots holding the chosen move to 0, and adds to every other slot its move's partition rate, or 0.2 when the move has none. `FreshnessProperties.ScoresTrackStaleness` turns repeated updates into a closed form. |
| FreshnessPlanner.Result | src/dance.py:115-138 | The action becomes the current move and its execution time is added. The pending set loses the action and nothing else, so it shrinks by at most one. The score vector keeps its length: the action's slot resets to 0 and every other slot grows by its move's rate. |
| FreshnessPlanner.IndexOf | src/dance.py:72 | The slot `move_to_index` gives a move is a position holding that move with no later occurrence. There is no slot exactly when the move is not in the move list. |
| FreshnessPlanner.PathCost | src/dance.py:140-156 | The step adds the move's execution time, minus 10 times its score taken BEFORE the reset. It adds 50 exactly when both moves are mandatory and the previous move is not StandInit. A move without a score slot is a lookup failure. |
| FreshnessProperties.HRefinedBelowH | src/dance.py:158-169 | With non-negative durations, the corrected heuristic never estimates more than `h`. It differs from `h` only at a finished state (at the goal with nothing pending) within budget, and there it is strictly smaller whenever the goal move takes any time. |
| FreshnessProperties.RunEffects | src/dance.py:115-138 | After any successful plan, the current move is the plan's last move, and the pending set is the original minus exactly the performed moves. The elapsed time has grown by the sum of their durations, and the moves performed form a walk of the compatibility graph without an immediate repeat. |
| FreshnessProperties.RunWithinBudget | src/dance.py:100-105 | Every prefix of a successful plan stays within the 110 s budget. |
| FreshnessProperties.RunSucceedsIff | src/dance.py:97-113 | A plan is accepted step by step by `actions` exactly when it is a graph walk over catalogued moves, with no immediate repeat, and within budget at every step. |
| FreshnessProperties.SolutionIsValidChoreography | src/dance.py:171-178 | The plans the search may return are exactly the valid choreographies: walks without immediate repeats from the start to the goal, within budget at every step, performing every mandatory move. |
| FreshnessProperties.GoalTestBudgetRedundant | src/dance.py:171-178 | When the start move fits the budget, every reachable state is within budget. The goal test then reduces to "at the goal with nothing pending". |
| FreshnessProperties.ScoresTrackStaleness | src/dance.py:127-136 | After any plan, each move's score equals its rate accrued once per step since the move was last performed. If it was never performed, the count runs from the start. |
| FreshnessProperties.StepCostAfterPlan | src/dance.py:140-156 | The step cost of a move after a plan depends on the plan's history, through the staleness of that move. |
| FreshnessProperties.CompletionCoversTimeNeeded | src/dance.py:161-166 | If some continuation reaches a goal state from an unfinished state, the elapsed time plus the heuristic's time still needed fits the budget. |
| FreshnessProperties.HPruneSoundUnlessFinished | src/dance.py:166-167 | Away from finished states, `h` is infinite only where no continuation can reach a goal state. |
| FreshnessProperties.HRefinedPruneSound | src/dance.py:158-169 | The corrected heuristic is finite at every state from which a goal state is reachable. |
| FreshnessProperties.HInfiniteAtReachableGoal | src/dance.py:161-169 | `h` as written is infinite at a goal state that the search reaches (see Findings). |
| TransitionPlanner.Init | src/dance_planning.py:52-58 | The initial state is the start move with the whole mandatory set pending (the start move included) and no time elapsed. |
| TransitionPlanner.Actions | src/dance_planning.py:62-74 | A move is returned exactly when it has an edge from the current move and that edge's transition time keeps the elapsed time within 120 s. Self-loops are kept, and no move is returned twice. |
| TransitionPlanner.Result | src/dance_planning.py:76-94 | The action becomes the current move, and the transition time of the edge taken (not the move's duration) is added. The pending set loses the action and is otherwise unchanged. An action that is not an edge is a lookup failure. |
| TransitionPlanner.PathCost | src/dance_planning.py:111-120 | The step cost fails, as a dictionary lookup would, exactly when the action is not an edge of the current move. Its value is stated by `TransitionProperties.PathCostHistoryIndependent`. |
| TransitionPlanner.MinValue | src/dance_planning.py:134 | `min` of a non-empty edge map is at most every transition time and equal to one of them. |
| TransitionPlanner.H | src/dance_planning.py:128-136 | `h` is infinite exactly when the time limit is already exceeded. It fails, because `min` of an empty sequence raises, exactly when it is within the limit and the current move has no outgoing edge. |
| TransitionPlanner.HPricesPending | src/dance_planning.py:133-136 | Otherwise `h` is the cheapest edge leaving the current move, counted once per pending move. With nothing pending it is 0. |
| TransitionProperties.RunWalk | src/dance_planning.py:83-84 | Along a successful plan, the performed moves form a walk of the edge graph, and the elapsed time grows by exactly the walk's total transition time. |
| TransitionProperties.RunPending | src/dance_planning.py:86-92 | After a successful plan, the pending set is the original minus exactly the performed moves. |
| TransitionProperties.ReachableWithinLimit | src/dance_planning.py:69-74 | Every state reachable from the initial state is within the 120 s limit. |
| TransitionProperties.RunSucceedsIff | src/dance_planning.py:62-74 | A plan is accepted step by step exactly when it walks the edge graph and every prefix stays within the time limit. |
| TransitionProperties.SolutionIsValidChoreography | src/dance_planning.py:96-109 | The plans the search may return are exactly the walks from the start that never exceed 120 s and end at the goal between 115 s and 120 s, having performed every mandatory move. |
| TransitionProperties.PathCostHistoryIndependent | src/dance_planning.py:111-120 | The step cost depends only on the edge taken and its target. Two states at the same move give the same cost whatever their pending set, elapsed time, history or successor state. |
| TransitionProperties.PlanCostIsTimeMinusAesthetic | src/dance_planning.py:111-120 | The cost of a successful plan is its elapsed transition time minus 0.1 times the total aesthetic score of the moves it performs. |
| TransitionProperties.PlanCostLowerBound | src/dance_planning.py:111-120 | A plan costs at least one cheapest catalog step per move it performs. |
| TransitionProperties.HGlobalAdmissible | src/dance_planning.py:122-136 | The corrected heuristic is admissible when step costs are non-negative: wherever a goal state is reachable, it is finite and at most the cost of the continuation. |
| TransitionProperties.HNotAdmissible | src/dance_planning.py:122-136 | `h` as written is not admissible, although its docstring says it is (see Findings). |
| MoveGraph.JoinWalks | src/a.py:171-177 | Appending a walk without its first position to a walk ending there gives a walk. Its cost is the sum of the two costs, and it ends where the second walk ends. |
| ShortestPath.PopMin | src/a.py:124 | The popped entry has the least cost `g` in the queue. |
| ShortestPath.Relax | src/a.py:129-140 | Each successor's best cost is lowered to the cost through the expanded entry when that is strictly smaller. A missing transition time costs infinity and never improves. Exactly the improved successors are pushed, each with the extended path and its cost, behind the old queue. Table entries only ever decrease. |
| ShortestPath.ExpandEntry | src/a.py:124-140 | Expanding a least entry that is not the goal keeps the rest of the queue in order, only lowers cost-table entries, and keeps the search invariant. It strictly shrinks the termination measure: either the set of paths never pushed, or the queue. |
| ShortestPath.FoundIsOptimal | src/a.py:126-127 | A least entry at the goal carries a walk from the start to the goal, without repeats, whose cost is the entry's cost. No walk between them costs less. |
| ShortestPath.NoPathIsSound | src/a.py:142 | When the queue empties, every walk from the start to the goal has infinite cost. |
| ShortestPath.AStarPlanner | src/a.py:113-142 | A found path walks the compatibility graph from start to goal without repeats, its cost is the sum of its transition times, and no walk between them is cheaper. No path is returned only when no walk of finite cost exists. From a position to itself the result is `([start], 0)`. |
| Chain.AppendFound | src/a.py:171-177 | Appending a cheapest walk to a chained sequence extends it. The first segment goes in whole, later ones without their first position. The sequence stays a walk whose cost is the running total and whose pieces are the cheapest segments. |
| Chain.ChainEnds | src/a.py:156-180 | A chained sequence starts at the first segment end point and ends at the last one. |
| Choreography.AppendSegment | src/a.py:160-178 | One segment fails exactly when its end is unreachable from its start: a found path is a walk of finite cost, so its end is reachable. Otherwise the chained sequence grows by a cheapest walk for that segment. |
| Choreography.GenerateFullChoreography | src/a.py:146-180 | The result is `([], 0)` exactly when the last goal is not Crouch or some segment is unreachable. Otherwise, in order: (1) the sequence starts at StandInit and ends at the last goal; (2) it passes through every goal in order; (3) consecutive pieces share only the goal between them, so no position is duplicated at a join; (4) it is a walk whose total time is its cost; (5) each piece between consecutive goals is a cheapest walk. |

## Left out

- Robot I/O: `Move.execute`, `execute_choreography`, the naoqi proxies, pygame music playback, and the placeholder modules of the `ImportError` fallback. None of them affects planning.
- The internals of the external A* engine (`aima.search.astar_search`) that drives both `DanceProblem` variants. The model states which plans the engine may return (`Solution`), but not that it returns a cheapest one.
- `src/dance_solver.py`, whose problem and solver are empty stubs.
- The `nodes_explored` counter, progress prints and the reporting blocks of the `__main__` sections.
- The concrete move catalogues, durations, aesthetic scores and edge tables. Every operation takes the catalog as a parameter. The shared default `compatibles` dict of `src/dance_planning.py` (all moves alias one dict) is not modelled as intended behaviour: each move's edges are taken as given.
- IEEE floating point: times, scores and costs are exact reals. A sum that rounds differently in the program is not modelled.
- FreshnessPlanner.Init: the move list is taken in the order given. The program sorts it by name first, which only fixes the slot order of the score vector.
- TransitionPlanner.Init: the model assumes that building the problem succeeds. In `src/dance_planning.py` the constructor calls the zero-argument `super()` (line 60), which only Python 3 accepts. The same file's print statements (lines 362-363) and its robot SDK need Python 2, where that call raises `TypeError`.
- ShortestPath.AStarPlanner: the heap's tie-break (by node name, then path) is not modelled. Any entry of least cost may be popped, and every property holds for each choice.
- ShortestPath.AStarPlanner: requires non-negative transition times. With a negative cycle the program's loop need not terminate, and Dijkstra's optimality fails. It also requires every successor of every position to be a key of the cost table. The program raises a `KeyError` only when it expands a position that has a successor outside the table. A graph where only unreachable positions have such successors runs normally in the program, but the model excludes it.
- Choreography.GenerateFullChoreography: requires a non-empty goal list, because the program indexes its last element. It also requires the cost-table condition of `AStarPlanner` for the start of every segment. That condition covers every position, not only those the search expands, so it is stronger than what the program needs to avoid a `KeyError`. The marks that locate each goal inside the sequence are ghost.
- FreshnessPlanner.H and FreshnessPlanner.HRefined are ghost functions, because they sum durations over a set, which has no executable order. TransitionPlanner.H and TransitionPlanner.HGlobal are ghost because they take a minimum chosen with `:|`. A* only needs their values.
- The A* engine's handling of an infinite heuristic (pruning versus popping last) is not modelled. The heuristic lemmas state where `h` is finite.

## Findings

| source | as written | input that shows it | evidently intended | confidence | as-written member | corrected member |
|---|---|---|---|---|---|---|
| src/dance.py:161-169 | `h` adds the goal's execution time whenever the goal is not pending, even at a state already at the goal with nothing pending, so it can return infinity at a goal state the search reaches | catalog A (108 s, successor Crouch) and Crouch (1.7 s), start A, goal Crouch, nothing mandatory: the plan [Crouch] ends at 109.7 s and passes `goal_test`, yet `h` there is 109.7 + 1.7 > 110, so infinity | infinity only where no continuation can finish in time; nothing more to perform at a finished state | not executed | FreshnessProperties.HInfiniteAtReachableGoal | FreshnessProperties.HRefinedPruneSound |
| src/dance_planning.py:122-136 | the heuristic documented as admissible prices each pending move at the cheapest edge leaving the CURRENT move | A→B 100 s, B→C 16 s, all aesthetic scores 0, B and C mandatory, start A, goal C: `h` at the start is 2 × 100 = 200, but the solution [B, C] costs 116 | a lower bound on the remaining cost: the cheapest step of the whole catalog, once per pending move | not executed | TransitionProperties.HNotAdmissible | TransitionProperties.HGlobalAdmissible |
