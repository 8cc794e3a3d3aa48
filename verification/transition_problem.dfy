/** The search problem of src/dance_planning.py: a state is (current move,
    pending mandatory moves, elapsed time). A step is charged the transition
    time of the edge it takes (not the target's own duration), self-loops are
    not filtered, and a goal state must end inside a tolerance window below
    the time limit. The step cost depends only on the edge and its target.

    As for the other variant, the A* engine is an external library; `Run`
    folds a plan through `Enabled` (the filter of `actions`) and `Result`, and
    `PlanCost` accumulates `path_cost` along it the way the engine's nodes do. */
module TransitionPlanner {
  import opened Basics

  const MaxTime: real := 120.0
  const TimeTol: real := 5.0
  const AestheticWeight: real := 0.1

  /** A catalog entry: the move's aesthetic score and the transition time of
      each edge leaving it. */
  datatype Move = Move(aesthetic: real, compatibles: map<Name, real>)

  datatype Problem = Problem(moves: map<Name, Move>, start: Name, goal: Name, mandatory: set<Name>)

  datatype State = State(current: Name, pending: set<Name>, elapsed: real)

  /** Every edge target is a catalogued move (in the program edge keys are
      Move objects). */
  predicate WellFormed(p: Problem)
  {
    && p.start in p.moves
    && forall u :: u in p.moves ==> p.moves[u].compatibles.Keys <= p.moves.Keys
  }

  /** The transition time of the edge `u -> v`. */
  function Transition(p: Problem, u: Name, v: Name): real
    requires u in p.moves && v in p.moves[u].compatibles
  {
    p.moves[u].compatibles[v]
  }

  /** What `path_cost` adds for the edge `u -> v`: its transition time minus
      the weighted aesthetic score of the target. */
  function StepCost(p: Problem, u: Name, v: Name): real
    requires WellFormed(p) && u in p.moves && v in p.moves[u].compatibles
  {
    Transition(p, u, v) - AestheticWeight * p.moves[v].aesthetic
  }

  // ---------------------------------------------------------------------
  // The problem interface
  // ---------------------------------------------------------------------

  /** The initial state: the start move, every mandatory move pending (the
      start move included), and no time elapsed. */
  function Init(p: Problem): (s: State)
    ensures s.current == p.start && s.pending == p.mandatory && s.elapsed == 0.0
  {
    State(p.start, p.mandatory, 0.0)
  }

  /** The filter applied by `actions`: an edge leaving the current move whose
      transition keeps the elapsed time within the limit. */
  predicate Enabled(p: Problem, s: State, m: Name)
  {
    && s.current in p.moves
    && m in p.moves[s.current].compatibles
    && s.elapsed + Transition(p, s.current, m) <= MaxTime
  }

  /** `actions`: walks the current move's outgoing edges and keeps those whose
      transition fits the time limit. A self-loop is kept like any edge. */
  method Actions(p: Problem, s: State) returns (valid: seq<Name>)
    requires s.current in p.moves
    ensures forall m :: m in valid <==> Enabled(p, s, m)
    ensures NoDup(valid)
  {
    var candidates := p.moves[s.current].compatibles.Keys;
    ghost var seen: set<Name> := {};
    valid := [];
    while candidates != {}
      invariant candidates + seen == p.moves[s.current].compatibles.Keys
      invariant candidates !! seen
      invariant forall m :: m in valid <==> m in seen && Enabled(p, s, m)
      invariant NoDup(valid)
      decreases |candidates|
    {
      var m :| m in candidates;
      candidates := candidates - {m};
      seen := seen + {m};
      var transitionTime := p.moves[s.current].compatibles[m];
      if s.elapsed + transitionTime <= MaxTime {
        NoDupSnoc(valid, m);
        valid := valid + [m];
      }
    }
  }

  /** `result`: move along the edge to `a`, charge its transition time and
      discharge `a` from the pending set. An action that is not an edge of
      the current move is a lookup failure. */
  function Result(p: Problem, s: State, a: Name): (r: Option<State>)
    requires s.current in p.moves
    ensures r.None? <==> a !in p.moves[s.current].compatibles
    ensures r.Some? ==>
      && r.value.current == a
      && r.value.elapsed == s.elapsed + Transition(p, s.current, a)
      && r.value.pending <= s.pending
      && a !in r.value.pending
      && (forall x :: x in s.pending && x != a ==> x in r.value.pending)
      && (a !in s.pending ==> r.value.pending == s.pending)
  {
    if a !in p.moves[s.current].compatibles then None
    else
      var transitionTime := p.moves[s.current].compatibles[a];
      Some(State(a, Discharge(s.pending, a), s.elapsed + transitionTime))
  }

  /** `goal_test`: at the goal, nothing pending, and the elapsed time inside
      the window [MaxTime - TimeTol, MaxTime]. */
  predicate GoalTest(p: Problem, s: State)
  {
    && s.current == p.goal
    && |s.pending| == 0
    && s.elapsed <= MaxTime
    && s.elapsed >= MaxTime - TimeTol
  }

  /** `path_cost`: `c` plus the step cost of the edge to `a`; a missing edge
      is a lookup failure. Neither the state after the step nor anything
      earlier than the current move enters it. */
  function PathCost(p: Problem, c: real, s1: State, a: Name, s2: State): (r: Option<real>)
    requires WellFormed(p) && s1.current in p.moves
    ensures r.None? <==> a !in p.moves[s1.current].compatibles
  {
    if a !in p.moves[s1.current].compatibles then None
    else
      var transitionTime := p.moves[s1.current].compatibles[a];
      Some(c + transitionTime - p.moves[a].aesthetic * AestheticWeight)
  }

  /** The smallest transition time of a non-empty edge map. */
  ghost function MinValue(edges: map<Name, real>): (r: real)
    requires |edges| > 0
    ensures forall v :: v in edges ==> r <= edges[v]
    ensures exists v :: v in edges && r == edges[v]
    decreases |edges|
  {
    var v :| v in edges;
    var rest := edges - {v};
    assert forall w :: w in edges && w != v ==> w in rest;
    if |rest| == 0 then
      edges[v]
    else
      var m := MinValue(rest);
      if edges[v] <= m then edges[v] else m
  }

  /** `h` as written: infinite past the time limit; otherwise the number of
      pending moves times the cheapest edge leaving the CURRENT move. With no
      edge leaving the current move, `min` of an empty sequence fails, which
      is `None` here. */
  ghost function H(p: Problem, s: State): (r: Option<ExtReal>)
    requires s.current in p.moves
    ensures r.Some? && r.value.Inf? <==> s.elapsed > MaxTime
    ensures r.None? <==> s.elapsed <= MaxTime && |p.moves[s.current].compatibles| == 0
  {
    var edges := p.moves[s.current].compatibles;
    if s.elapsed > MaxTime then Some(Inf)
    else if |edges| == 0 then None
    else
      var minOut := MinValue(edges);
      var missing := |s.pending| as real;
      Some(Fin(missing * minOut))
  }

  /** Within the time limit, `h` prices every pending move at the cheapest
      edge leaving the current move. */
  lemma HPricesPending(p: Problem, s: State)
    requires s.current in p.moves && s.elapsed <= MaxTime && |p.moves[s.current].compatibles| > 0
    ensures H(p, s).Some? && H(p, s).value.Fin?
    ensures H(p, s).value.r == Accrued(MinValue(p.moves[s.current].compatibles), |s.pending|)
  {
    var minOut := MinValue(p.moves[s.current].compatibles);
    AccruedIsProduct(minOut, |s.pending|);
  }

  /** Every edge of the catalog, as (source, target) pairs. */
  function Edges(p: Problem): set<(Name, Name)>
  {
    set u, v | u in p.moves && v in p.moves[u].compatibles :: (u, v)
  }

  /** The smallest step cost over a non-empty set of edges. */
  ghost function MinStepCost(p: Problem, es: set<(Name, Name)>): (r: real)
    requires WellFormed(p) && es != {} && es <= Edges(p)
    ensures forall e :: e in es ==> r <= StepCost(p, e.0, e.1)
    ensures exists e :: e in es && r == StepCost(p, e.0, e.1)
    decreases |es|
  {
    var e :| e in es;
    var rest := es - {e};
    if rest == {} then
      assert es == {e};
      StepCost(p, e.0, e.1)
    else
      var m := MinStepCost(p, rest);
      if StepCost(p, e.0, e.1) <= m then StepCost(p, e.0, e.1) else m
  }

  /** A lower bound on the cost of any single step: the cheapest step of the
      catalog, or 0 when the catalog has no edge. */
  ghost function StepLowerBound(p: Problem): (r: real)
    requires WellFormed(p)
    ensures forall u, v :: u in p.moves && v in p.moves[u].compatibles ==> r <= StepCost(p, u, v)
  {
    assert forall u, v :: u in p.moves && v in p.moves[u].compatibles ==> (u, v) in Edges(p);
    if Edges(p) == {} then 0.0 else MinStepCost(p, Edges(p))
  }

  predicate NonNegativeTransitions(p: Problem)
  {
    forall u, v :: u in p.moves && v in p.moves[u].compatibles ==> p.moves[u].compatibles[v] >= 0.0
  }

  predicate NonNegativeStepCosts(p: Problem)
    requires WellFormed(p)
  {
    forall u, v :: u in p.moves && v in p.moves[u].compatibles ==> StepCost(p, u, v) >= 0.0
  }

  /** The heuristic with the bound the docstring describes: every pending
      move still has to be entered by some step, and no step of the catalog
      is cheaper than `StepLowerBound`; the bound is added once per pending
      move (`Accrued`, the same as the product). */
  ghost function HGlobal(p: Problem, s: State): (r: ExtReal)
    requires WellFormed(p)
    ensures r.Inf? <==> s.elapsed > MaxTime
  {
    if s.elapsed > MaxTime then Inf
    else Fin(Accrued(StepLowerBound(p), |s.pending|))
  }

  // ---------------------------------------------------------------------
  // Plans
  // ---------------------------------------------------------------------

  /** Follows `plan` from `s`, each step offered by `actions` and applied by
      `result`; `None` as soon as a step is not offered. */
  function Run(p: Problem, s: State, plan: seq<Name>): (r: Option<State>)
    decreases |plan|
  {
    if plan == [] then Some(s)
    else
      match Run(p, s, plan[..|plan| - 1])
      case None => None
      case Some(t) =>
        if Enabled(p, t, Last(plan)) then Result(p, t, Last(plan)) else None
  }

  /** The cost the search attaches to a plan: `path_cost` applied step by
      step from 0, as each child node is built. `None` when the run fails. */
  function PlanCost(p: Problem, s: State, plan: seq<Name>): (r: Option<real>)
    requires WellFormed(p)
    decreases |plan|
  {
    if plan == [] then Some(0.0)
    else
      var q := plan[..|plan| - 1];
      match (Run(p, s, q), PlanCost(p, s, q), Run(p, s, plan))
      case (Some(u), Some(c), Some(t)) =>
        if u.current in p.moves then PathCost(p, c, u, Last(plan), t) else None
      case _ => None
  }

  /** What the search is asked for: a plan offered step by step from the
      initial state and ending in a goal state. */
  predicate Solution(p: Problem, plan: seq<Name>)
  {
    var r := Run(p, Init(p), plan);
    r.Some? && GoalTest(p, r.value)
  }

  /** A walk over the edges of the catalog. */
  predicate IsWalk(p: Problem, path: seq<Name>)
  {
    forall i :: 0 <= i < |path| - 1 ==> path[i] in p.moves && path[i + 1] in p.moves[path[i]].compatibles
  }

  /** Total transition time of a walk. */
  function WalkTime(p: Problem, path: seq<Name>): real
    requires IsWalk(p, path)
    decreases |path|
  {
    if |path| <= 1 then 0.0
    else
      var q := path[..|path| - 1];
      assert IsWalk(p, q);
      WalkTime(p, q) + Transition(p, Last(q), Last(path))
  }

  /** Total aesthetic score of the moves a plan performs (a name outside the
      catalog, which no run performs, contributes nothing). */
  function AestheticSum(p: Problem, plan: seq<Name>): real
    decreases |plan|
  {
    if plan == [] then 0.0
    else
      var m := Last(plan);
      AestheticSum(p, plan[..|plan| - 1]) + (if m in p.moves then p.moves[m].aesthetic else 0.0)
  }

  /** Starting with `elapsed` already spent, every non-empty prefix of the
      walk keeps within the time limit. */
  predicate PrefixesWithinLimit(p: Problem, elapsed: real, path: seq<Name>)
    requires IsWalk(p, path)
  {
    forall k :: 2 <= k <= |path| ==> IsWalk(p, path[..k]) && elapsed + WalkTime(p, path[..k]) <= MaxTime
  }

  /** The plans a correct search may return, stated without the state
      machine: a walk from the start that never exceeds the time limit, ends
      at the goal inside the tolerance window and performs every mandatory
      move. */
  predicate ValidChoreography(p: Problem, plan: seq<Name>)
  {
    var path := [p.start] + plan;
    && IsWalk(p, path)
    && PrefixesWithinLimit(p, 0.0, path)
    && Last(path) == p.goal
    && MaxTime - TimeTol <= WalkTime(p, path) <= MaxTime
    && p.mandatory <= Elems(plan)
  }
}
