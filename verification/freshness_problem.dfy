/** The search problem of src/dance.py: a state is (current move, pending
    mandatory moves, elapsed time, per-move freshness scores). Moves are
    charged their own execution time, immediate repeats are forbidden, and the
    step cost rewards moves that have not been performed for a while and
    penalises two mandatory moves in a row.

    The A* engine that drives this problem is an external library and is not
    modelled; instead `Run` folds a plan through `Enabled` (the filter of
    `actions`) and `Result`, and `Solution` is what that engine is asked to find. */
module FreshnessPlanner {
  import opened Basics

  const MaxDuration: real := 110.0
  const AestheticWeight: real := 10.0
  const ClumpingPenalty: real := 50.0
  /** Accrual rate of a move that the partition map does not mention. */
  const DefaultRate: real := 0.2
  /** Per-pending-move bias added by the heuristic. */
  const PendingWeight: real := 20.0
  /** The one move after which two mandatory moves in a row are not penalised. */
  const PenaltyExempt: Name := "StandInit"

  /** A catalog entry: the move's own execution time and the set of moves
      that may follow it. */
  datatype Move = Move(duration: real, compatibles: set<Name>)

  /** The problem instance: the catalog, start and goal, the mandatory moves,
      the move list whose order lays out the score vector, and the per-move
      accrual rates. */
  datatype Problem = Problem(
    moves: map<Name, Move>,
    start: Name,
    goal: Name,
    mandatory: set<Name>,
    order: seq<Name>,
    partitions: map<Name, real>)

  datatype State = State(current: Name, pending: set<Name>, elapsed: real, scores: seq<real>)

  /** Every move the problem mentions is in the catalog (in the program they
      are all Move objects). */
  predicate WellFormed(p: Problem)
  {
    && p.start in p.moves
    && p.goal in p.moves
    && p.mandatory <= p.moves.Keys
    && forall u :: u in p.moves ==> p.moves[u].compatibles <= p.moves.Keys
  }

  predicate NonNegativeDurations(p: Problem)
  {
    forall u :: u in p.moves ==> p.moves[u].duration >= 0.0
  }

  // ---------------------------------------------------------------------
  // Graph construction
  // ---------------------------------------------------------------------

  /** `Move.add_compatibles`: set union into the move's successor set. */
  function AddCompatibles(moves: map<Name, Move>, u: Name, targets: set<Name>): (r: map<Name, Move>)
    requires u in moves
    ensures r.Keys == moves.Keys
    ensures forall v :: v in r ==> r[v].duration == moves[v].duration
    ensures forall v, w :: v in r ==>
      (w in r[v].compatibles <==> w in moves[v].compatibles || (v == u && w in targets))
  {
    moves[u := Move(moves[u].duration, moves[u].compatibles + targets)]
  }

  /** Because successors are a set, the order of `add_compatibles` calls does
      not matter and repeating a call changes nothing. */
  lemma AddCompatiblesCommutes(moves: map<Name, Move>, u: Name, a: set<Name>, v: Name, b: set<Name>)
    requires u in moves && v in moves
    ensures AddCompatibles(AddCompatibles(moves, u, a), v, b)
         == AddCompatibles(AddCompatibles(moves, v, b), u, a)
    ensures AddCompatibles(AddCompatibles(moves, u, a), u, a) == AddCompatibles(moves, u, a)
  {
    var l := AddCompatibles(AddCompatibles(moves, u, a), v, b);
    var r := AddCompatibles(AddCompatibles(moves, v, b), u, a);
    assert forall x :: x in l ==> l[x] == r[x] by {
      forall x | x in l
        ensures l[x] == r[x]
      {
        assert l[x].compatibles == r[x].compatibles;
      }
    }
    var once := AddCompatibles(moves, u, a);
    var twice := AddCompatibles(once, u, a);
    assert forall x :: x in twice ==> twice[x] == once[x] by {
      forall x | x in twice
        ensures twice[x] == once[x]
      {
        assert twice[x].compatibles == once[x].compatibles;
      }
    }
  }

  // ---------------------------------------------------------------------
  // The problem interface
  // ---------------------------------------------------------------------

  /** The initial state: the start move, every mandatory move pending (the
      start move is NOT discharged even when it is mandatory), the start
      move's own duration already elapsed, and all scores zero. */
  function Init(p: Problem): (s: State)
    requires p.start in p.moves
    ensures s.current == p.start
    ensures s.pending == p.mandatory
    ensures p.start in p.mandatory ==> p.start in s.pending
    ensures s.elapsed == p.moves[p.start].duration
    ensures |s.scores| == |p.order|
    ensures forall i :: 0 <= i < |s.scores| ==> s.scores[i] == 0.0
  {
    State(p.start, p.mandatory, p.moves[p.start].duration, seq(|p.order|, _ => 0.0))
  }

  /** The filter applied by `actions` to one candidate successor. */
  predicate Enabled(p: Problem, s: State, m: Name)
    requires WellFormed(p) && s.current in p.moves
  {
    && m in p.moves[s.current].compatibles
    && s.elapsed + p.moves[m].duration <= MaxDuration
    && m != s.current
  }

  /** `actions`: walks the current move's successor set and keeps those that
      fit in the time budget and are not the current move itself. */
  method Actions(p: Problem, s: State) returns (valid: seq<Name>)
    requires WellFormed(p) && s.current in p.moves
    ensures forall m :: m in valid ==>
      && m in p.moves[s.current].compatibles
      && s.elapsed + p.moves[m].duration <= MaxDuration
      && m != s.current
    ensures forall m :: Enabled(p, s, m) ==> m in valid
    ensures s.current !in valid
    ensures NoDup(valid)
  {
    var candidates := p.moves[s.current].compatibles;
    ghost var seen: set<Name> := {};
    valid := [];
    while candidates != {}
      invariant candidates + seen == p.moves[s.current].compatibles
      invariant candidates !! seen
      invariant forall m :: m in valid <==> m in seen && Enabled(p, s, m)
      invariant NoDup(valid)
      decreases |candidates|
    {
      var m :| m in candidates;
      candidates := candidates - {m};
      seen := seen + {m};
      var predicted := s.elapsed + p.moves[m].duration;
      if predicted > MaxDuration {
        continue;
      }
      if m == s.current {
        continue;
      }
      NoDupSnoc(valid, m);
      valid := valid + [m];
    }
  }

  /** Accrual rate of a move: its partition entry, or 0.2 when it has none. */
  function Rate(p: Problem, m: Name): real
  {
    if m in p.partitions then p.partitions[m] else DefaultRate
  }

  /** The score update of `result`, slot by slot: the chosen move's slot is
      reset to zero and every other slot grows by its move's rate. */
  function Refresh(p: Problem, order: seq<Name>, scores: seq<real>, a: Name): (r: seq<real>)
    requires |scores| == |order|
    ensures |r| == |scores|
    ensures forall i :: 0 <= i < |r| && order[i] == a ==> r[i] == 0.0
    ensures forall i :: 0 <= i < |r| && order[i] != a ==> r[i] == scores[i] + Rate(p, order[i])
  {
    seq(|order|, i requires 0 <= i < |order| => if order[i] == a then 0.0 else scores[i] + Rate(p, order[i]))
  }

  /** `result`: move to `a`, charge its execution time, discharge it from the
      pending set, refresh the scores. */
  function Result(p: Problem, s: State, a: Name): (t: State)
    requires a in p.moves && |s.scores| == |p.order|
    ensures t.current == a
    ensures t.elapsed == s.elapsed + p.moves[a].duration
    ensures t.pending <= s.pending && a !in t.pending
    ensures |s.pending| - 1 <= |t.pending|
    ensures forall x :: x in s.pending && x != a ==> x in t.pending
    ensures |t.scores| == |s.scores|
    ensures forall i :: 0 <= i < |t.scores| && p.order[i] == a ==> t.scores[i] == 0.0
    ensures forall i :: 0 <= i < |t.scores| && p.order[i] != a ==>
      t.scores[i] == s.scores[i] + Rate(p, p.order[i])
  {
    State(a, Discharge(s.pending, a), s.elapsed + p.moves[a].duration, Refresh(p, p.order, s.scores, a))
  }

  /** The slot `move_to_index` assigns to a move: the last position of its
      name in the move list (a dict comprehension keeps the last write). */
  function IndexOf(order: seq<Name>, m: Name): (r: Option<nat>)
    ensures r.None? <==> m !in order
    ensures r.Some? ==> r.value < |order| && order[r.value] == m
    ensures r.Some? ==> forall j :: r.value < j < |order| ==> order[j] != m
    decreases |order|
  {
    if order == [] then None
    else if Last(order) == m then Some(|order| - 1)
    else IndexOf(order[..|order| - 1], m)
  }

  /** Whether a step from `u` to `v` pays the clumping penalty: both moves
      are mandatory (in the full mandatory set, not the pending one) and `u`
      is not the exempt start pose. */
  predicate Clumps(p: Problem, u: Name, v: Name)
  {
    u in p.mandatory && v in p.mandatory && u != PenaltyExempt
  }

  /** `path_cost`: `c` plus the next move's execution time, minus the
      aesthetic weight times that move's score in the state BEFORE the step,
      plus the clumping penalty when it applies. A move missing from the
      score index is a lookup failure. */
  function PathCost(p: Problem, c: real, s1: State, a: Name, s2: State): (r: Option<real>)
    requires a in p.moves && |s1.scores| == |p.order|
    ensures r.None? <==> a !in p.order
    ensures r.Some? ==>
      IndexOf(p.order, a).Some? &&
      r.value == c + p.moves[a].duration - AestheticWeight * s1.scores[IndexOf(p.order, a).value]
                 + (if Clumps(p, s1.current, a) then ClumpingPenalty else 0.0)
  {
    match IndexOf(p.order, a)
    case None => None
    case Some(i) =>
      var step := p.moves[a].duration - s1.scores[i] * AestheticWeight;
      Some(c + (if Clumps(p, s1.current, a) then step + ClumpingPenalty else step))
  }

  /** Sum of the execution times of a set of moves (the order of summation
      does not matter for exact reals). */
  ghost function SumDurations(p: Problem, xs: set<Name>): real
    requires xs <= p.moves.Keys
    decreases xs
  {
    if xs == {} then 0.0
    else
      var x :| x in xs;
      p.moves[x].duration + SumDurations(p, xs - {x})
  }

  /** `time_needed` of the heuristic: the pending moves' execution times, plus
      the goal's when the goal is not itself pending. */
  ghost function TimeNeeded(p: Problem, s: State): real
    requires p.goal in p.moves && s.pending <= p.moves.Keys
  {
    SumDurations(p, s.pending) + (if p.goal in s.pending then 0.0 else p.moves[p.goal].duration)
  }

  /** `h` as written: infinite when the time still needed does not fit the
      budget, otherwise that time plus a fixed bias per pending move. */
  ghost function H(p: Problem, s: State): (r: ExtReal)
    requires p.goal in p.moves && s.pending <= p.moves.Keys
    ensures r.Inf? <==> s.elapsed + TimeNeeded(p, s) > MaxDuration
    ensures r.Fin? ==> r.r == TimeNeeded(p, s) + PendingWeight * (|s.pending| as real)
  {
    var needed := TimeNeeded(p, s);
    if s.elapsed + needed > MaxDuration then Inf
    else Fin(needed + (|s.pending| as real) * PendingWeight)
  }

  /** The heuristic with the time still needed computed for what a
      completion must actually perform: nothing more when the state already
      is at the goal with nothing pending, otherwise as in `H`. */
  ghost function HRefined(p: Problem, s: State): (r: ExtReal)
    requires p.goal in p.moves && s.pending <= p.moves.Keys
    ensures !(s.current == p.goal && s.pending == {}) ==> r == H(p, s)
    ensures s.current == p.goal && s.pending == {} ==> (r.Inf? <==> s.elapsed > MaxDuration)
  {
    if s.current == p.goal && s.pending == {} then
      (if s.elapsed > MaxDuration then Inf else Fin(0.0))
    else H(p, s)
  }

  /** `goal_test`. */
  predicate GoalTest(p: Problem, s: State)
  {
    s.current == p.goal && |s.pending| == 0 && s.elapsed <= MaxDuration
  }

  // ---------------------------------------------------------------------
  // Plans
  // ---------------------------------------------------------------------

  /** Follows `plan` from `s`, each step offered by `actions` and applied by
      `result`; `None` as soon as a step is not offered. */
  function Run(p: Problem, s: State, plan: seq<Name>): (r: Option<State>)
    requires WellFormed(p) && s.current in p.moves && |s.scores| == |p.order|
    ensures r.Some? ==> r.value.current in p.moves && |r.value.scores| == |p.order|
    decreases |plan|
  {
    if plan == [] then Some(s)
    else
      match Run(p, s, plan[..|plan| - 1])
      case None => None
      case Some(t) =>
        if Enabled(p, t, Last(plan)) then Some(Result(p, t, Last(plan))) else None
  }

  /** What the search is asked for: a plan offered step by step from the
      initial state and ending in a goal state. */
  predicate Solution(p: Problem, plan: seq<Name>)
    requires WellFormed(p)
  {
    var r := Run(p, Init(p), plan);
    r.Some? && GoalTest(p, r.value)
  }

  /** Total execution time of the moves of a plan. */
  function SumPlan(p: Problem, plan: seq<Name>): real
    requires forall i :: 0 <= i < |plan| ==> plan[i] in p.moves
    decreases |plan|
  {
    if plan == [] then 0.0
    else SumPlan(p, plan[..|plan| - 1]) + p.moves[Last(plan)].duration
  }

  /** Number of steps of `plan` since `m` was last performed (the whole plan
      when it never was). */
  function Since(plan: seq<Name>, m: Name): nat
    decreases |plan|
  {
    if plan == [] then 0
    else if Last(plan) == m then 0
    else Since(plan[..|plan| - 1], m) + 1
  }

  /** The move sequence a plan performs, start move first. */
  function Performed(p: Problem, plan: seq<Name>): seq<Name>
  {
    [p.start] + plan
  }

  /** A walk over the compatibility graph with no immediate repeat. */
  predicate FollowsGraph(p: Problem, path: seq<Name>)
  {
    forall i :: 0 <= i < |path| - 1 ==>
      path[i] in p.moves && path[i + 1] in p.moves[path[i]].compatibles && path[i + 1] != path[i]
  }

  /** Starting with `elapsed` already spent, every non-empty prefix of the
      plan fits the budget. */
  predicate PrefixesWithinBudget(p: Problem, elapsed: real, plan: seq<Name>)
    requires forall i :: 0 <= i < |plan| ==> plan[i] in p.moves
  {
    forall k :: 1 <= k <= |plan| ==> elapsed + SumPlan(p, plan[..k]) <= MaxDuration
  }

  /** An independent description of an acceptable choreography: a walk from
      the start without immediate repeats, within budget at every step,
      ending at the goal and performing every mandatory move after the start. */
  predicate ValidChoreography(p: Problem, plan: seq<Name>)
    requires WellFormed(p)
  {
    && FollowsGraph(p, Performed(p, plan))
    && (forall i :: 0 <= i < |plan| ==> plan[i] in p.moves)
    && PrefixesWithinBudget(p, p.moves[p.start].duration, plan)
    && p.moves[p.start].duration + SumPlan(p, plan) <= MaxDuration
    && Last(Performed(p, plan)) == p.goal
    && p.mandatory <= Elems(plan)
  }
}
