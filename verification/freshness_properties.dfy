/** Properties of the src/dance.py search problem: what following a plan does
    to the state, which plans the search may return, what the freshness
    scores measure, and how far the pruning heuristic can be trusted. */
module FreshnessProperties {
  import opened Basics
  import opened FreshnessPlanner

  /** Unfolds the last step of a successful run. */
  lemma RunStep(p: Problem, s: State, q: seq<Name>, a: Name)
    requires WellFormed(p) && s.current in p.moves && |s.scores| == |p.order|
    requires Run(p, s, q + [a]).Some?
    ensures Run(p, s, q).Some?
    ensures Enabled(p, Run(p, s, q).value, a)
    ensures Run(p, s, q + [a]).value == Result(p, Run(p, s, q).value, a)
  {
    assert (q + [a])[..|q|] == q;
  }

  /** Extends a successful run by one offered step. */
  lemma RunExtend(p: Problem, s: State, q: seq<Name>, a: Name)
    requires WellFormed(p) && s.current in p.moves && |s.scores| == |p.order|
    requires Run(p, s, q).Some? && Enabled(p, Run(p, s, q).value, a)
    ensures Run(p, s, q + [a]) == Some(Result(p, Run(p, s, q).value, a))
  {
    assert (q + [a])[..|q|] == q;
  }

  lemma FollowsStep(p: Problem, s: State, q: seq<Name>, a: Name)
    requires WellFormed(p) && s.current in p.moves && |s.scores| == |p.order|
    requires Run(p, s, q + [a]).Some?
    requires Run(p, s, q).Some? ==>
      && (forall i :: 0 <= i < |q| ==> q[i] in p.moves)
      && Run(p, s, q).value.current == Last([s.current] + q)
      && FollowsGraph(p, [s.current] + q)
    ensures forall i :: 0 <= i < |q + [a]| ==> (q + [a])[i] in p.moves
    ensures Run(p, s, q + [a]).value.current == Last([s.current] + (q + [a]))
    ensures FollowsGraph(p, [s.current] + (q + [a]))
  {
    RunStep(p, s, q, a);
    var u := Run(p, s, q).value;
    assert Enabled(p, u, a);
    GraphSnoc(p, [s.current] + q, a);
    assert [s.current] + (q + [a]) == [s.current] + q + [a];
  }

  /** Extending a walk by a compatible, different move keeps it a walk. */
  lemma GraphSnoc(p: Problem, path: seq<Name>, a: Name)
    requires |path| > 0 && FollowsGraph(p, path)
    requires Last(path) in p.moves && a in p.moves[Last(path)].compatibles && a != Last(path)
    ensures FollowsGraph(p, path + [a])
  {
  }

  /** A successful run walks the compatibility graph from the current move
      through catalogued moves, never repeating a move immediately. */
  lemma {:induction false} RunFollowsGraph(p: Problem, s: State, plan: seq<Name>)
    requires WellFormed(p) && s.current in p.moves && |s.scores| == |p.order|
    requires Run(p, s, plan).Some?
    ensures forall i :: 0 <= i < |plan| ==> plan[i] in p.moves
    ensures Run(p, s, plan).value.current == Last([s.current] + plan)
    ensures FollowsGraph(p, [s.current] + plan)
    decreases |plan|
  {
    if plan != [] {
      var q := plan[..|plan| - 1];
      var a := Last(plan);
      assert q + [a] == plan;
      RunStep(p, s, q, a);
      RunFollowsGraph(p, s, q);
      FollowsStep(p, s, q, a);
    }
  }

  lemma ElapsedStep(p: Problem, s: State, q: seq<Name>, a: Name)
    requires WellFormed(p) && s.current in p.moves && |s.scores| == |p.order|
    requires Run(p, s, q + [a]).Some?
    requires forall i :: 0 <= i < |q + [a]| ==> (q + [a])[i] in p.moves
    requires Run(p, s, q).Some? ==> Run(p, s, q).value.elapsed == s.elapsed + SumPlan(p, q)
    ensures Run(p, s, q + [a]).value.elapsed == s.elapsed + SumPlan(p, q + [a])
  {
    RunStep(p, s, q, a);
    assert (q + [a])[..|q|] == q;
  }

  /** A successful run charges the durations of the performed moves. */
  lemma {:induction false} RunElapsed(p: Problem, s: State, plan: seq<Name>)
    requires WellFormed(p) && s.current in p.moves && |s.scores| == |p.order|
    requires Run(p, s, plan).Some?
    ensures forall i :: 0 <= i < |plan| ==> plan[i] in p.moves
    ensures Run(p, s, plan).value.elapsed == s.elapsed + SumPlan(p, plan)
    decreases |plan|
  {
    RunFollowsGraph(p, s, plan);
    if plan != [] {
      var q := plan[..|plan| - 1];
      var a := Last(plan);
      assert q + [a] == plan;
      RunStep(p, s, q, a);
      RunElapsed(p, s, q);
      ElapsedStep(p, s, q, a);
    }
  }

  lemma PendingStep(p: Problem, s: State, q: seq<Name>, a: Name)
    requires WellFormed(p) && s.current in p.moves && |s.scores| == |p.order|
    requires Run(p, s, q + [a]).Some?
    requires Run(p, s, q).Some? ==> Run(p, s, q).value.pending == s.pending - Elems(q)
    ensures Run(p, s, q + [a]).value.pending == s.pending - Elems(q + [a])
  {
    RunStep(p, s, q, a);
    ElemsSnoc(q, a);
  }

  /** A successful run discharges exactly the performed moves. */
  lemma {:induction false} RunPending(p: Problem, s: State, plan: seq<Name>)
    requires WellFormed(p) && s.current in p.moves && |s.scores| == |p.order|
    requires Run(p, s, plan).Some?
    ensures Run(p, s, plan).value.pending == s.pending - Elems(plan)
    decreases |plan|
  {
    if plan != [] {
      var q := plan[..|plan| - 1];
      var a := Last(plan);
      assert q + [a] == plan;
      RunStep(p, s, q, a);
      RunPending(p, s, q);
      PendingStep(p, s, q, a);
    }
  }

  /** What a successful run does, from any well-shaped state: it performs a
      walk without immediate repeats, ends at the plan's last move,
      discharges exactly the performed moves and charges their durations. */
  lemma RunEffects(p: Problem, s: State, plan: seq<Name>)
    requires WellFormed(p) && s.current in p.moves && |s.scores| == |p.order|
    requires Run(p, s, plan).Some?
    ensures forall i :: 0 <= i < |plan| ==> plan[i] in p.moves
    ensures Run(p, s, plan).value.current == Last([s.current] + plan)
    ensures Run(p, s, plan).value.pending == s.pending - Elems(plan)
    ensures Run(p, s, plan).value.elapsed == s.elapsed + SumPlan(p, plan)
    ensures FollowsGraph(p, [s.current] + plan)
  {
    RunFollowsGraph(p, s, plan);
    RunElapsed(p, s, plan);
    RunPending(p, s, plan);
  }

  lemma BudgetStep(p: Problem, elapsed: real, q: seq<Name>, a: Name)
    requires forall i :: 0 <= i < |q + [a]| ==> (q + [a])[i] in p.moves
    requires forall i :: 0 <= i < |q| ==> q[i] in p.moves
    requires PrefixesWithinBudget(p, elapsed, q)
    requires elapsed + SumPlan(p, q + [a]) <= MaxDuration
    ensures PrefixesWithinBudget(p, elapsed, q + [a])
  {
    var plan := q + [a];
    forall k | 1 <= k <= |plan| ensures elapsed + SumPlan(p, plan[..k]) <= MaxDuration {
      if k <= |q| {
        assert plan[..k] == q[..k];
      } else {
        assert plan[..k] == plan;
      }
    }
  }

  /** Every step of a successful run keeps within budget. */
  lemma {:induction false} RunWithinBudget(p: Problem, s: State, plan: seq<Name>)
    requires WellFormed(p) && s.current in p.moves && |s.scores| == |p.order|
    requires Run(p, s, plan).Some?
    ensures forall i :: 0 <= i < |plan| ==> plan[i] in p.moves
    ensures PrefixesWithinBudget(p, s.elapsed, plan)
    decreases |plan|
  {
    RunElapsed(p, s, plan);
    if plan != [] {
      var q := plan[..|plan| - 1];
      var a := Last(plan);
      assert q + [a] == plan;
      RunStep(p, s, q, a);
      RunWithinBudget(p, s, q);
      BudgetStep(p, s.elapsed, q, a);
    }
  }

  lemma AcceptStep(p: Problem, s: State, q: seq<Name>, a: Name)
    requires WellFormed(p) && s.current in p.moves && |s.scores| == |p.order|
    requires forall i :: 0 <= i < |q + [a]| ==> (q + [a])[i] in p.moves
    requires FollowsGraph(p, [s.current] + (q + [a]))
    requires PrefixesWithinBudget(p, s.elapsed, q + [a])
    requires Run(p, s, q).Some?
    ensures Run(p, s, q + [a]).Some?
  {
    var plan := q + [a];
    var path := [s.current] + plan;
    RunEffects(p, s, q);
    var u := Run(p, s, q).value;
    assert path[|q|] == Last([s.current] + q) == u.current;
    assert path[|q| + 1] == a;
    assert plan[..|plan|] == plan;
    assert plan[..|q|] == q;
    assert Enabled(p, u, a);
    RunExtend(p, s, q, a);
  }

  lemma ShorterPlanAccepted(p: Problem, s: State, q: seq<Name>, a: Name)
    requires forall i :: 0 <= i < |q + [a]| ==> (q + [a])[i] in p.moves
    requires FollowsGraph(p, [s.current] + (q + [a]))
    requires PrefixesWithinBudget(p, s.elapsed, q + [a])
    ensures forall i :: 0 <= i < |q| ==> q[i] in p.moves
    ensures FollowsGraph(p, [s.current] + q)
    ensures PrefixesWithinBudget(p, s.elapsed, q)
  {
    var plan := q + [a];
    var path := [s.current] + plan;
    var qpath := [s.current] + q;
    assert path == qpath + [a];
    assert forall k :: 0 <= k <= |q| ==> plan[..k] == q[..k];
    assert forall i :: 0 <= i < |q| ==> q[i] == plan[i];
    assert FollowsGraph(p, qpath) by {
      forall i | 0 <= i < |qpath| - 1
        ensures qpath[i] in p.moves && qpath[i + 1] in p.moves[qpath[i]].compatibles
        ensures qpath[i + 1] != qpath[i]
      {
        assert qpath[i] == path[i] && qpath[i + 1] == path[i + 1];
      }
    }
  }

  /** Conversely, every walk without immediate repeats that keeps within
      budget at every step is followed to the end by a run. */
  lemma {:induction false} RunAccepts(p: Problem, s: State, plan: seq<Name>)
    requires WellFormed(p) && s.current in p.moves && |s.scores| == |p.order|
    requires forall i :: 0 <= i < |plan| ==> plan[i] in p.moves
    requires FollowsGraph(p, [s.current] + plan)
    requires PrefixesWithinBudget(p, s.elapsed, plan)
    ensures Run(p, s, plan).Some?
    decreases |plan|
  {
    if plan != [] {
      var q := plan[..|plan| - 1];
      var a := Last(plan);
      assert q + [a] == plan;
      ShorterPlanAccepted(p, s, q, a);
      RunAccepts(p, s, q);
      AcceptStep(p, s, q, a);
    }
  }

  /** A run succeeds exactly when the plan is a walk without immediate
      repeats through catalogued moves and every step keeps within budget. */
  lemma RunSucceedsIff(p: Problem, s: State, plan: seq<Name>)
    requires WellFormed(p) && s.current in p.moves && |s.scores| == |p.order|
    ensures Run(p, s, plan).Some? <==>
      && (forall i :: 0 <= i < |plan| ==> plan[i] in p.moves)
      && FollowsGraph(p, [s.current] + plan)
      && PrefixesWithinBudget(p, s.elapsed, plan)
  {
    if Run(p, s, plan).Some? {
      RunFollowsGraph(p, s, plan);
      RunWithinBudget(p, s, plan);
    } else if && (forall i :: 0 <= i < |plan| ==> plan[i] in p.moves)
              && FollowsGraph(p, [s.current] + plan)
              && PrefixesWithinBudget(p, s.elapsed, plan) {
      RunAccepts(p, s, plan);
    }
  }

  /** The plans the search may return are exactly the valid choreographies:
      a walk without immediate repeats from the start to the goal, within
      budget at every step, performing every mandatory move after the start. */
  lemma SolutionIsValidChoreography(p: Problem, plan: seq<Name>)
    requires WellFormed(p)
    ensures Solution(p, plan) <==> ValidChoreography(p, plan)
  {
    var s := Init(p);
    RunSucceedsIff(p, s, plan);
    if Run(p, s, plan).Some? {
      RunEffects(p, s, plan);
      var t := Run(p, s, plan).value;
      assert t.pending == p.mandatory - Elems(plan);
      assert t.pending == {} <==> p.mandatory <= Elems(plan) by {
        if p.mandatory <= Elems(plan) {
          assert t.pending == {};
        }
        if t.pending == {} {
          forall x | x in p.mandatory ensures x in Elems(plan) {
            assert x !in t.pending;
          }
        }
      }
    }
  }

  /** Since the start move's own duration fits the budget (1.80 s against
      110 s in the program), every state the search reaches is already within
      budget, so the budget clause of `goal_test` never rejects anything. */
  lemma GoalTestBudgetRedundant(p: Problem, plan: seq<Name>)
    requires WellFormed(p)
    requires p.moves[p.start].duration <= MaxDuration
    requires Run(p, Init(p), plan).Some?
    ensures Run(p, Init(p), plan).value.elapsed <= MaxDuration
    ensures GoalTest(p, Run(p, Init(p), plan).value) <==>
      Run(p, Init(p), plan).value.current == p.goal && Run(p, Init(p), plan).value.pending == {}
  {
    RunSucceedsIff(p, Init(p), plan);
    RunEffects(p, Init(p), plan);
    if plan != [] {
      assert plan[..|plan|] == plan;
    }
  }

  lemma SinceSnoc(q: seq<Name>, a: Name, m: Name)
    ensures Since(q + [a], m) == if a == m then 0 else Since(q, m) + 1
  {
    assert (q + [a])[..|q|] == q;
  }

  /** Every score equals its move's rate accrued over the steps since it was
      last performed in `plan`. */
  predicate TracksStaleness(p: Problem, plan: seq<Name>, scores: seq<real>)
    requires |scores| == |p.order|
  {
    forall i :: 0 <= i < |p.order| ==> scores[i] == Accrued(Rate(p, p.order[i]), Since(plan, p.order[i]))
  }

  /** One `result` step keeps every score equal to its rate times the steps
      since its move was last performed. */
  lemma StalenessStep(p: Problem, u: State, q: seq<Name>, a: Name)
    requires a in p.moves && |u.scores| == |p.order|
    requires TracksStaleness(p, q, u.scores)
    ensures TracksStaleness(p, q + [a], Result(p, u, a).scores)
  {
    var t := Result(p, u, a);
    forall i | 0 <= i < |p.order|
      ensures t.scores[i] == Accrued(Rate(p, p.order[i]), Since(q + [a], p.order[i]))
    {
      SinceSnoc(q, a, p.order[i]);
    }
  }

  lemma StalenessRunStep(p: Problem, q: seq<Name>, a: Name)
    requires WellFormed(p)
    requires Run(p, Init(p), q + [a]).Some?
    requires Run(p, Init(p), q).Some? ==> TracksStaleness(p, q, Run(p, Init(p), q).value.scores)
    ensures TracksStaleness(p, q + [a], Run(p, Init(p), q + [a]).value.scores)
  {
    RunStep(p, Init(p), q, a);
    StalenessStep(p, Run(p, Init(p), q).value, q, a);
  }

  /** The freshness score of a move, after a plan from the initial state, is
      its accrual rate times the number of steps since it was last performed
      (since the start when it never was). */
  lemma {:induction false} ScoresTrackStaleness(p: Problem, plan: seq<Name>)
    requires WellFormed(p)
    requires Run(p, Init(p), plan).Some?
    ensures TracksStaleness(p, plan, Run(p, Init(p), plan).value.scores)
    decreases |plan|
  {
    if plan == [] {
      assert Run(p, Init(p), plan) == Some(Init(p));
    } else {
      var q := plan[..|plan| - 1];
      var a := Last(plan);
      assert q + [a] == plan;
      RunStep(p, Init(p), q, a);
      ScoresTrackStaleness(p, q);
      StalenessRunStep(p, q, a);
    }
  }

  /** The step cost from a state whose score for `a` is `score`. */
  lemma StepCostFromScore(p: Problem, c: real, u: State, a: Name, s2: State, score: real)
    requires a in p.moves && a in p.order && |u.scores| == |p.order|
    requires forall i :: 0 <= i < |p.order| && p.order[i] == a ==> u.scores[i] == score
    ensures PathCost(p, c, u, a, s2) ==
      Some(c + p.moves[a].duration - AestheticWeight * score
             + (if Clumps(p, u.current, a) then ClumpingPenalty else 0.0))
  {
  }

  /** The step cost after a plan: the next move's duration, minus the
      aesthetic weight times its rate times the steps since it was last
      performed, plus the clumping penalty when it applies. The same step can
      therefore cost differently after different histories. */
  lemma StepCostAfterPlan(p: Problem, c: real, plan: seq<Name>, a: Name, s2: State)
    requires WellFormed(p)
    requires Run(p, Init(p), plan).Some?
    requires a in p.moves && a in p.order
    ensures PathCost(p, c, Run(p, Init(p), plan).value, a, s2) ==
      Some(c + p.moves[a].duration - AestheticWeight * Accrued(Rate(p, a), Since(plan, a))
             + (if Clumps(p, Run(p, Init(p), plan).value.current, a) then ClumpingPenalty else 0.0))
  {
    var u := Run(p, Init(p), plan).value;
    ScoresTrackStaleness(p, plan);
    StepCostFromScore(p, c, u, a, s2, Accrued(Rate(p, a), Since(plan, a)));
  }

  // ---------------------------------------------------------------------
  // The pruning heuristic
  // ---------------------------------------------------------------------

  lemma {:induction false} SumDurationsRemove(p: Problem, xs: set<Name>, y: Name)
    requires xs <= p.moves.Keys && y in xs
    ensures SumDurations(p, xs) == p.moves[y].duration + SumDurations(p, xs - {y})
    decreases |xs|
  {
    var x :| x in xs && SumDurations(p, xs) == p.moves[x].duration + SumDurations(p, xs - {x});
    if x != y {
      SumDurationsRemove(p, xs - {x}, y);
      SumDurationsRemove(p, xs - {y}, x);
      assert xs - {x} - {y} == xs - {y} - {x};
    }
  }

  lemma {:induction false} SumDurationsNonNegative(p: Problem, xs: set<Name>)
    requires xs <= p.moves.Keys && NonNegativeDurations(p)
    ensures SumDurations(p, xs) >= 0.0
    decreases |xs|
  {
    if xs != {} {
      var x :| x in xs;
      SumDurationsRemove(p, xs, x);
      SumDurationsNonNegative(p, xs - {x});
    }
  }

  lemma {:induction false} SumPlanNonNegative(p: Problem, plan: seq<Name>)
    requires forall i :: 0 <= i < |plan| ==> plan[i] in p.moves
    requires NonNegativeDurations(p)
    ensures SumPlan(p, plan) >= 0.0
    decreases |plan|
  {
    if plan != [] {
      SumPlanNonNegative(p, plan[..|plan| - 1]);
    }
  }

  /** Performing every move of a set costs at least the set's durations. */
  lemma {:induction false} SumDurationsAtMostSumPlan(p: Problem, xs: set<Name>, plan: seq<Name>)
    requires forall i :: 0 <= i < |plan| ==> plan[i] in p.moves
    requires xs <= p.moves.Keys && xs <= Elems(plan)
    requires NonNegativeDurations(p)
    ensures SumDurations(p, xs) <= SumPlan(p, plan)
    decreases |plan|
  {
    if plan == [] {
      assert xs == {};
    } else {
      var n := |plan| - 1;
      var q := plan[..n];
      var a := plan[n];
      assert q + [a] == plan;
      ElemsSnoc(q, a);
      SumDurationsAtMostSumPlan(p, xs - {a}, q);
      if a in xs {
        SumDurationsRemove(p, xs, a);
      } else {
        assert xs - {a} == xs;
      }
    }
  }

  /** What a completion reaching a goal state has done: performed every
      pending move within budget, and ended on the goal move unless it is
      empty (which needs a finished state to begin with). */
  lemma CompletionFacts(p: Problem, s: State, plan: seq<Name>)
    requires WellFormed(p)
    requires s.current in p.moves && |s.scores| == |p.order|
    requires Run(p, s, plan).Some? && GoalTest(p, Run(p, s, plan).value)
    ensures forall i :: 0 <= i < |plan| ==> plan[i] in p.moves
    ensures s.pending <= Elems(plan)
    ensures s.elapsed + SumPlan(p, plan) <= MaxDuration
    ensures plan == [] ==> s.current == p.goal && s.pending == {}
    ensures plan != [] ==> Last(plan) == p.goal
  {
    RunEffects(p, s, plan);
    var t := Run(p, s, plan).value;
    assert t.pending == {};
    assert s.pending <= Elems(plan) by {
      forall x | x in s.pending ensures x in Elems(plan) {
        assert x !in t.pending;
      }
    }
    if plan != [] {
      assert Last([s.current] + plan) == Last(plan);
    }
  }

  /** Core of both prune-soundness results: a completion that reaches a goal
      state performs every pending move, and also the goal move unless the
      state is already at the goal with nothing pending. */
  lemma CompletionCoversTimeNeeded(p: Problem, s: State, plan: seq<Name>)
    requires WellFormed(p) && NonNegativeDurations(p)
    requires s.current in p.moves && |s.scores| == |p.order| && s.pending <= p.moves.Keys
    requires Run(p, s, plan).Some? && GoalTest(p, Run(p, s, plan).value)
    ensures s.current == p.goal && s.pending == {} ==> s.elapsed <= MaxDuration
    ensures !(s.current == p.goal && s.pending == {}) ==> s.elapsed + TimeNeeded(p, s) <= MaxDuration
  {
    CompletionFacts(p, s, plan);
    SumPlanNonNegative(p, plan);
    if s.current == p.goal && s.pending == {} {
    } else if p.goal in s.pending {
      SumDurationsAtMostSumPlan(p, s.pending, plan);
    } else {
      var n := |plan| - 1;
      var q := plan[..n];
      assert q + [p.goal] == plan;
      ElemsSnoc(q, p.goal);
      SumDurationsAtMostSumPlan(p, s.pending, q);
    }
  }

  /** Away from finished states the written heuristic prunes soundly: when it
      is infinite, no continuation reaches a goal state. */
  lemma HPruneSoundUnlessFinished(p: Problem, s: State, plan: seq<Name>)
    requires WellFormed(p) && NonNegativeDurations(p)
    requires s.current in p.moves && |s.scores| == |p.order| && s.pending <= p.moves.Keys
    requires !(s.current == p.goal && s.pending == {})
    requires Run(p, s, plan).Some? && GoalTest(p, Run(p, s, plan).value)
    ensures H(p, s).Fin?
  {
    CompletionCoversTimeNeeded(p, s, plan);
  }

  /** The refined heuristic prunes soundly everywhere: whenever some
      continuation reaches a goal state, its estimate is finite. */
  lemma HRefinedPruneSound(p: Problem, s: State, plan: seq<Name>)
    requires WellFormed(p) && NonNegativeDurations(p)
    requires s.current in p.moves && |s.scores| == |p.order| && s.pending <= p.moves.Keys
    requires Run(p, s, plan).Some? && GoalTest(p, Run(p, s, plan).value)
    ensures HRefined(p, s).Fin?
  {
    CompletionCoversTimeNeeded(p, s, plan);
  }

  /** The refined heuristic never estimates more than the written one, and
      differs from it only at a finished state within budget; there it is
      strictly smaller whenever the goal move takes any time at all. */
  lemma HRefinedBelowH(p: Problem, s: State)
    requires p.goal in p.moves && s.pending <= p.moves.Keys && NonNegativeDurations(p)
    ensures Le(HRefined(p, s), H(p, s))
    ensures HRefined(p, s) != H(p, s) ==> s.current == p.goal && s.pending == {} && s.elapsed <= MaxDuration
    ensures s.current == p.goal && s.pending == {} && s.elapsed <= MaxDuration && p.moves[p.goal].duration > 0.0 ==>
      Lt(HRefined(p, s), H(p, s))
  {
    if s.current == p.goal && s.pending == {} {
      assert TimeNeeded(p, s) == p.moves[p.goal].duration;
    }
  }

  /** The written heuristic is infinite on a reachable goal state: the start
      takes 108 s, one step to the goal (1.7 s) ends at 109.7 s within the
      110 s budget, and `h` still adds the goal's duration again. */
  lemma HInfiniteAtReachableGoal()
    ensures var p := Problem(map["A" := Move(108.0, {"Crouch"}), "Crouch" := Move(1.7, {})],
                             "A", "Crouch", {}, [], map[]);
            && WellFormed(p)
            && Solution(p, ["Crouch"])
            && H(p, Run(p, Init(p), ["Crouch"]).value) == Inf
  {
    var p := Problem(map["A" := Move(108.0, {"Crouch"}), "Crouch" := Move(1.7, {})],
                     "A", "Crouch", {}, [], map[]);
    var plan: seq<Name> := ["Crouch"];
    assert plan[..0] == [];
    var s := Init(p);
    assert Run(p, s, []) == Some(s);
    assert Enabled(p, s, "Crouch");
    var t := Run(p, s, plan).value;
    assert t.pending == {};
    assert t.elapsed == 109.7;
    assert SumDurations(p, {}) == 0.0;
  }
}
