/** Properties of the src/dance_planning.py search problem: what following a
    plan does to the state, which plans the search may return, what a plan
    costs, and how far the heuristic can be trusted. */
module TransitionProperties {
  import opened Basics
  import opened TransitionPlanner

  /** Unfolds the last step of a successful run. */
  lemma RunStep(p: Problem, s: State, q: seq<Name>, a: Name)
    requires Run(p, s, q + [a]).Some?
    ensures Run(p, s, q).Some?
    ensures Enabled(p, Run(p, s, q).value, a)
    ensures Run(p, s, q + [a]) == Result(p, Run(p, s, q).value, a)
  {
    assert (q + [a])[..|q|] == q;
  }

  /** Extends a successful run by one offered step. */
  lemma RunExtend(p: Problem, s: State, q: seq<Name>, a: Name)
    requires Run(p, s, q).Some? && Enabled(p, Run(p, s, q).value, a)
    ensures Run(p, s, q + [a]) == Result(p, Run(p, s, q).value, a)
    ensures Run(p, s, q + [a]).Some?
  {
    assert (q + [a])[..|q|] == q;
  }

  lemma WalkSnoc(p: Problem, path: seq<Name>, a: Name)
    requires |path| > 0 && IsWalk(p, path)
    requires Last(path) in p.moves && a in p.moves[Last(path)].compatibles
    ensures IsWalk(p, path + [a])
    ensures WalkTime(p, path + [a]) == WalkTime(p, path) + Transition(p, Last(path), a)
  {
    assert (path + [a])[..|path|] == path;
  }

  lemma WalkStep(p: Problem, s: State, q: seq<Name>, a: Name)
    requires s.current in p.moves
    requires Run(p, s, q + [a]).Some?
    requires Run(p, s, q).Some? ==>
      && IsWalk(p, [s.current] + q)
      && Run(p, s, q).value.current == Last([s.current] + q)
      && Run(p, s, q).value.elapsed == s.elapsed + WalkTime(p, [s.current] + q)
    ensures IsWalk(p, [s.current] + (q + [a]))
    ensures Run(p, s, q + [a]).value.current == Last([s.current] + (q + [a]))
    ensures Run(p, s, q + [a]).value.elapsed == s.elapsed + WalkTime(p, [s.current] + (q + [a]))
  {
    RunStep(p, s, q, a);
    WalkSnoc(p, [s.current] + q, a);
    assert [s.current] + (q + [a]) == [s.current] + q + [a];
  }

  /** A successful run walks the edges of the catalog from the current move,
      ends at the plan's last move, and charges the transition times of the
      edges it takes. */
  lemma {:induction false} RunWalk(p: Problem, s: State, plan: seq<Name>)
    requires s.current in p.moves
    requires Run(p, s, plan).Some?
    ensures IsWalk(p, [s.current] + plan)
    ensures Run(p, s, plan).value.current == Last([s.current] + plan)
    ensures Run(p, s, plan).value.elapsed == s.elapsed + WalkTime(p, [s.current] + plan)
    decreases |plan|
  {
    if plan == [] {
      assert [s.current] + plan == [s.current];
    } else {
      var q := plan[..|plan| - 1];
      var a := Last(plan);
      assert q + [a] == plan;
      RunStep(p, s, q, a);
      RunWalk(p, s, q);
      WalkStep(p, s, q, a);
    }
  }

  lemma PendingStep(p: Problem, s: State, q: seq<Name>, a: Name)
    requires Run(p, s, q + [a]).Some?
    requires Run(p, s, q).Some? ==> Run(p, s, q).value.pending == s.pending - Elems(q)
    ensures Run(p, s, q + [a]).value.pending == s.pending - Elems(q + [a])
  {
    RunStep(p, s, q, a);
    ElemsSnoc(q, a);
  }

  /** A successful run discharges exactly the performed moves. */
  lemma {:induction false} RunPending(p: Problem, s: State, plan: seq<Name>)
    requires Run(p, s, plan).Some?
    ensures Run(p, s, plan).value.pending == s.pending - Elems(plan)
    decreases |plan|
  {
    if plan != [] {
      var q := plan[..|plan| - 1];
      var a := Last(plan);
      assert q + [a] == plan;
      RunStep(p, s, q, a);
      RunPending(p, s, q);
      PendingStep(p, s, q, a);
    }
  }

  /** After at least one step, a run is within the time limit: every step is
      offered only when its transition fits. (From the initial state, at
      0 s, this covers every reachable state.) */
  lemma RunWithinLimit(p: Problem, s: State, plan: seq<Name>)
    requires Run(p, s, plan).Some?
    requires plan != [] || s.elapsed <= MaxTime
    ensures Run(p, s, plan).value.elapsed <= MaxTime
  {
    if plan != [] {
      var q := plan[..|plan| - 1];
      assert q + [Last(plan)] == plan;
      RunStep(p, s, q, Last(plan));
    }
  }

  /** Every state reachable from the initial state is within the time limit. */
  lemma ReachableWithinLimit(p: Problem, plan: seq<Name>)
    requires Run(p, Init(p), plan).Some?
    ensures Run(p, Init(p), plan).value.elapsed <= MaxTime
  {
    RunWithinLimit(p, Init(p), plan);
  }

  lemma LimitStep(p: Problem, elapsed: real, path: seq<Name>, a: Name, ext: seq<Name>)
    requires |path| > 0 && IsWalk(p, path) && ext == path + [a]
    requires Last(path) in p.moves && a in p.moves[Last(path)].compatibles
    requires PrefixesWithinLimit(p, elapsed, path)
    requires elapsed + WalkTime(p, path) + Transition(p, Last(path), a) <= MaxTime
    ensures IsWalk(p, ext)
    ensures PrefixesWithinLimit(p, elapsed, ext)
  {
    WalkSnoc(p, path, a);
    forall k | 2 <= k <= |ext|
      ensures IsWalk(p, ext[..k]) && elapsed + WalkTime(p, ext[..k]) <= MaxTime
    {
      if k <= |path| {
        assert ext[..k] == path[..k];
      } else {
        assert ext[..k] == ext;
      }
    }
  }

  /** Every step of a successful run keeps within the time limit. */
  lemma {:induction false} RunPrefixesWithinLimit(p: Problem, s: State, plan: seq<Name>)
    requires s.current in p.moves
    requires Run(p, s, plan).Some?
    ensures IsWalk(p, [s.current] + plan)
    ensures PrefixesWithinLimit(p, s.elapsed, [s.current] + plan)
    decreases |plan|
  {
    if plan != [] {
      var q := plan[..|plan| - 1];
      var a := Last(plan);
      var path := [s.current] + q;
      assert q + [a] == plan;
      assert Last(path) in p.moves && a in p.moves[Last(path)].compatibles
          && s.elapsed + WalkTime(p, path) + Transition(p, Last(path), a) <= MaxTime by {
        RunStep(p, s, q, a);
        RunWalk(p, s, q);
      }
      RunPrefixesWithinLimit(p, s, q);
      assert path + [a] == [s.current] + plan;
      LimitStep(p, s.elapsed, path, a, [s.current] + plan);
    }
  }

  lemma ShorterWalkWithinLimit(p: Problem, elapsed: real, path: seq<Name>, a: Name)
    requires |path| > 0 && IsWalk(p, path + [a])
    requires PrefixesWithinLimit(p, elapsed, path + [a])
    ensures IsWalk(p, path)
    ensures PrefixesWithinLimit(p, elapsed, path)
    ensures Last(path) in p.moves && a in p.moves[Last(path)].compatibles
    ensures elapsed + WalkTime(p, path) + Transition(p, Last(path), a) <= MaxTime
  {
    var ext := path + [a];
    assert ext[..|path|] == path;
    assert ext[..|ext|] == ext;
    assert ext[|path| - 1] == Last(path);
    forall k | 2 <= k <= |path|
      ensures IsWalk(p, path[..k]) && elapsed + WalkTime(p, path[..k]) <= MaxTime
    {
      assert ext[..k] == path[..k];
    }
    WalkSnoc(p, path, a);
  }

  lemma AcceptStep(p: Problem, s: State, q: seq<Name>, a: Name)
    requires s.current in p.moves
    requires Run(p, s, q).Some? && IsWalk(p, [s.current] + q)
    requires Last([s.current] + q) in p.moves && a in p.moves[Last([s.current] + q)].compatibles
    requires s.elapsed + WalkTime(p, [s.current] + q) + Transition(p, Last([s.current] + q), a) <= MaxTime
    ensures Run(p, s, q + [a]).Some?
  {
    RunWalk(p, s, q);
    RunExtend(p, s, q, a);
  }

  /** Conversely, every walk from the current move that keeps within the
      time limit at every step is followed to the end by a run. */
  lemma {:induction false} RunAccepts(p: Problem, s: State, plan: seq<Name>)
    requires s.current in p.moves
    requires IsWalk(p, [s.current] + plan)
    requires PrefixesWithinLimit(p, s.elapsed, [s.current] + plan)
    ensures Run(p, s, plan).Some?
    decreases |plan|
  {
    if plan != [] {
      var q := plan[..|plan| - 1];
      var a := Last(plan);
      assert q + [a] == plan;
      assert [s.current] + plan == ([s.current] + q) + [a];
      ShorterWalkWithinLimit(p, s.elapsed, [s.current] + q, a);
      RunAccepts(p, s, q);
      AcceptStep(p, s, q, a);
    }
  }

  /** A run succeeds exactly when the plan is a walk from the current move
      whose every step keeps within the time limit. Self-loops are walks too:
      nothing forbids performing a move twice in a row. */
  lemma RunSucceedsIff(p: Problem, s: State, plan: seq<Name>)
    requires s.current in p.moves
    ensures Run(p, s, plan).Some? <==>
      IsWalk(p, [s.current] + plan) && PrefixesWithinLimit(p, s.elapsed, [s.current] + plan)
  {
    if Run(p, s, plan).Some? {
      RunPrefixesWithinLimit(p, s, plan);
    } else if IsWalk(p, [s.current] + plan) && PrefixesWithinLimit(p, s.elapsed, [s.current] + plan) {
      RunAccepts(p, s, plan);
    }
  }

  /** The plans the search may return are exactly the valid choreographies. */
  lemma SolutionIsValidChoreography(p: Problem, plan: seq<Name>)
    requires WellFormed(p)
    ensures Solution(p, plan) <==> ValidChoreography(p, plan)
  {
    var s := Init(p);
    RunSucceedsIff(p, s, plan);
    if Run(p, s, plan).Some? {
      RunWalk(p, s, plan);
      RunPending(p, s, plan);
      var t := Run(p, s, plan).value;
      assert t.pending == {} <==> p.mandatory <= Elems(plan) by {
        if t.pending == {} {
          forall x | x in p.mandatory ensures x in Elems(plan) {
            assert x !in t.pending;
          }
        }
      }
    }
  }

  // ---------------------------------------------------------------------
  // Plan cost
  // ---------------------------------------------------------------------

  /** The step cost depends only on the edge taken: two states at the same
      move give the same `path_cost`, whatever their history, pending set,
      elapsed time or successor state. */
  lemma PathCostHistoryIndependent(p: Problem, c: real, s1: State, t1: State, a: Name, s2: State, t2: State)
    requires WellFormed(p) && s1.current in p.moves && s1.current == t1.current
    ensures PathCost(p, c, s1, a, s2) == PathCost(p, c, t1, a, t2)
    ensures a in p.moves[s1.current].compatibles ==>
      PathCost(p, c, s1, a, s2) == Some(c + StepCost(p, s1.current, a))
  {
  }

  lemma CostStep(p: Problem, s: State, q: seq<Name>, a: Name, plan: seq<Name>)
    requires WellFormed(p) && s.current in p.moves && plan == q + [a]
    requires Run(p, s, plan).Some?
    requires Run(p, s, q).Some? ==>
      (PlanCost(p, s, q) == Some(Run(p, s, q).value.elapsed - s.elapsed - AestheticWeight * AestheticSum(p, q)))
    ensures PlanCost(p, s, plan) ==
      Some(Run(p, s, plan).value.elapsed - s.elapsed - AestheticWeight * AestheticSum(p, plan))
  {
    assert plan[..|plan| - 1] == q && Last(plan) == a;
    RunStep(p, s, q, a);
    var u := Run(p, s, q).value;
    assert PlanCost(p, s, plan) == PathCost(p, PlanCost(p, s, q).value, u, a, Run(p, s, plan).value);
    var aesthetic := p.moves[a].aesthetic;
    assert AestheticSum(p, plan) == AestheticSum(p, q) + aesthetic;
    assert AestheticWeight * AestheticSum(p, plan) ==
      AestheticWeight * AestheticSum(p, q) + aesthetic * AestheticWeight;
  }

  /** The cost the search attaches to a successful plan is the time the plan
      takes minus the weighted aesthetic score of the moves it performs. */
  lemma {:induction false} PlanCostIsTimeMinusAesthetic(p: Problem, s: State, plan: seq<Name>)
    requires WellFormed(p) && s.current in p.moves
    requires Run(p, s, plan).Some?
    ensures PlanCost(p, s, plan) ==
      Some(Run(p, s, plan).value.elapsed - s.elapsed - AestheticWeight * AestheticSum(p, plan))
    decreases |plan|
  {
    if plan != [] {
      var q := plan[..|plan| - 1];
      var a := Last(plan);
      assert q + [a] == plan;
      RunStep(p, s, q, a);
      PlanCostIsTimeMinusAesthetic(p, s, q);
      CostStep(p, s, q, a, plan);
    }
  }

  // ---------------------------------------------------------------------
  // The heuristic
  // ---------------------------------------------------------------------

  lemma LowerBoundStep(p: Problem, s: State, q: seq<Name>, a: Name)
    requires WellFormed(p) && s.current in p.moves
    requires Run(p, s, q + [a]).Some?
    requires Run(p, s, q).Some? ==>
      PlanCost(p, s, q).Some? && PlanCost(p, s, q).value >= Accrued(StepLowerBound(p), |q|)
    ensures PlanCost(p, s, q + [a]).Some?
    ensures PlanCost(p, s, q + [a]).value >= Accrued(StepLowerBound(p), |q + [a]|)
  {
    RunStep(p, s, q, a);
    assert (q + [a])[..|q|] == q;
    var u := Run(p, s, q).value;
    assert StepLowerBound(p) <= StepCost(p, u.current, a);
  }

  /** No plan costs less than its length times the cheapest step. */
  lemma {:induction false} PlanCostLowerBound(p: Problem, s: State, plan: seq<Name>)
    requires WellFormed(p) && s.current in p.moves
    requires Run(p, s, plan).Some?
    ensures PlanCost(p, s, plan).Some?
    ensures PlanCost(p, s, plan).value >= Accrued(StepLowerBound(p), |plan|)
    decreases |plan|
  {
    if plan != [] {
      var q := plan[..|plan| - 1];
      var a := Last(plan);
      assert q + [a] == plan;
      RunStep(p, s, q, a);
      PlanCostLowerBound(p, s, q);
      LowerBoundStep(p, s, q, a);
    }
  }

  /** With non-negative step costs the cheapest step is non-negative. */
  lemma StepLowerBoundNonNegative(p: Problem)
    requires WellFormed(p) && NonNegativeStepCosts(p)
    ensures StepLowerBound(p) >= 0.0
  {
    if Edges(p) != {} {
      var e :| e in Edges(p) && StepLowerBound(p) == StepCost(p, e.0, e.1);
    }
  }

  /** A continuation from `s` that reaches a goal state performs every
      pending move, and (with non-negative transitions) `s` was within the
      time limit already. */
  lemma CompletionFacts(p: Problem, s: State, plan: seq<Name>)
    requires NonNegativeTransitions(p)
    requires s.current in p.moves
    requires Run(p, s, plan).Some? && GoalTest(p, Run(p, s, plan).value)
    ensures s.elapsed <= MaxTime
    ensures s.pending <= Elems(plan)
    ensures |s.pending| <= |plan|
  {
    RunPending(p, s, plan);
    RunWalk(p, s, plan);
    WalkTimeNonNegative(p, [s.current] + plan);
    var t := Run(p, s, plan).value;
    assert s.pending <= Elems(plan) by {
      forall x | x in s.pending ensures x in Elems(plan) {
        assert x !in t.pending;
      }
    }
    ElemsCardinality(plan);
    SubsetCardinality(s.pending, Elems(plan));
  }

  /** The corrected heuristic is admissible when every step costs at least
      zero: whenever a continuation from `s` reaches a goal state, the
      estimate is finite and no larger than that continuation's cost. */
  lemma HGlobalAdmissible(p: Problem, s: State, plan: seq<Name>)
    requires WellFormed(p) && NonNegativeTransitions(p) && NonNegativeStepCosts(p)
    requires s.current in p.moves
    requires Run(p, s, plan).Some? && GoalTest(p, Run(p, s, plan).value)
    ensures HGlobal(p, s).Fin?
    ensures PlanCost(p, s, plan).Some? && HGlobal(p, s).r <= PlanCost(p, s, plan).value
  {
    CompletionFacts(p, s, plan);
    PlanCostLowerBound(p, s, plan);
    StepLowerBoundNonNegative(p);
    HGlobalBelow(p, s, |plan|, PlanCost(p, s, plan).value);
  }

  /** The corrected estimate is at most any cost that pays the cheapest step
      at least once per pending move. */
  lemma HGlobalBelow(p: Problem, s: State, steps: nat, cost: real)
    requires WellFormed(p) && StepLowerBound(p) >= 0.0
    requires s.elapsed <= MaxTime && |s.pending| <= steps
    requires Accrued(StepLowerBound(p), steps) <= cost
    ensures HGlobal(p, s).Fin? && HGlobal(p, s).r <= cost
  {
    var g := StepLowerBound(p);
    AccruedMonotone(g, |s.pending|, steps);
  }

  lemma SubsetCardinality<T>(a: set<T>, b: set<T>)
    requires a <= b
    ensures |a| <= |b|
  {
    assert b == a + (b - a);
  }

  lemma {:induction false} WalkTimeNonNegative(p: Problem, path: seq<Name>)
    requires IsWalk(p, path) && NonNegativeTransitions(p)
    ensures WalkTime(p, path) >= 0.0
    decreases |path|
  {
    if |path| > 1 {
      var q := path[..|path| - 1];
      assert IsWalk(p, q);
      WalkTimeNonNegative(p, q);
    }
  }

  /** A three-move catalog on which the heuristic as written overestimates:
      A's only edge takes 100 s to B, B's only edge 16 s to C, every
      aesthetic score is 0, and B and C are mandatory. */
  function Overestimated(): (p: Problem)
    ensures WellFormed(p)
  {
    Problem(map["A" := Move(0.0, map["B" := 100.0]),
                "B" := Move(0.0, map["C" := 16.0]),
                "C" := Move(0.0, map[])],
            "A", "C", {"B", "C"})
  }

  /** The heuristic as written is not admissible, although its docstring says
      it is: it prices every pending move at the cheapest edge leaving the
      CURRENT move. On `Overestimated` it estimates 2 * 100 = 200 at the
      initial state, while the plan [B, C] (100 s + 16 s) is a solution
      costing 116. The corrected heuristic stays below that cost. */
  lemma HNotAdmissible()
    ensures Solution(Overestimated(), ["B", "C"])
    ensures PlanCost(Overestimated(), Init(Overestimated()), ["B", "C"]) == Some(116.0)
    ensures H(Overestimated(), Init(Overestimated())) == Some(Fin(200.0))
    ensures HGlobal(Overestimated(), Init(Overestimated())).r <= 116.0
  {
    OverestimatedRun();
    OverestimatedCost();
    OverestimatedH();
    OverestimatedNonNegative();
    HGlobalAdmissible(Overestimated(), Init(Overestimated()), ["B", "C"]);
  }

  lemma OverestimatedCost()
    ensures PlanCost(Overestimated(), Init(Overestimated()), ["B", "C"]) == Some(116.0)
  {
    var p := Overestimated();
    OverestimatedRun();
    PlanCostIsTimeMinusAesthetic(p, Init(p), ["B", "C"]);
    assert AestheticSum(p, ["B", "C"]) == 0.0 by {
      assert ["B", "C"][..1] == ["B"] && ["B"][..0] == [];
    }
  }

  lemma OverestimatedH()
    ensures H(Overestimated(), Init(Overestimated())) == Some(Fin(200.0))
  {
    var p := Overestimated();
    var edges := p.moves["A"].compatibles;
    assert edges.Keys == {"B"};
    assert MinValue(edges) == 100.0;
    assert |Init(p).pending| == 2;
  }

  /** On `Overestimated`, the plan [B, C] ends at C with nothing pending after
      116 s. */
  lemma OverestimatedRun()
    ensures Run(Overestimated(), Init(Overestimated()), ["B", "C"]) == Some(State("C", {}, 116.0))
  {
    var p := Overestimated();
    var s := Init(p);
    var s1 := State("B", {"C"}, 100.0);
    assert Run(p, s, []) == Some(s);
    assert Enabled(p, s, "B");
    RunExtend(p, s, [], "B");
    assert [] + ["B"] == ["B"];
    assert {"B", "C"} - {"B"} == {"C"};
    assert Run(p, s, ["B"]) == Some(s1);
    assert Enabled(p, s1, "C");
    RunExtend(p, s, ["B"], "C");
    assert ["B"] + ["C"] == ["B", "C"];
  }

  lemma OverestimatedNonNegative()
    ensures NonNegativeTransitions(Overestimated()) && NonNegativeStepCosts(Overestimated())
  {
    var p := Overestimated();
    forall u, v | u in p.moves && v in p.moves[u].compatibles
      ensures p.moves[u].compatibles[v] >= 0.0 && StepCost(p, u, v) >= 0.0
    {
      assert u == "A" || u == "B" || u == "C";
    }
  }
}
