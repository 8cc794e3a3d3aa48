/** `generate_full_choreography` of src/a.py: chain cheapest walks from the
    initial position through each mandatory position in turn, the last of
    which must be the final position. */
module Choreography {
  import opened Basics
  import opened MoveGraph
  import opened ShortestPath
  import opened Chain

  const InitialPosition: Name := "StandInit"
  const FinalPosition: Name := "Crouch"

  /** The full sequence of positions and its total time; `([], 0)` reports
      failure. */
  datatype Choreography = Choreography(sequence: seq<Name>, total: real)

  /** The segment end points: the initial position, then every goal. */
  function Segments(goals: seq<Name>): (r: seq<Name>)
    ensures |r| == |goals| + 1 && r[0] == InitialPosition
    ensures forall k :: 0 <= k < |goals| ==> r[k + 1] == goals[k]
  {
    [InitialPosition] + goals
  }

  /** One pass of the loop of `generate_full_choreography`: plan segment `i`
      and append it (whole for the first segment, without its first position
      afterwards). */
  method AppendSegment(g: Graph, segs: seq<Name>, i: nat, full: seq<Name>, total: real, ghost marks: seq<nat>)
    returns (ok: bool, full': seq<Name>, total': real, ghost marks': seq<nat>)
    requires NonNegativeTimes(g) && i + 1 < |segs| && NeighborsKnown(g, segs[i])
    requires i == 0 ==> full == []
    requires i > 0 ==> Assembled(g, segs, i, full, total, marks)
    ensures !ok <==> Unreachable(g, segs[i], segs[i + 1])
    ensures ok ==> Assembled(g, segs, i + 1, full', total', marks')
  {
    var start := segs[i];
    var goal := segs[i + 1];
    var r := AStarPlanner(g, start, goal);
    ok := r.Found?;
    assert !ok <==> Unreachable(g, start, goal) by {
      if ok {
        FoundIsReachable(g, start, goal, r.path, r.cost);
      }
    }
    if !ok {
      return ok, full, total, marks;
    }
    assert Cheapest(g, r.path) by {
      forall w | WalkBetween(g, r.path[0], Last(r.path), w) ensures Le(WalkCost(g, r.path), WalkCost(g, w)) {
        assert WalkBetween(g, start, goal, w);
      }
    }
    full' := if i == 0 then r.path else full + r.path[1..];
    total' := if i == 0 then r.cost else total + r.cost;
    marks' := AppendFound(g, segs, i, full, total, marks, r.path, r.cost, full', total');
  }

  /** `generate_full_choreography(mandatory_goals)`. The goal list must be
      non-empty (the program indexes its last element) and every segment's
      start must have its successors in the search's cost table. */
  method GenerateFullChoreography(g: Graph, goals: seq<Name>) returns (c: Choreography, ghost marks: seq<nat>)
    requires |goals| > 0 && NonNegativeTimes(g)
    requires forall k :: 0 <= k < |goals| ==> NeighborsKnown(g, Segments(goals)[k])
    ensures c.sequence == [] ==> c.total == 0.0
    ensures c.sequence == [] <==>
      (Last(goals) != FinalPosition ||
       exists k :: 0 <= k < |goals| && Unreachable(g, Segments(goals)[k], Segments(goals)[k + 1]))
    ensures c.sequence != [] ==> c.sequence[0] == InitialPosition && Last(c.sequence) == Last(goals)
    ensures c.sequence != [] ==> Assembled(g, Segments(goals), |goals|, c.sequence, c.total, marks)
  {
    marks := [];
    if Last(goals) != FinalPosition {
      return Choreography([], 0.0), marks;
    }
    var segs := Segments(goals);
    var full: seq<Name> := [];
    var total := 0.0;
    var i := 0;
    while i < |segs| - 1
      invariant 0 <= i <= |goals|
      invariant i == 0 ==> full == []
      invariant i > 0 ==> Assembled(g, segs, i, full, total, marks)
      invariant forall k :: 0 <= k < i ==> !Unreachable(g, segs[k], segs[k + 1])
    {
      var ok;
      ok, full, total, marks := AppendSegment(g, segs, i, full, total, marks);
      if !ok {
        assert Unreachable(g, segs[i], segs[i + 1]);
        return Choreography([], 0.0), marks;
      }
      i := i + 1;
    }
    ChainEnds(g, segs, |goals|, full, total, marks);
    c := Choreography(full, total);
  }

}
