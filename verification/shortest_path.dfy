/** `a_star_planner` of src/a.py: a best-first search with a zero heuristic
    (so, Dijkstra's algorithm) over the move graph. The priority queue is a
    sequence; each round removes an entry of least cost `g` (the program's
    heap breaks ties by node name and path, which the model leaves open: every
    property below holds for any tie-break). An entry is not discarded when a
    cheaper one for its node was found since; it is simply expanded again.

    Correctness rests on ghost bookkeeping carried alongside the program's
    state: every path ever pushed, the path on which each node was first
    expanded ("closed"), and for each node the path that set its current best
    cost. */
module ShortestPath {
  import opened Basics
  import opened MoveGraph

  /** A queue entry: the cost so far, the node reached, and the path to it. */
  datatype Entry = Entry(g: real, node: Name, path: seq<Name>)

  /** What `a_star_planner` returns: `(None, 0)` or `(path, cost)`. */
  datatype Plan = NoPath | Found(path: seq<Name>, cost: real)

  /** The program's state plus the ghost bookkeeping of the proof. */
  datatype Frontier = Frontier(
    queue: seq<Entry>,
    best: map<Name, ExtReal>,
    pushed: set<seq<Name>>,
    closer: map<Name, seq<Name>>,
    via: map<Name, seq<Name>>)

  function QueuePaths(queue: seq<Entry>): set<seq<Name>>
  {
    set e | e in queue :: e.path
  }

  /** A path the search may hold: from the start, along the graph, without
      repeats, through known nodes, at finite cost. */
  predicate PathOk(g: Graph, start: Name, p: seq<Name>)
  {
    && |p| > 0
    && p[0] == start
    && IsWalk(g, p)
    && NoDup(p)
    && Elems(p) <= Nodes(g, start)
    && WalkCost(g, p).Fin?
  }

  /** No walk from the start to the end of `p` is cheaper than `p`. */
  ghost predicate Optimal(g: Graph, start: Name, p: seq<Name>)
  {
    |p| > 0 && forall w :: WalkBetween(g, start, Last(p), w) ==> Le(WalkCost(g, p), WalkCost(g, w))
  }

  /** Every successor of the end of `p` has a best cost no larger than
      going there through `p`. */
  predicate Relaxed(g: Graph, best: map<Name, ExtReal>, p: seq<Name>)
  {
    |p| > 0 &&
    forall y :: y in Neighbors(g, Last(p)) ==>
      y in best && Le(best[y], Add(WalkCost(g, p), EdgeCost(g, Last(p), y)))
  }

  /** Each queued entry's cost is the cost of its path, which was pushed. */
  ghost predicate QueueOk(g: Graph, queue: seq<Entry>, pushed: set<seq<Name>>)
  {
    forall e :: e in queue ==>
      e.path in pushed && |e.path| > 0 && e.node == Last(e.path) && WalkCost(g, e.path) == Fin(e.g)
  }

  /** No prefix of `p` is cheaper than the best cost of the node it ends at. */
  ghost predicate PrefixesAbove(g: Graph, best: map<Name, ExtReal>, p: seq<Name>)
  {
    forall j :: 0 <= j < |p| ==> p[j] in best && Le(best[p[j]], WalkCost(g, p[..j + 1]))
  }

  /** Pushed paths are well-formed and none of their prefixes is cheaper
      than the best cost of its end. */
  ghost predicate PushedOk(g: Graph, start: Name, best: map<Name, ExtReal>, pushed: set<seq<Name>>)
  {
    forall p :: p in pushed ==> PathOk(g, start, p) && PrefixesAbove(g, best, p)
  }

  /** Every finite best cost is the cost of a pushed path that is still
      queued, unless its node is closed. */
  ghost predicate Witnessed(g: Graph, queue: seq<Entry>, best: map<Name, ExtReal>, pushed: set<seq<Name>>,
                            closer: map<Name, seq<Name>>, via: map<Name, seq<Name>>)
  {
    forall y :: y in best && best[y].Fin? ==>
      && y in via
      && via[y] in pushed
      && |via[y]| > 0
      && Last(via[y]) == y
      && WalkCost(g, via[y]) == best[y]
      && (y in closer || via[y] in QueuePaths(queue))
  }

  /** Each closed node was closed along an optimal path, whose successors
      have been relaxed; the goal is never closed. */
  ghost predicate Closed(g: Graph, start: Name, goal: Name, best: map<Name, ExtReal>, pushed: set<seq<Name>>,
                         closer: map<Name, seq<Name>>)
  {
    forall x :: x in closer ==>
      && closer[x] in pushed
      && |closer[x]| > 0
      && Last(closer[x]) == x
      && x != goal
      && Optimal(g, start, closer[x])
      && Relaxed(g, best, closer[x])
  }

  /** The loop invariant of the search. */
  ghost predicate Inv(g: Graph, start: Name, goal: Name, s: Frontier)
  {
    && s.best.Keys == Nodes(g, start)
    && [start] in s.pushed
    && QueueOk(g, s.queue, s.pushed)
    && PushedOk(g, start, s.best, s.pushed)
    && Witnessed(g, s.queue, s.best, s.pushed, s.closer, s.via)
    && Closed(g, start, goal, s.best, s.pushed, s.closer)
  }

  /** The frontier cut: any finite-cost walk from the start to a node that is
      not closed is matched by a queued entry that costs no more. */
  lemma {:induction false} Cut(g: Graph, start: Name, goal: Name, s: Frontier, w: seq<Name>)
    requires NonNegativeTimes(g) && Inv(g, start, goal, s)
    requires |w| > 0 && WalkBetween(g, start, Last(w), w) && WalkCost(g, w).Fin?
    requires Last(w) !in s.closer
    ensures exists e :: e in s.queue && e.g <= WalkCost(g, w).r
    decreases |w|
  {
    if |w| == 1 {
      assert w == [start];
      SingletonWalk(g, start);
      BestBelowEnd(g, s.best, [start]);
      CutAtWitness(g, start, goal, s, start, w);
    } else {
      var v := w[..|w| - 1];
      WalkPrefix(g, w);
      if Last(v) !in s.closer {
        Cut(g, start, goal, s, v);
      } else {
        ThroughClosed(g, start, goal, s, w);
        CutAtWitness(g, start, goal, s, Last(w), w);
      }
    }
  }

  /** A walk whose second-to-last node is closed ends at a node whose best
      cost is no more than the walk's. */
  lemma ThroughClosed(g: Graph, start: Name, goal: Name, s: Frontier, w: seq<Name>)
    requires NonNegativeTimes(g) && Closed(g, start, goal, s.best, s.pushed, s.closer)
    requires |w| > 1 && WalkBetween(g, start, Last(w), w) && WalkCost(g, w).Fin?
    requires w[|w| - 2] in s.closer
    ensures Last(w) in s.best && Le(s.best[Last(w)], WalkCost(g, w))
  {
    var v := w[..|w| - 1];
    var x := w[|w| - 2];
    var y := Last(w);
    WalkPrefix(g, w);
    assert Last(v) == x;
    assert y in Neighbors(g, x);
    var q := s.closer[x];
    assert WalkBetween(g, start, x, v);
    assert Le(WalkCost(g, q), WalkCost(g, v));
  }

  /** An open node with a finite best cost has a queued entry at that cost. */
  lemma CutAtWitness(g: Graph, start: Name, goal: Name, s: Frontier, y: Name, w: seq<Name>)
    requires Inv(g, start, goal, s)
    requires y in s.best && y !in s.closer && WalkCost(g, w).Fin? && Le(s.best[y], WalkCost(g, w))
    ensures exists e :: e in s.queue && e.g <= WalkCost(g, w).r
  {
    var p := s.via[y];
    var e :| e in s.queue && e.path == p;
  }

  // ---------------------------------------------------------------------
  // The two steps of a round
  // ---------------------------------------------------------------------

  /** `heappop`: the index of an entry of least cost (the first such). */
  method PopMin(queue: seq<Entry>) returns (i: nat)
    requires |queue| > 0
    ensures i < |queue|
    ensures forall j :: 0 <= j < |queue| ==> queue[i].g <= queue[j].g
  {
    i := 0;
    var j := 1;
    while j < |queue|
      invariant 1 <= j <= |queue| && i < j
      invariant forall k :: 0 <= k < j ==> queue[i].g <= queue[k].g
    {
      if queue[j].g < queue[i].g {
        i := j;
      }
      j := j + 1;
    }
  }

  /** The neighbour `y` of `x` is reached more cheaply through an entry of
      cost `gx` than its best cost so far (strictly; an infinite edge never
      improves). */
  predicate Improves(g: Graph, best: map<Name, ExtReal>, gx: real, x: Name, y: Name)
  {
    y in Neighbors(g, x) && y in best && Lt(Add(Fin(gx), EdgeCost(g, x, y)), best[y])
  }

  /** The cost table after relaxing the successors in `done` of `x`: each is
      lowered to the cost through `x` when that is smaller, the rest are
      unchanged. */
  ghost predicate TableOver(g: Graph, best: map<Name, ExtReal>, gx: real, x: Name, done: set<Name>,
                            best': map<Name, ExtReal>)
  {
    && best'.Keys == best.Keys
    && (forall y :: y in best && y !in done ==> best'[y] == best[y])
    && (forall y :: y in done ==> y in best && best'[y] == Min(best[y], Add(Fin(gx), EdgeCost(g, x, y))))
  }

  /** An entry pushed while expanding `path` at cost `gx`. */
  predicate NewEntry(g: Graph, best: map<Name, ExtReal>, gx: real, path: seq<Name>, f: Entry)
  {
    && |path| > 0
    && Improves(g, best, gx, Last(path), f.node)
    && f.path == path + [f.node]
    && Fin(f.g) == Add(Fin(gx), EdgeCost(g, Last(path), f.node))
  }

  /** The queue after relaxing the successors in `done`: the old queue
      followed by one entry for each successor that improved. */
  ghost predicate PushedOver(g: Graph, best: map<Name, ExtReal>, queue: seq<Entry>, gx: real, path: seq<Name>,
                             done: set<Name>, queue': seq<Entry>)
  {
    && |path| > 0
    && |queue| <= |queue'|
    && queue'[..|queue|] == queue
    && (forall i :: |queue| <= i < |queue'| ==> NewEntry(g, best, gx, path, queue'[i]))
    && (forall y :: y in done && Improves(g, best, gx, Last(path), y) ==>
          exists i :: |queue| <= i < |queue'| && queue'[i].node == y)
  }

  /** What the inner loop does to the cost table and the queue. */
  ghost predicate RelaxSpec(g: Graph, best: map<Name, ExtReal>, queue: seq<Entry>, gx: real, path: seq<Name>,
                            best': map<Name, ExtReal>, queue': seq<Entry>)
  {
    && |path| > 0
    && TableOver(g, best, gx, Last(path), Neighbors(g, Last(path)), best')
    && PushedOver(g, best, queue, gx, path, Neighbors(g, Last(path)), queue')
  }

  lemma TableStep(g: Graph, best: map<Name, ExtReal>, gx: real, x: Name, done: set<Name>,
                  best': map<Name, ExtReal>, y: Name)
    requires TableOver(g, best, gx, x, done, best') && y in best && y !in done
    ensures var newG := Add(Fin(gx), EdgeCost(g, x, y));
            TableOver(g, best, gx, x, done + {y}, if Lt(newG, best'[y]) then best'[y := newG] else best')
  {
  }

  lemma PushStep(g: Graph, best: map<Name, ExtReal>, queue: seq<Entry>, gx: real, path: seq<Name>,
                 done: set<Name>, best': map<Name, ExtReal>, queue': seq<Entry>, y: Name)
    requires PushedOver(g, best, queue, gx, path, done, queue')
    requires TableOver(g, best, gx, Last(path), done, best')
    requires y in best && y !in done && y in Neighbors(g, Last(path))
    ensures var newG := Add(Fin(gx), EdgeCost(g, Last(path), y));
            PushedOver(g, best, queue, gx, path, done + {y},
                       if Lt(newG, best'[y]) then queue' + [Entry(newG.r, y, path + [y])] else queue')
  {
    var newG := Add(Fin(gx), EdgeCost(g, Last(path), y));
    if Lt(newG, best'[y]) {
      var q := queue' + [Entry(newG.r, y, path + [y])];
      assert q[..|queue'|] == queue';
      assert q[..|queue|] == queue;
      assert q[|queue'|].node == y;
      assert NewEntry(g, best, gx, path, q[|queue'|]);
    }
  }

  /** The inner loop: for each successor of the expanded node, lower its
      best cost and push it when going through `path` is strictly cheaper. */
  method Relax(g: Graph, best: map<Name, ExtReal>, queue: seq<Entry>, gx: real, path: seq<Name>)
    returns (best': map<Name, ExtReal>, queue': seq<Entry>)
    requires |path| > 0 && Neighbors(g, Last(path)) <= best.Keys
    ensures RelaxSpec(g, best, queue, gx, path, best', queue')
    ensures best'.Keys == best.Keys && forall y :: y in best ==> Le(best'[y], best[y])
    ensures |queue| <= |queue'| && queue'[..|queue|] == queue
  {
    var x := Last(path);
    var todo := Neighbors(g, x);
    ghost var done: set<Name> := {};
    best' := best;
    queue' := queue;
    while todo != {}
      invariant todo + done == Neighbors(g, x) && todo !! done
      invariant TableOver(g, best, gx, x, done, best')
      invariant PushedOver(g, best, queue, gx, path, done, queue')
      decreases |todo|
    {
      var y :| y in todo;
      todo := todo - {y};
      var transitionCost := EdgeCost(g, x, y);
      var newG := Add(Fin(gx), transitionCost);
      TableStep(g, best, gx, x, done, best', y);
      PushStep(g, best, queue, gx, path, done, best', queue', y);
      if Lt(newG, best'[y]) {
        best' := best'[y := newG];
        queue' := queue' + [Entry(newG.r, y, path + [y])];
      }
      done := done + {y};
    }
    RelaxKeeps(g, best, queue, gx, path, best', queue');
  }

  /** Relaxing only lowers entries of the cost table and only appends to
      the queue. */
  lemma RelaxKeeps(g: Graph, best: map<Name, ExtReal>, queue: seq<Entry>, gx: real, path: seq<Name>,
                   best': map<Name, ExtReal>, queue': seq<Entry>)
    requires RelaxSpec(g, best, queue, gx, path, best', queue')
    ensures best'.Keys == best.Keys && forall y :: y in best ==> Le(best'[y], best[y])
    ensures |queue| <= |queue'| && queue'[..|queue|] == queue
  {
  }

  // ---------------------------------------------------------------------
  // One round preserves the invariant
  // ---------------------------------------------------------------------

  /** The successors a round improves. */
  ghost function Improved(g: Graph, best: map<Name, ExtReal>, e: Entry): set<Name>
    requires |e.path| > 0
  {
    set y | y in Neighbors(g, Last(e.path)) && Improves(g, best, e.g, Last(e.path), y)
  }

  /** The paths a round pushes. */
  ghost function NewPaths(g: Graph, best: map<Name, ExtReal>, e: Entry): set<seq<Name>>
    requires |e.path| > 0
  {
    set y | y in Improved(g, best, e) :: e.path + [y]
  }

  ghost function PushedAfter(g: Graph, s: Frontier, e: Entry): set<seq<Name>>
    requires |e.path| > 0
  {
    s.pushed + NewPaths(g, s.best, e)
  }

  /** The expanded node is closed on its first expansion. */
  ghost function CloserAfter(s: Frontier, e: Entry): map<Name, seq<Name>>
    requires |e.path| > 0
  {
    if Last(e.path) in s.closer then s.closer else s.closer[Last(e.path) := e.path]
  }

  /** Improved successors get the pushed path as their witness. */
  ghost function ViaAfter(g: Graph, s: Frontier, e: Entry): map<Name, seq<Name>>
    requires |e.path| > 0
  {
    var improved := Improved(g, s.best, e);
    map y | y in s.via.Keys + improved :: if y in improved then e.path + [y] else s.via[y]
  }

  /** The bookkeeping after expanding `e` with the relaxation result
      `best'`, `queue'`. */
  ghost function Expand(g: Graph, s: Frontier, e: Entry, best': map<Name, ExtReal>, queue': seq<Entry>): Frontier
    requires |e.path| > 0
  {
    Frontier(queue', best', PushedAfter(g, s, e), CloserAfter(s, e), ViaAfter(g, s, e))
  }

  /** The queue without its entry at `i`. */
  function Without(queue: seq<Entry>, i: nat): seq<Entry>
    requires i < |queue|
  {
    queue[..i] + queue[i + 1..]
  }

  /** The facts a round starts from: `e` is an entry of least cost, removed
      from the queue to give `rest`, not at the goal, and relaxed. */
  ghost predicate Round(g: Graph, start: Name, goal: Name, s: Frontier, e: Entry, rest: seq<Entry>,
                        best': map<Name, ExtReal>, queue': seq<Entry>)
  {
    && NonNegativeTimes(g) && NeighborsKnown(g, start)
    && Inv(g, start, goal, s)
    && e in s.queue
    && (forall f :: f in s.queue ==> e.g <= f.g)
    && (forall f :: f in rest ==> f in s.queue)
    && QueuePaths(s.queue) <= QueuePaths(rest) + {e.path}
    && e.node != goal
    && |e.path| > 0
    && RelaxSpec(g, s.best, rest, e.g, e.path, best', queue')
  }

  /** A path pushed by a round is well-formed, new, and costs the expanded
      entry's cost plus the transition. */
  lemma NewPathFacts(g: Graph, start: Name, best: map<Name, ExtReal>, pushed: set<seq<Name>>, e: Entry, y: Name)
    requires NonNegativeTimes(g) && NeighborsKnown(g, start) && PushedOk(g, start, best, pushed)
    requires e.path in pushed && |e.path| > 0 && WalkCost(g, e.path) == Fin(e.g)
    requires Improves(g, best, e.g, Last(e.path), y)
    ensures PathOk(g, start, e.path + [y])
    ensures e.path + [y] !in pushed
    ensures WalkCost(g, e.path + [y]) == Add(Fin(e.g), EdgeCost(g, Last(e.path), y))
  {
    var p := e.path;
    var x := Last(p);
    var c := EdgeCost(g, x, y);
    WalkSnoc(g, p, y);
    assert PathOk(g, start, p) && PrefixesAbove(g, best, p);
    assert c.Fin? && c.r >= 0.0;
    if y in Elems(p) {
      var j :| 0 <= j < |p| && p[j] == y;
      PrefixCost(g, p, j + 1);
      LeTrans(best[y], WalkCost(g, p[..j + 1]), WalkCost(g, p));
      assert false;
    }
    ElemsSnoc(p, y);
    assert y in Nodes(g, start);
    assert NoDup(p + [y]);
    if p + [y] in pushed {
      BestBelowEnd(g, best, p + [y]);
    }
  }

  lemma RoundQueue(g: Graph, start: Name, s: Frontier, e: Entry, rest: seq<Entry>,
                   best': map<Name, ExtReal>, queue': seq<Entry>)
    requires NonNegativeTimes(g) && NeighborsKnown(g, start)
    requires QueueOk(g, s.queue, s.pushed) && PushedOk(g, start, s.best, s.pushed)
    requires e in s.queue && (forall f :: f in rest ==> f in s.queue)
    requires RelaxSpec(g, s.best, rest, e.g, e.path, best', queue')
    ensures QueueOk(g, queue', PushedAfter(g, s, e))
  {
    var pushed' := PushedAfter(g, s, e);
    forall f | f in queue'
      ensures f.path in pushed' && |f.path| > 0 && f.node == Last(f.path) && WalkCost(g, f.path) == Fin(f.g)
    {
      var i :| 0 <= i < |queue'| && queue'[i] == f;
      if i < |rest| {
        assert queue'[..|rest|] == rest;
        assert f in rest;
      } else {
        assert NewEntry(g, s.best, e.g, e.path, f);
        NewPathFacts(g, start, s.best, s.pushed, e, f.node);
        assert f.node in Improved(g, s.best, e);
      }
    }
  }

  lemma RoundPushed(g: Graph, start: Name, s: Frontier, e: Entry, best': map<Name, ExtReal>)
    requires NonNegativeTimes(g) && NeighborsKnown(g, start)
    requires QueueOk(g, s.queue, s.pushed) && PushedOk(g, start, s.best, s.pushed)
    requires e in s.queue
    requires TableOver(g, s.best, e.g, Last(e.path), Neighbors(g, Last(e.path)), best')
    ensures PushedOk(g, start, best', PushedAfter(g, s, e))
  {
    var x := Last(e.path);
    forall y | y in s.best ensures y in best' && Le(best'[y], s.best[y]) {
    }
    forall p | p in PushedAfter(g, s, e) ensures PathOk(g, start, p) && PrefixesAbove(g, best', p) {
      if p in s.pushed {
        PrefixesAboveLower(g, s.best, best', p);
      } else {
        var y :| y in Improved(g, s.best, e) && p == e.path + [y];
        NewPathFacts(g, start, s.best, s.pushed, e, y);
        PrefixesAboveLower(g, s.best, best', e.path);
        PrefixesAboveSnoc(g, best', e.path, y);
      }
    }
  }

  lemma BestBelowEnd(g: Graph, best: map<Name, ExtReal>, p: seq<Name>)
    requires |p| > 0 && PrefixesAbove(g, best, p)
    ensures Last(p) in best && Le(best[Last(p)], WalkCost(g, p))
  {
    assert p[..|p|] == p;
  }

  lemma PrefixesAboveLower(g: Graph, best: map<Name, ExtReal>, best': map<Name, ExtReal>, p: seq<Name>)
    requires PrefixesAbove(g, best, p)
    requires forall y :: y in best ==> y in best' && Le(best'[y], best[y])
    ensures PrefixesAbove(g, best', p)
  {
    forall j | 0 <= j < |p| ensures p[j] in best' && Le(best'[p[j]], WalkCost(g, p[..j + 1])) {
      LeTrans(best'[p[j]], best[p[j]], WalkCost(g, p[..j + 1]));
    }
  }

  lemma PrefixesAboveSnoc(g: Graph, best: map<Name, ExtReal>, p: seq<Name>, y: Name)
    requires PrefixesAbove(g, best, p)
    requires y in best && Le(best[y], WalkCost(g, p + [y]))
    ensures PrefixesAbove(g, best, p + [y])
  {
    var q := p + [y];
    forall j | 0 <= j < |q| ensures q[j] in best && Le(best[q[j]], WalkCost(g, q[..j + 1])) {
      if j < |p| {
        assert q[..j + 1] == p[..j + 1];
      } else {
        assert q[..j + 1] == q;
      }
    }
  }

  lemma RoundWitnessed(g: Graph, start: Name, s: Frontier, e: Entry, rest: seq<Entry>,
                       best': map<Name, ExtReal>, queue': seq<Entry>)
    requires NonNegativeTimes(g) && NeighborsKnown(g, start)
    requires QueueOk(g, s.queue, s.pushed) && PushedOk(g, start, s.best, s.pushed)
    requires Witnessed(g, s.queue, s.best, s.pushed, s.closer, s.via)
    requires e in s.queue && QueuePaths(s.queue) <= QueuePaths(rest) + {e.path}
    requires RelaxSpec(g, s.best, rest, e.g, e.path, best', queue')
    ensures Witnessed(g, queue', best', PushedAfter(g, s, e), CloserAfter(s, e), ViaAfter(g, s, e))
  {
    var x := Last(e.path);
    var via' := ViaAfter(g, s, e);
    forall y | y in best' && best'[y].Fin? && y in Improved(g, s.best, e)
      ensures y in via' && via'[y] in PushedAfter(g, s, e) && |via'[y]| > 0 && Last(via'[y]) == y
      ensures WalkCost(g, via'[y]) == best'[y]
      ensures via'[y] in QueuePaths(queue')
    {
      NewPathFacts(g, start, s.best, s.pushed, e, y);
      var i :| |rest| <= i < |queue'| && queue'[i].node == y;
      assert NewEntry(g, s.best, e.g, e.path, queue'[i]);
      assert queue'[i] in queue';
    }
    forall y | y in best' && best'[y].Fin? && y !in Improved(g, s.best, e)
      ensures y in via' && via'[y] in PushedAfter(g, s, e) && |via'[y]| > 0 && Last(via'[y]) == y
      ensures WalkCost(g, via'[y]) == best'[y]
      ensures y in CloserAfter(s, e) || via'[y] in QueuePaths(queue')
    {
      WitnessKept(g, s, e, rest, best', queue', y);
    }
  }

  /** A successor that did not improve keeps its best cost and witness. */
  lemma WitnessKept(g: Graph, s: Frontier, e: Entry, rest: seq<Entry>,
                    best': map<Name, ExtReal>, queue': seq<Entry>, y: Name)
    requires Witnessed(g, s.queue, s.best, s.pushed, s.closer, s.via)
    requires |e.path| > 0 && QueuePaths(s.queue) <= QueuePaths(rest) + {e.path}
    requires RelaxSpec(g, s.best, rest, e.g, e.path, best', queue')
    requires y in best' && best'[y].Fin? && y !in Improved(g, s.best, e)
    ensures var via' := ViaAfter(g, s, e);
      && y in via' && via'[y] in PushedAfter(g, s, e) && |via'[y]| > 0 && Last(via'[y]) == y
      && WalkCost(g, via'[y]) == best'[y]
      && (y in CloserAfter(s, e) || via'[y] in QueuePaths(queue'))
  {
    assert !Improves(g, s.best, e.g, Last(e.path), y);
    assert best'[y] == s.best[y];
    assert ViaAfter(g, s, e)[y] == s.via[y];
    if y !in s.closer && s.via[y] != e.path {
      assert s.via[y] in QueuePaths(rest);
      var f :| f in rest && f.path == s.via[y];
      var j :| 0 <= j < |rest| && rest[j] == f;
      assert queue'[..|rest|] == rest;
      assert queue'[j] == f;
    }
  }

  lemma RoundClosed(g: Graph, start: Name, goal: Name, s: Frontier, e: Entry, best': map<Name, ExtReal>)
    requires NonNegativeTimes(g) && Inv(g, start, goal, s)
    requires e in s.queue && (forall f :: f in s.queue ==> e.g <= f.g) && e.node != goal
    requires TableOver(g, s.best, e.g, Last(e.path), Neighbors(g, Last(e.path)), best')
    ensures Closed(g, start, goal, best', PushedAfter(g, s, e), CloserAfter(s, e))
  {
    var x := Last(e.path);
    var pushed' := PushedAfter(g, s, e);
    ClosedKept(g, start, goal, s.best, best', s.pushed, pushed', s.closer, e);
    if x !in s.closer {
      ExpandedOptimal(g, start, goal, s, e);
      FreshlyClosed(g, s.best, best', e);
      CloseNew(g, start, goal, best', pushed', s.closer, e.path);
    }
  }

  /** Closing a node along an optimal, relaxed, pushed path. */
  lemma CloseNew(g: Graph, start: Name, goal: Name, best: map<Name, ExtReal>, pushed: set<seq<Name>>,
                 closer: map<Name, seq<Name>>, p: seq<Name>)
    requires Closed(g, start, goal, best, pushed, closer)
    requires p in pushed && |p| > 0 && Last(p) != goal && Optimal(g, start, p) && Relaxed(g, best, p)
    ensures Closed(g, start, goal, best, pushed, closer[Last(p) := p])
  {
  }

  /** Paths closed earlier stay closed correctly as best costs fall. */
  lemma ClosedKept(g: Graph, start: Name, goal: Name, best: map<Name, ExtReal>, best': map<Name, ExtReal>,
                   pushed: set<seq<Name>>, pushed': set<seq<Name>>, closer: map<Name, seq<Name>>, e: Entry)
    requires Closed(g, start, goal, best, pushed, closer) && pushed <= pushed'
    requires |e.path| > 0 && TableOver(g, best, e.g, Last(e.path), Neighbors(g, Last(e.path)), best')
    ensures Closed(g, start, goal, best', pushed', closer)
  {
    forall z | z in closer ensures Relaxed(g, best', closer[z]) {
      StillRelaxed(g, best, best', e, closer[z]);
    }
  }

  /** The expanded path is relaxed once its successors are. */
  lemma FreshlyClosed(g: Graph, best: map<Name, ExtReal>, best': map<Name, ExtReal>, e: Entry)
    requires |e.path| > 0 && WalkCost(g, e.path) == Fin(e.g)
    requires TableOver(g, best, e.g, Last(e.path), Neighbors(g, Last(e.path)), best')
    ensures Relaxed(g, best', e.path)
  {
  }

  /** Lowering best costs keeps a relaxed path relaxed. */
  lemma StillRelaxed(g: Graph, best: map<Name, ExtReal>, best': map<Name, ExtReal>, e: Entry, q: seq<Name>)
    requires |e.path| > 0 && TableOver(g, best, e.g, Last(e.path), Neighbors(g, Last(e.path)), best')
    requires Relaxed(g, best, q)
    ensures Relaxed(g, best', q)
  {
    forall y | y in Neighbors(g, Last(q))
      ensures y in best' && Le(best'[y], Add(WalkCost(g, q), EdgeCost(g, Last(q), y)))
    {
      assert Le(best'[y], best[y]);
      LeTrans(best'[y], best[y], Add(WalkCost(g, q), EdgeCost(g, Last(q), y)));
    }
  }

  /** The first expansion of a node is along an optimal path: any cheaper
      walk would be matched by a queued entry cheaper than the least one. */
  lemma ExpandedOptimal(g: Graph, start: Name, goal: Name, s: Frontier, e: Entry)
    requires NonNegativeTimes(g) && Inv(g, start, goal, s)
    requires e in s.queue && (forall f :: f in s.queue ==> e.g <= f.g)
    requires Last(e.path) !in s.closer
    ensures Optimal(g, start, e.path)
  {
    forall w | WalkBetween(g, start, Last(e.path), w) ensures Le(WalkCost(g, e.path), WalkCost(g, w)) {
      if WalkCost(g, w).Fin? {
        Cut(g, start, goal, s, w);
      }
    }
  }

  /** A round either pushes a path never pushed before or, pushing nothing,
      shrinks the queue. */
  lemma RoundProgress(g: Graph, start: Name, s: Frontier, e: Entry, rest: seq<Entry>,
                      best': map<Name, ExtReal>, queue': seq<Entry>)
    requires NonNegativeTimes(g) && NeighborsKnown(g, start)
    requires QueueOk(g, s.queue, s.pushed) && PushedOk(g, start, s.best, s.pushed)
    requires e in s.queue
    requires RelaxSpec(g, s.best, rest, e.g, e.path, best', queue')
    ensures forall p :: p in NewPaths(g, s.best, e) ==> PathOk(g, start, p)
    ensures |queue'| > |rest| ==> exists p :: p in NewPaths(g, s.best, e) && p !in s.pushed
    ensures |queue'| == |rest| ==> NewPaths(g, s.best, e) == {}
  {
    forall p | p in NewPaths(g, s.best, e) ensures PathOk(g, start, p) && |queue'| > |rest| {
      var y :| y in Improved(g, s.best, e) && p == e.path + [y];
      NewPathFacts(g, start, s.best, s.pushed, e, y);
      var i :| |rest| <= i < |queue'| && queue'[i].node == y;
    }
    if |queue'| > |rest| {
      var y := queue'[|rest|].node;
      assert NewEntry(g, s.best, e.g, e.path, queue'[|rest|]);
      NewPathFacts(g, start, s.best, s.pushed, e, y);
      assert y in Improved(g, s.best, e);
      assert e.path + [y] in NewPaths(g, s.best, e);
    }
  }

  /** One round of the search keeps the invariant. */
  lemma RoundInv(g: Graph, start: Name, goal: Name, s: Frontier, e: Entry, rest: seq<Entry>,
                 best': map<Name, ExtReal>, queue': seq<Entry>)
    requires Round(g, start, goal, s, e, rest, best', queue')
    ensures Inv(g, start, goal, Expand(g, s, e, best', queue'))
  {
    RoundQueue(g, start, s, e, rest, best', queue');
    RoundPushed(g, start, s, e, best');
    RoundWitnessed(g, start, s, e, rest, best', queue');
    RoundClosed(g, start, goal, s, e, best');
  }

  /** The least entry, removed from the queue and relaxed, sets up a round. */
  lemma RoundHolds(g: Graph, start: Name, goal: Name, s: Frontier, i: nat,
                   best': map<Name, ExtReal>, queue': seq<Entry>)
    requires NonNegativeTimes(g) && NeighborsKnown(g, start) && Inv(g, start, goal, s)
    requires i < |s.queue| && (forall j :: 0 <= j < |s.queue| ==> s.queue[i].g <= s.queue[j].g)
    requires s.queue[i].node != goal && |s.queue[i].path| > 0
    requires RelaxSpec(g, s.best, Without(s.queue, i), s.queue[i].g, s.queue[i].path, best', queue')
    ensures Round(g, start, goal, s, s.queue[i], Without(s.queue, i), best', queue')
  {
    var e := s.queue[i];
    RemoveAt(s.queue, i);
    forall f | f in s.queue ensures e.g <= f.g {
      var j :| 0 <= j < |s.queue| && s.queue[j] == f;
    }
  }

  /** The termination measure of the search falls in every round: either a
      path of the finite universe is pushed for the first time, or nothing
      is pushed and the queue shrinks. */
  lemma RoundMeasure(universe: set<seq<Name>>, pushed: set<seq<Name>>, added: set<seq<Name>>,
                     queue: seq<Entry>, rest: seq<Entry>, queue': seq<Entry>)
    requires pushed <= universe && added <= universe
    requires |rest| == |queue| - 1 && |rest| <= |queue'|
    requires |queue'| > |rest| ==> exists p :: p in added && p !in pushed
    requires |queue'| == |rest| ==> added == {}
    ensures pushed + added <= universe
    ensures |universe - (pushed + added)| < |universe - pushed| || (pushed + added == pushed && |queue'| < |queue|)
  {
    if p :| p in added && p !in pushed {
      RemainderShrinks(universe, pushed, pushed + added, p);
    } else {
      assert pushed + added == pushed;
    }
  }

  /** One round of the search keeps the invariant and makes progress. */
  lemma RoundStep(g: Graph, start: Name, goal: Name, s: Frontier, i: nat,
                  best': map<Name, ExtReal>, queue': seq<Entry>, universe: set<seq<Name>>, t: Frontier)
    requires NonNegativeTimes(g) && NeighborsKnown(g, start) && Inv(g, start, goal, s)
    requires universe == Bounded(Nodes(g, start), |Nodes(g, start)|) && s.pushed <= universe
    requires i < |s.queue| && (forall j :: 0 <= j < |s.queue| ==> s.queue[i].g <= s.queue[j].g)
    requires s.queue[i].node != goal && |s.queue[i].path| > 0
    requires RelaxSpec(g, s.best, Without(s.queue, i), s.queue[i].g, s.queue[i].path, best', queue')
    requires t == Expand(g, s, s.queue[i], best', queue')
    ensures t.queue == queue' && t.best == best' && Inv(g, start, goal, t)
    ensures t.pushed <= universe
    ensures |universe - t.pushed| < |universe - s.pushed| || (t.pushed == s.pushed && |queue'| < |s.queue|)
  {
    var e := s.queue[i];
    var rest := Without(s.queue, i);
    RemoveAt(s.queue, i);
    RoundHolds(g, start, goal, s, i, best', queue');
    RoundInv(g, start, goal, s, e, rest, best', queue');
    RoundProgress(g, start, s, e, rest, best', queue');
    forall p | p in NewPaths(g, s.best, e) ensures p in universe {
      SimpleInBounded(Nodes(g, start), p);
    }
    RoundMeasure(universe, s.pushed, NewPaths(g, s.best, e), s.queue, rest, queue');
  }

  /** The least entry of the queue is the least entry of the frontier. */
  lemma LeastOfFrontier(s: Frontier, queue: seq<Entry>, i: nat)
    requires s.queue == queue && i < |queue| && (forall j :: 0 <= j < |queue| ==> queue[i].g <= queue[j].g)
    ensures i < |s.queue| && (forall j :: 0 <= j < |s.queue| ==> s.queue[i].g <= s.queue[j].g)
  {
  }

  lemma RemoveAt(queue: seq<Entry>, i: nat)
    requires i < |queue|
    ensures forall f :: f in Without(queue, i) ==> f in queue
    ensures QueuePaths(queue) <= QueuePaths(Without(queue, i)) + {queue[i].path}
    ensures |Without(queue, i)| == |queue| - 1
  {
    var rest := Without(queue, i);
    forall f | f in queue && f != queue[i] ensures f in rest {
      var j :| 0 <= j < |queue| && queue[j] == f;
      if j < i {
        assert rest[j] == f;
      } else {
        assert rest[j - 1] == f;
      }
    }
  }

  /** Each queued entry's path starts at the start and ends at its node,
      whose successors are all in the cost table. */
  lemma EntryFacts(g: Graph, start: Name, goal: Name, s: Frontier, i: nat)
    requires NeighborsKnown(g, start) && Inv(g, start, goal, s) && i < |s.queue|
    ensures |s.queue[i].path| > 0 && s.queue[i].node == Last(s.queue[i].path)
    ensures Neighbors(g, s.queue[i].node) <= s.best.Keys
  {
    assert s.queue[i] in s.queue;
  }

  // ---------------------------------------------------------------------
  // The search
  // ---------------------------------------------------------------------

  /** The rest of a pass of the loop of `a_star_planner` once the popped
      entry `queue[i]`, of least cost, is not at the goal: relax its
      successors. The ghost `s` and `t` carry the proof's bookkeeping before
      and after; the pass pushes a new path or shortens the queue. */
  method ExpandEntry(g: Graph, start: Name, goal: Name, queue: seq<Entry>, best: map<Name, ExtReal>, i: nat,
                     ghost s: Frontier, ghost universe: set<seq<Name>>)
    returns (queue': seq<Entry>, best': map<Name, ExtReal>, ghost t: Frontier)
    requires NonNegativeTimes(g) && NeighborsKnown(g, start)
    requires s.queue == queue && s.best == best && Inv(g, start, goal, s)
    requires universe == Bounded(Nodes(g, start), |Nodes(g, start)|) && s.pushed <= universe
    requires i < |queue| && (forall j :: 0 <= j < |queue| ==> queue[i].g <= queue[j].g)
    requires queue[i].node != goal
    ensures t.queue == queue' && t.best == best' && Inv(g, start, goal, t)
    ensures t.pushed <= universe
    ensures |universe - t.pushed| < |universe - s.pushed| || (t.pushed == s.pushed && |queue'| < |queue|)
    ensures best'.Keys == best.Keys && forall y :: y in best ==> Le(best'[y], best[y])
    ensures |queue| - 1 <= |queue'| && queue'[..|queue| - 1] == Without(queue, i)
  {
    var e := queue[i];
    EntryFacts(g, start, goal, s, i);
    var rest := Without(queue, i);
    assert |rest| == |queue| - 1;
    best', queue' := Relax(g, best, rest, e.g, e.path);
    t := Expand(g, s, e, best', queue');
    LeastOfFrontier(s, queue, i);
    RoundStep(g, start, goal, s, i, best', queue', universe, t);
  }

  /** `a_star_planner(start, goal)`. With non-negative transition times and
      every successor in the cost table, it returns a cheapest walk from
      `start` to `goal` when one of finite cost exists, and `NoPath`
      otherwise. */
  method AStarPlanner(g: Graph, start: Name, goal: Name) returns (r: Plan)
    requires NeighborsKnown(g, start) && NonNegativeTimes(g)
    ensures r.Found? ==> WalkBetween(g, start, goal, r.path) && WalkCost(g, r.path) == Fin(r.cost)
    ensures r.Found? ==> NoDup(r.path)
    ensures r.Found? ==> forall w :: WalkBetween(g, start, goal, w) ==> Le(Fin(r.cost), WalkCost(g, w))
    ensures r.NoPath? ==> forall w :: WalkBetween(g, start, goal, w) ==> WalkCost(g, w) == Inf
    ensures start == goal ==> r == Found([start], 0.0)
  {
    var queue := [Entry(0.0, start, [start])];
    var best: map<Name, ExtReal> := map x | x in g.positions :: Inf;
    best := best[start := Fin(0.0)];
    ghost var s := Frontier(queue, best, {[start]}, map[], map[start := [start]]);
    ghost var universe := Bounded(Nodes(g, start), |Nodes(g, start)|);
    InitialInv(g, start, goal);
    SimpleInBounded(Nodes(g, start), [start]);
    while queue != []
      invariant s.queue == queue && s.best == best && Inv(g, start, goal, s)
      invariant s.pushed <= universe
      invariant start == goal ==> queue == [Entry(0.0, start, [start])]
      decreases |universe - s.pushed|, |queue|
    {
      var i := PopMin(queue);
      var e := queue[i];
      assert start == goal ==> i == 0 && e == Entry(0.0, start, [start]);
      if e.node == goal {
        FoundIsOptimal(g, start, goal, s, queue, i);
        return Found(e.path, e.g);
      }
      queue, best, s := ExpandEntry(g, start, goal, queue, best, i, s, universe);
    }
    NoPathIsSound(g, start, goal, s);
    return NoPath;
  }

  lemma InitialInv(g: Graph, start: Name, goal: Name)
    requires NeighborsKnown(g, start)
    ensures var best := (map x | x in g.positions :: Inf)[start := Fin(0.0)];
            Inv(g, start, goal, Frontier([Entry(0.0, start, [start])], best, {[start]}, map[], map[start := [start]]))
  {
    var best := (map x | x in g.positions :: Inf)[start := Fin(0.0)];
    var s := Frontier([Entry(0.0, start, [start])], best, {[start]}, map[], map[start := [start]]);
    SingletonWalk(g, start);
    assert Elems([start]) == {start};
    assert [start][..1] == [start];
    forall y | y in best && best[y].Fin? ensures y == start {
    }
    assert [start] in QueuePaths(s.queue);
  }

  /** An entry of least cost at the goal is a cheapest walk to it. */
  lemma FoundIsOptimal(g: Graph, start: Name, goal: Name, s: Frontier, queue: seq<Entry>, i: nat)
    requires NonNegativeTimes(g) && s.queue == queue && Inv(g, start, goal, s)
    requires i < |queue| && (forall j :: 0 <= j < |queue| ==> queue[i].g <= queue[j].g)
    requires queue[i].node == goal
    ensures WalkBetween(g, start, goal, queue[i].path) && WalkCost(g, queue[i].path) == Fin(queue[i].g)
    ensures NoDup(queue[i].path)
    ensures forall w :: WalkBetween(g, start, goal, w) ==> Le(Fin(queue[i].g), WalkCost(g, w))
  {
    var e := queue[i];
    assert e in s.queue;
    assert PathOk(g, start, e.path);
    forall w | WalkBetween(g, start, goal, w) ensures Le(Fin(e.g), WalkCost(g, w)) {
      if WalkCost(g, w).Fin? {
        Cut(g, start, goal, s, w);
        var f :| f in s.queue && f.g <= WalkCost(g, w).r;
        var j :| 0 <= j < |s.queue| && s.queue[j] == f;
      }
    }
  }

  /** With the queue empty, no finite-cost walk reaches the goal. */
  lemma NoPathIsSound(g: Graph, start: Name, goal: Name, s: Frontier)
    requires NonNegativeTimes(g) && Inv(g, start, goal, s) && s.queue == []
    ensures forall w :: WalkBetween(g, start, goal, w) ==> WalkCost(g, w) == Inf
  {
    forall w | WalkBetween(g, start, goal, w) ensures WalkCost(g, w) == Inf {
      if WalkCost(g, w).Fin? {
        Cut(g, start, goal, s, w);
      }
    }
  }
}
