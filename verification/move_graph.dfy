/** The move graph of src/a.py: a set of positions, a successor set per
    position, and a transition time per ordered pair. A missing successor
    entry means no successors; a missing transition time means the edge costs
    infinity. Walks, their costs, and the facts about them that the search
    and the choreography builder rely on. */
module MoveGraph {
  import opened Basics

  datatype Graph = Graph(positions: set<Name>, compat: map<Name, set<Name>>, times: map<(Name, Name), real>)

  /** `COMPATIBILITIES.get(u, set())`. */
  function Neighbors(g: Graph, u: Name): set<Name>
  {
    if u in g.compat then g.compat[u] else {}
  }

  /** `MOVE_TIMES.get((u, v), float('inf'))`. */
  function EdgeCost(g: Graph, u: Name, v: Name): ExtReal
  {
    if (u, v) in g.times then Fin(g.times[(u, v)]) else Inf
  }

  /** The keys of the search's cost table: every position, and the start. */
  function Nodes(g: Graph, start: Name): set<Name>
  {
    g.positions + {start}
  }

  /** Every successor the search can look up has an entry in its cost table
      (otherwise the lookup `min_cost_to_node[neighbor]` fails). */
  predicate NeighborsKnown(g: Graph, start: Name)
  {
    forall u :: u in g.compat ==> g.compat[u] <= Nodes(g, start)
  }

  predicate NonNegativeTimes(g: Graph)
  {
    forall e :: e in g.times ==> g.times[e] >= 0.0
  }

  /** Consecutive positions follow the successor sets. */
  predicate IsWalk(g: Graph, path: seq<Name>)
  {
    forall i :: 0 <= i < |path| - 1 ==> path[i + 1] in Neighbors(g, path[i])
  }

  /** A non-empty walk from `a` to `b`. */
  predicate WalkBetween(g: Graph, a: Name, b: Name, path: seq<Name>)
  {
    |path| > 0 && path[0] == a && Last(path) == b && IsWalk(g, path)
  }

  /** Sum of the transition times along a path; infinite as soon as one
      pair has no time. */
  function WalkCost(g: Graph, path: seq<Name>): ExtReal
    decreases |path|
  {
    if |path| <= 1 then Fin(0.0)
    else
      var q := path[..|path| - 1];
      Add(WalkCost(g, q), EdgeCost(g, Last(q), Last(path)))
  }

  lemma WalkSnoc(g: Graph, path: seq<Name>, y: Name)
    requires |path| > 0
    ensures WalkCost(g, path + [y]) == Add(WalkCost(g, path), EdgeCost(g, Last(path), y))
    ensures IsWalk(g, path + [y]) <==> IsWalk(g, path) && y in Neighbors(g, Last(path))
  {
    var ext := path + [y];
    assert ext[..|path|] == path;
    if IsWalk(g, ext) {
      forall i | 0 <= i < |path| - 1 ensures path[i + 1] in Neighbors(g, path[i]) {
        assert path[i] == ext[i] && path[i + 1] == ext[i + 1];
      }
      assert ext[|path| - 1] == Last(path);
    }
  }

  /** Dropping the last position of a walk leaves a walk whose cost is no
      larger, when transition times are non-negative. */
  lemma WalkPrefix(g: Graph, path: seq<Name>)
    requires |path| > 1 && NonNegativeTimes(g)
    ensures IsWalk(g, path) ==> IsWalk(g, path[..|path| - 1])
    ensures Le(WalkCost(g, path[..|path| - 1]), WalkCost(g, path))
    ensures WalkCost(g, path).Fin? ==>
      && WalkCost(g, path[..|path| - 1]).Fin?
      && EdgeCost(g, path[|path| - 2], Last(path)).Fin?
      && WalkCost(g, path).r == WalkCost(g, path[..|path| - 1]).r + EdgeCost(g, path[|path| - 2], Last(path)).r
  {
    var q := path[..|path| - 1];
    assert q + [Last(path)] == path;
    WalkSnoc(g, q, Last(path));
  }

  lemma {:induction false} WalkCostNonNegative(g: Graph, path: seq<Name>)
    requires NonNegativeTimes(g)
    ensures WalkCost(g, path).Fin? ==> WalkCost(g, path).r >= 0.0
    decreases |path|
  {
    if |path| > 1 {
      WalkCostNonNegative(g, path[..|path| - 1]);
    }
  }

  /** With non-negative transition times, every prefix of a path costs at
      most the whole path. */
  lemma {:induction false} PrefixCost(g: Graph, path: seq<Name>, k: nat)
    requires NonNegativeTimes(g) && 1 <= k <= |path|
    ensures Le(WalkCost(g, path[..k]), WalkCost(g, path))
    decreases |path| - k
  {
    if k < |path| {
      var q := path[..|path| - 1];
      WalkPrefix(g, path);
      PrefixCost(g, q, k);
      assert q[..k] == path[..k];
      LeTrans(WalkCost(g, path[..k]), WalkCost(g, q), WalkCost(g, path));
    } else {
      assert path[..k] == path;
    }
  }

  /** Joining a walk ending at `b` with a walk starting at `b`, without
      repeating `b`: the result is a walk and its cost is the sum. */
  lemma {:induction false} JoinWalks(g: Graph, a: seq<Name>, b: seq<Name>)
    requires |a| > 0 && |b| > 0 && Last(a) == b[0]
    ensures IsWalk(g, a) && IsWalk(g, b) ==> IsWalk(g, a + b[1..])
    ensures WalkCost(g, a + b[1..]) == Add(WalkCost(g, a), WalkCost(g, b))
    ensures Last(a + b[1..]) == Last(b)
    decreases |b|
  {
    if |b| == 1 {
      assert a + b[1..] == a;
    } else {
      var bq := b[..|b| - 1];
      var y := Last(b);
      assert bq + [y] == b;
      JoinWalks(g, a, bq);
      var joined := a + bq[1..];
      assert joined + [y] == a + b[1..];
      assert Last(joined) == Last(bq);
      WalkSnoc(g, joined, y);
      WalkSnoc(g, bq, y);
      AddAssoc(WalkCost(g, a), WalkCost(g, bq), EdgeCost(g, Last(bq), y));
    }
  }

  lemma AddAssoc(a: ExtReal, b: ExtReal, c: ExtReal)
    ensures Add(Add(a, b), c) == Add(a, Add(b, c))
  {
  }

  lemma SingletonWalk(g: Graph, x: Name)
    ensures IsWalk(g, [x]) && WalkCost(g, [x]) == Fin(0.0)
  {
  }

  // ---------------------------------------------------------------------
  // Simple paths over a finite set of positions are finitely many
  // ---------------------------------------------------------------------

  /** All sequences of length at most `n` over `nodes`. */
  ghost function Bounded(nodes: set<Name>, n: nat): set<seq<Name>>
    decreases n
  {
    if n == 0 then {[]}
    else
      var shorter := Bounded(nodes, n - 1);
      shorter + (set s, x | s in shorter && x in nodes :: s + [x])
  }

  lemma {:induction false} InBounded(nodes: set<Name>, s: seq<Name>, n: nat)
    requires |s| <= n && Elems(s) <= nodes
    ensures s in Bounded(nodes, n)
    decreases n
  {
    if n > 0 {
      if |s| < n {
        InBounded(nodes, s, n - 1);
      } else {
        var q := s[..|s| - 1];
        var x := Last(s);
        assert q + [x] == s;
        ElemsSnoc(q, x);
        InBounded(nodes, q, n - 1);
      }
    } else {
      assert s == [];
    }
  }

  lemma {:induction false} NoDupElems(s: seq<Name>)
    requires NoDup(s)
    ensures |Elems(s)| == |s|
    decreases |s|
  {
    if s != [] {
      var q := s[..|s| - 1];
      var x := Last(s);
      assert q + [x] == s;
      ElemsSnoc(q, x);
      assert NoDup(q);
      assert x !in Elems(q);
      NoDupElems(q);
    }
  }

  /** A sequence without repeats over `nodes` is one of finitely many. */
  lemma SimpleInBounded(nodes: set<Name>, s: seq<Name>)
    requires NoDup(s) && Elems(s) <= nodes
    ensures s in Bounded(nodes, |nodes|)
  {
    NoDupElems(s);
    assert |Elems(s)| <= |nodes| by {
      assert nodes == Elems(s) + (nodes - Elems(s));
    }
    InBounded(nodes, s, |nodes|);
  }
}
