/** Chaining cheapest walks end to end: the marks that record where each
    segment starts, and the facts that appending one more segment keeps. */
module Chain {
  import opened Basics
  import opened MoveGraph

  /** No walk from `a` to `b` has a finite cost. */
  ghost predicate Unreachable(g: Graph, a: Name, b: Name)
  {
    forall w :: WalkBetween(g, a, b, w) ==> WalkCost(g, w) == Inf
  }

  /** `p` is a cheapest walk between its end points. */
  ghost predicate Cheapest(g: Graph, p: seq<Name>)
  {
    |p| > 0 && forall w :: WalkBetween(g, p[0], Last(p), w) ==> Le(WalkCost(g, p), WalkCost(g, w))
  }

  /** The marks of `full`: the first and last positions are marked, marks
      never go backwards, and the `k`-th marked position is `segs[k]`. */
  ghost predicate Marked(segs: seq<Name>, n: nat, full: seq<Name>, marks: seq<nat>)
  {
    && n < |segs|
    && |full| > 0
    && |marks| == n + 1
    && marks[0] == 0
    && marks[n] == |full| - 1
    && (forall k :: 0 <= k < n ==> marks[k] <= marks[k + 1])
    && (forall k :: 0 <= k <= n ==> marks[k] < |full| && full[marks[k]] == segs[k])
  }

  /** The piece of `full` between the `k`-th and the next mark, both
      included (empty when the marks do not delimit one). */
  ghost function Piece(full: seq<Name>, marks: seq<nat>, k: nat): seq<Name>
  {
    if k + 1 < |marks| && marks[k] <= marks[k + 1] < |full| then full[marks[k]..marks[k + 1] + 1] else []
  }

  ghost predicate PiecesCheapest(g: Graph, n: nat, full: seq<Name>, marks: seq<nat>)
  {
    forall k :: 0 <= k < n ==> Cheapest(g, Piece(full, marks, k))
  }

  /** `full` chains the first `n` segments: it is a walk of cost `total`
      whose marked positions are the segment end points in order, and the
      piece between consecutive marks is a cheapest walk. */
  ghost predicate Assembled(g: Graph, segs: seq<Name>, n: nat, full: seq<Name>, total: real, marks: seq<nat>)
  {
    && Marked(segs, n, full, marks)
    && IsWalk(g, full)
    && WalkCost(g, full) == Fin(total)
    && PiecesCheapest(g, n, full, marks)
  }

  lemma AssembleFirst(g: Graph, segs: seq<Name>, p: seq<Name>, c: real)
    requires |segs| >= 2 && WalkBetween(g, segs[0], segs[1], p) && WalkCost(g, p) == Fin(c) && Cheapest(g, p)
    ensures Assembled(g, segs, 1, p, c, [0, |p| - 1])
  {
    assert Piece(p, [0, |p| - 1], 0) == p;
  }

  lemma MarkedNext(segs: seq<Name>, n: nat, full: seq<Name>, marks: seq<nat>, p: seq<Name>)
    requires Marked(segs, n, full, marks) && n + 1 < |segs|
    requires |p| > 0 && p[0] == segs[n] && Last(p) == segs[n + 1]
    ensures Marked(segs, n + 1, full + p[1..], marks + [|full| + |p| - 2])
  {
    var full' := full + p[1..];
    var marks' := marks + [|full| + |p| - 2];
    forall k | 0 <= k <= n + 1 ensures marks'[k] < |full'| && full'[marks'[k]] == segs[k] {
      if k == n + 1 {
        if |p| == 1 {
          assert full'[marks'[k]] == Last(full);
        } else {
          assert full'[marks'[k]] == Last(p);
        }
      } else {
        assert full'[marks[k]] == full[marks[k]];
      }
    }
  }

  /** Appending to `full` and adding a mark leaves the earlier pieces alone. */
  lemma PieceKept(full: seq<Name>, marks: seq<nat>, k: nat, full': seq<Name>, marks': seq<nat>, m: nat)
    requires k + 1 < |marks| && marks[k] <= marks[k + 1] < |full|
    requires |full| <= |full'| && full'[..|full|] == full && marks' == marks + [m]
    ensures Piece(full', marks', k) == Piece(full, marks, k)
  {
    assert marks'[k] == marks[k] && marks'[k + 1] == marks[k + 1];
    forall x | 0 <= x < |full| ensures full'[x] == full[x] {
      assert full'[..|full|][x] == full'[x];
    }
    assert full'[marks[k]..marks[k + 1] + 1] == full[marks[k]..marks[k + 1] + 1];
  }

  /** The new piece is the appended segment, its first position shared with
      the last of `full`. */
  lemma PieceNew(full: seq<Name>, marks: seq<nat>, p: seq<Name>, full': seq<Name>, marks': seq<nat>)
    requires |full| > 0 && |p| > 0 && p[0] == Last(full) && |marks| > 0 && Last(marks) == |full| - 1
    requires full' == full + p[1..] && marks' == marks + [|full| + |p| - 2]
    ensures Piece(full', marks', |marks| - 1) == p
  {
    assert full'[|full| - 1..|full| + |p| - 1] == p;
  }

  lemma PiecesNext(g: Graph, segs: seq<Name>, n: nat, full: seq<Name>, marks: seq<nat>, p: seq<Name>)
    requires Marked(segs, n, full, marks) && PiecesCheapest(g, n, full, marks)
    requires Cheapest(g, p) && p[0] == Last(full)
    ensures PiecesCheapest(g, n + 1, full + p[1..], marks + [|full| + |p| - 2])
  {
    var full' := full + p[1..];
    var marks' := marks + [|full| + |p| - 2];
    assert full'[..|full|] == full;
    forall k | 0 <= k < n ensures Cheapest(g, Piece(full', marks', k)) {
      PieceKept(full, marks, k, full', marks', |full| + |p| - 2);
    }
    PieceNew(full, marks, p, full', marks');
  }

  /** Appending the next cheapest segment, without repeating its first
      position, extends the chain by one. */
  lemma AssembleNext(g: Graph, segs: seq<Name>, n: nat, full: seq<Name>, total: real, marks: seq<nat>,
                     p: seq<Name>, c: real)
    requires Assembled(g, segs, n, full, total, marks) && n + 1 < |segs|
    requires WalkBetween(g, segs[n], segs[n + 1], p) && WalkCost(g, p) == Fin(c) && Cheapest(g, p)
    ensures Assembled(g, segs, n + 1, full + p[1..], total + c, marks + [|full| + |p| - 2])
  {
    var full' := full + p[1..];
    var marks' := marks + [|full| + |p| - 2];
    assert IsWalk(g, full') && WalkCost(g, full') == Fin(total + c) by {
      assert Last(full) == segs[n];
      JoinWalks(g, full, p);
    }
    assert Marked(segs, n + 1, full', marks') by {
      MarkedNext(segs, n, full, marks, p);
    }
    assert PiecesCheapest(g, n + 1, full', marks') by {
      PiecesNext(g, segs, n, full, marks, p);
    }
  }

  /** Segment `i` found as `p` of cost `c`, no dearer than any other walk
      between its end points: the chain grows by it (the whole of `p` for the
      first segment, `p` without its first position afterwards). */
  lemma AppendFound(g: Graph, segs: seq<Name>, i: nat, full: seq<Name>, total: real, marks: seq<nat>,
                    p: seq<Name>, c: real, full': seq<Name>, total': real)
    returns (marks': seq<nat>)
    requires i + 1 < |segs| && (i > 0 ==> Assembled(g, segs, i, full, total, marks))
    requires WalkBetween(g, segs[i], segs[i + 1], p) && WalkCost(g, p) == Fin(c)
    requires Cheapest(g, p)
    requires full' == (if i == 0 then p else full + p[1..])
    requires total' == (if i == 0 then c else total + c)
    ensures Assembled(g, segs, i + 1, full', total', marks')
  {
    if i == 0 {
      marks' := [0, |p| - 1];
      AssembleFirst(g, segs, p, c);
    } else {
      marks' := marks + [|full| + |p| - 2];
      AssembleNext(g, segs, i, full, total, marks, p, c);
    }
  }

  /** A chain starts at the first segment end point and stops at the last. */
  lemma ChainEnds(g: Graph, segs: seq<Name>, n: nat, full: seq<Name>, total: real, marks: seq<nat>)
    requires Assembled(g, segs, n, full, total, marks)
    ensures full != [] && full[0] == segs[0] && Last(full) == segs[n]
  {
    assert full[marks[0]] == segs[0] && full[marks[n]] == segs[n];
  }

  /** A found segment shows its end points are reachable. */
  lemma FoundIsReachable(g: Graph, a: Name, b: Name, p: seq<Name>, c: real)
    requires WalkBetween(g, a, b, p) && WalkCost(g, p) == Fin(c)
    ensures !Unreachable(g, a, b)
  {
  }
}
