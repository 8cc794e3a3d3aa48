/** Shared vocabulary of the choreography planners: move names, an optional
    value, extended reals for Python's float('inf'), and small sequence/set
    helpers used by every planner variant. */
module Basics {

  /** A move is identified by its name: the planners compare and hash moves by name. */
  type Name = string

  datatype Option<+T> = None | Some(value: T)

  /** A time or cost that may be Python's float('inf'). */
  datatype ExtReal = Fin(r: real) | Inf

  function Add(a: ExtReal, b: ExtReal): ExtReal
  {
    if a.Fin? && b.Fin? then Fin(a.r + b.r) else Inf
  }

  predicate Le(a: ExtReal, b: ExtReal)
  {
    b.Inf? || (a.Fin? && a.r <= b.r)
  }

  predicate Lt(a: ExtReal, b: ExtReal)
  {
    a.Fin? && (b.Inf? || a.r < b.r)
  }

  /** The smaller of two extended reals (the value a relaxation keeps). */
  function Min(a: ExtReal, b: ExtReal): ExtReal
  {
    if Lt(b, a) then b else a
  }

  function Last<T>(s: seq<T>): T
    requires |s| > 0
  {
    s[|s| - 1]
  }

  function Elems<T>(s: seq<T>): set<T>
  {
    set x | x in s
  }

  predicate NoDup<T(==)>(s: seq<T>)
  {
    forall i, j :: 0 <= i < j < |s| ==> s[i] != s[j]
  }

  /** The pending-set update shared by every variant: performing move `m`
      discharges it if it was still pending, and leaves the set alone otherwise. */
  function Discharge(pending: set<Name>, m: Name): (r: set<Name>)
    ensures r <= pending
    ensures m !in r
    ensures m in pending ==> |r| == |pending| - 1
    ensures m !in pending ==> r == pending
    ensures forall x :: x in pending && x != m ==> x in r
  {
    pending - {m}
  }

  lemma ElemsSnoc<T>(s: seq<T>, x: T)
    ensures Elems(s + [x]) == Elems(s) + {x}
  {
    assert forall y :: y in s + [x] <==> y in s || y == x;
  }

  /** Appending an element not yet present keeps a sequence free of repeats. */
  lemma NoDupSnoc<T>(s: seq<T>, x: T)
    requires NoDup(s) && x !in s
    ensures NoDup(s + [x])
  {
    var t := s + [x];
    forall i, j | 0 <= i < j < |t| ensures t[i] != t[j] {
      if j == |s| {
        assert t[i] == s[i];
      } else {
        assert t[i] == s[i] && t[j] == s[j];
      }
    }
  }

  lemma LeTrans(a: ExtReal, b: ExtReal, c: ExtReal)
    requires Le(a, b) && Le(b, c)
    ensures Le(a, c)
  {
  }

  /** A strictly larger subset of a finite universe leaves strictly fewer
      elements of the universe outside it. */
  lemma RemainderShrinks<T>(u: set<T>, a: set<T>, b: set<T>, x: T)
    requires a <= b <= u
    requires x in b && x !in a
    ensures |u - b| < |u - a|
  {
    assert u - b <= u - a;
    assert x in u - a && x !in u - b;
    assert (u - a) == (u - b) + ((u - a) - (u - b));
    assert |(u - a) - (u - b)| >= 1 by {
      assert x in (u - a) - (u - b);
    }
  }

  /** `rate` accrued over `n` steps, added once per step. */
  function Accrued(rate: real, n: nat): real
  {
    if n == 0 then 0.0 else Accrued(rate, n - 1) + rate
  }

  lemma {:induction false} AccruedIsProduct(rate: real, n: nat)
    ensures Accrued(rate, n) == (n as real) * rate
  {
    if n > 0 {
      AccruedIsProduct(rate, n - 1);
      assert (n as real) * rate == ((n - 1) as real) * rate + rate;
    }
  }

  /** With a non-negative rate, more steps accrue at least as much. */
  lemma {:induction false} AccruedMonotone(rate: real, m: nat, n: nat)
    requires rate >= 0.0 && m <= n
    ensures Accrued(rate, m) <= Accrued(rate, n)
    decreases n
  {
    if m < n {
      AccruedMonotone(rate, m, n - 1);
    }
  }

  /** A sequence has at least as many positions as distinct elements. */
  lemma {:induction false} ElemsCardinality<T>(s: seq<T>)
    ensures |Elems(s)| <= |s|
    decreases |s|
  {
    if s != [] {
      var q := s[..|s| - 1];
      assert q + [Last(s)] == s;
      ElemsSnoc(q, Last(s));
      ElemsCardinality(q);
    }
  }
}
