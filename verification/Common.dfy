/** Small datatypes and sequence facts shared by every component. */
module Common {

  datatype Option<+T(00)> = None | Some(value: T)
  {
    /** The value, or any value where there is none. */
    ghost function Get(): T {
      if Some? then value else var x: T :| true; x
    }
  }

  /** The outcome of a fallible step of the source: a value, or a refusal. */
  datatype Outcome<+T(00)> = Done(value: T) | Refused
  {
    ghost function Get(): T {
      if Done? then value else var x: T :| true; x
    }
  }

  /** The element at an index, or any value where there is none. */
  ghost function At<T(00)>(xs: seq<T>, i: int): T {
    if 0 <= i < |xs| then xs[i] else var x: T :| true; x
  }

  /** The sequence without its first element, if it has one. */
  function Tail<T>(xs: seq<T>): seq<T> {
    if xs == [] then xs else xs[1..]
  }

  /** The sequence with one element replaced, if it has one there. */
  function Put<T>(xs: seq<T>, i: int, x: T): seq<T> {
    if 0 <= i < |xs| then xs[i := x] else xs
  }

  function Min(a: int, b: int): int {
    if a < b then a else b
  }

  function Max(a: int, b: int): int {
    if a < b then b else a
  }

  /** No value occurs twice: the source's `duplicateIssues` finds nothing to report. */
  predicate Distinct<T(==)>(xs: seq<T>) {
    forall i, j :: 0 <= i < j < |xs| ==> xs[i] != xs[j]
  }

  function Elements<T(==)>(xs: seq<T>): set<T> {
    set x | x in xs
  }

  lemma {:induction false} DistinctCardinality<T>(xs: seq<T>)
    requires Distinct(xs)
    ensures |Elements(xs)| == |xs|
  {
    if xs != [] {
      var n := |xs| - 1;
      var front := xs[..n];
      DistinctCardinality(front);
      assert xs == front + [xs[n]];
      assert xs[n] !in front;
      assert Elements(xs) == Elements(front) + {xs[n]};
    } else {
      assert Elements(xs) == {};
    }
  }

  lemma {:induction false} CardinalityBound<T>(xs: seq<T>)
    ensures |Elements(xs)| <= |xs|
  {
    if xs != [] {
      var n := |xs| - 1;
      CardinalityBound(xs[..n]);
      assert xs == xs[..n] + [xs[n]];
      assert Elements(xs) == Elements(xs[..n]) + {xs[n]};
    } else {
      assert Elements(xs) == {};
    }
  }

  /** A sequence that reaches its full cardinality holds no duplicate. */
  lemma {:induction false} FullCardinalityIsDistinct<T>(xs: seq<T>)
    requires |Elements(xs)| == |xs|
    ensures Distinct(xs)
  {
    if xs != [] {
      var n := |xs| - 1;
      assert xs == xs[..n] + [xs[n]];
      assert Elements(xs) == Elements(xs[..n]) + {xs[n]};
      CardinalityBound(xs[..n]);
      assert |Elements(xs[..n])| == |xs[..n]| && xs[n] !in xs[..n];
      FullCardinalityIsDistinct(xs[..n]);
    }
  }

  lemma SubsetCardinality<T>(a: set<T>, b: set<T>)
    requires a <= b
    ensures |a| <= |b|
    ensures |a| == |b| ==> a == b
  {
    assert b == a + (b - a);
    assert |b| == |a| + |b - a|;
  }
}
