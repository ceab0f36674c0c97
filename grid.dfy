/** Grids of AFR values and the sequence helpers the transforms need.
    A grid row is an RPM label followed by AFR values at increasing throttle. */
module Grids {

  type Row = seq<real>
  type Grid = seq<Row>

  /** Every row has the same length. */
  predicate Rectangular(g: Grid) {
    forall i, j :: 0 <= i < |g| && 0 <= j < |g| ==> |g[i]| == |g[j]|
  }

  /** A non-empty grid whose every row holds a label and at least one AFR value. */
  predicate HasDataColumn(g: Grid) {
    |g| > 0 && forall i :: 0 <= i < |g| ==> |g[i]| >= 2
  }

  /** `other` has an entry at every position `g` has one (indexing `other` like `g` is safe). */
  predicate Covers(g: Grid, other: Grid) {
    |g| <= |other| && forall r :: 0 <= r < |g| ==> |g[r]| <= |other[r]|
  }

  /** Same number of rows, and row by row the same length. */
  predicate SameShape(a: Grid, b: Grid) {
    |a| == |b| && forall r :: 0 <= r < |a| ==> |a[r]| == |b[r]|
  }

  lemma SameShapeCovers(a: Grid, b: Grid)
    requires SameShape(a, b)
    ensures Covers(a, b) && Covers(b, a)
  {
  }

  /** Row-major concatenation of the rows, as `Array.prototype.flat` does. */
  function Flat(g: Grid): (s: seq<real>)
    ensures (exists i :: 0 <= i < |g| && |g[i]| > 0) ==> |s| > 0
  {
    if g == [] then [] else g[0] + Flat(g[1..])
  }

  lemma {:induction false} FlatHas(g: Grid, i: int, j: int)
    requires 0 <= i < |g| && 0 <= j < |g[i]|
    ensures g[i][j] in Flat(g)
  {
    if i > 0 {
      FlatHas(g[1..], i - 1, j);
      assert g[1..][i - 1] == g[i];
    }
  }

  lemma {:induction false} FlatFrom(g: Grid, x: real)
    requires x in Flat(g)
    ensures exists i, j :: 0 <= i < |g| && 0 <= j < |g[i]| && g[i][j] == x
  {
    if x in g[0] {
      var j :| 0 <= j < |g[0]| && g[0][j] == x;
      assert g[0][j] == x;
    } else {
      FlatFrom(g[1..], x);
      var i, j :| 0 <= i < |g[1..]| && 0 <= j < |g[1..][i]| && g[1..][i][j] == x;
      assert g[i + 1][j] == x;
    }
  }

  /** The least element, as `Math.min(...s)` on a non-empty list. */
  function MinOf(s: seq<real>): (m: real)
    requires |s| > 0
    ensures m in s
    ensures forall x :: x in s ==> m <= x
  {
    if |s| == 1 then s[0]
    else
      var rest := MinOf(s[1..]);
      assert forall x :: x in s ==> x == s[0] || x in s[1..];
      if s[0] <= rest then s[0] else rest
  }

  /** The greatest element, as `Math.max(...s)` on a non-empty list. */
  function MaxOf(s: seq<real>): (m: real)
    requires |s| > 0
    ensures m in s
    ensures forall x :: x in s ==> x <= m
  {
    if |s| == 1 then s[0]
    else
      var rest := MaxOf(s[1..]);
      assert forall x :: x in s ==> x == s[0] || x in s[1..];
      if s[0] >= rest then s[0] else rest
  }
}
