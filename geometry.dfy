// Planar geometry in millimetres on exact reals. Euclidean distances are
// compared through their squares, so no square root is ever taken: for a
// distance d >= 0 with d * d == dsq, "d > c" and "d < e" are decided exactly
// by DistExceeds(dsq, c) and DistBelow(dsq, e).
module Geometry {

  function Abs(x: real): (r: real)
    ensures r >= 0.0 && (r == x || r == -x)
  {
    if x < 0.0 then -x else x
  }

  function Min(a: real, b: real): (r: real)
    ensures r <= a && r <= b && (r == a || r == b)
  {
    if a <= b then a else b
  }

  function Max(a: real, b: real): (r: real)
    ensures r >= a && r >= b && (r == a || r == b)
  {
    if a >= b then a else b
  }

  function Sq(x: real): real
  {
    x * x
  }

  lemma MulPositive(x: real, y: real)
    requires x > 0.0 && y > 0.0
    ensures x * y > 0.0
  {
  }

  lemma DiffSquares(a: real, b: real)
    ensures Sq(b) - Sq(a) == (b - a) * (b + a)
  {
    assert (b - a) * (b + a) == b * (b + a) - a * (b + a);
    assert b * (b + a) == b * b + b * a;
    assert a * (b + a) == a * b + a * a;
    assert a * b == b * a;
  }

  /** Squaring is strictly increasing on non-negative reals. */
  lemma SquareIncreasing(a: real, b: real)
    requires 0.0 <= a < b
    ensures Sq(a) < Sq(b)
  {
    var p := b - a;
    var q := b + a;
    assert p > 0.0 && q > 0.0;
    MulPositive(p, q);
    DiffSquares(a, b);
    assert Sq(b) - Sq(a) == p * q;
  }

  /** Squaring is strictly monotone on non-negative reals. */
  lemma SquareMonotone(a: real, b: real)
    requires 0.0 <= a && 0.0 <= b
    ensures a < b <==> Sq(a) < Sq(b)
  {
    if a < b {
      SquareIncreasing(a, b);
    } else if a > b {
      SquareIncreasing(b, a);
    }
  }

  lemma SquarePositive(x: real)
    ensures Sq(x) >= 0.0
    ensures x != 0.0 ==> Sq(x) > 0.0
  {
    SquareMonotone(0.0, Abs(x));
    assert Sq(x) == Sq(Abs(x));
    assert Sq(0.0) == 0.0;
  }

  /** Squared Euclidean distance between (x1, y1) and (x2, y2). */
  function SqDist(x1: real, y1: real, x2: real, y2: real): (r: real)
    ensures r >= 0.0
    ensures r == 0.0 <==> x1 == x2 && y1 == y2
  {
    SquarePositive(x1 - x2);
    SquarePositive(y1 - y2);
    Sq(x1 - x2) + Sq(y1 - y2)
  }

  lemma SqDistSymmetric(x1: real, y1: real, x2: real, y2: real)
    ensures SqDist(x1, y1, x2, y2) == SqDist(x2, y2, x1, y1)
  {
    assert Sq(x1 - x2) == Sq(x2 - x1);
    assert Sq(y1 - y2) == Sq(y2 - y1);
  }

  /** The distance whose square is dsq is greater than c. */
  predicate DistExceeds(dsq: real, c: real)
  {
    c < 0.0 || Sq(c) < dsq
  }

  /** The distance whose square is dsq is less than e. */
  predicate DistBelow(dsq: real, e: real)
  {
    e > 0.0 && dsq < Sq(e)
  }

  /** DistExceeds decides "d > c" for the true distance d. */
  lemma DistExceedsMeans(d: real, dsq: real, c: real)
    requires d >= 0.0 && Sq(d) == dsq
    ensures DistExceeds(dsq, c) <==> d > c
  {
    if c >= 0.0 {
      SquareMonotone(c, d);
    }
  }

  /** DistBelow decides "d < e" for the true distance d. */
  lemma DistBelowMeans(d: real, dsq: real, e: real)
    requires d >= 0.0 && Sq(d) == dsq
    ensures DistBelow(dsq, e) <==> d < e
  {
    if e > 0.0 {
      SquareMonotone(d, e);
    }
  }

  /** "0 < d - c < m" for the distance d whose square is dsq. */
  predicate ClearanceBelow(dsq: real, c: real, m: real)
  {
    DistExceeds(dsq, c) && DistBelow(dsq, c + m)
  }

  lemma ClearanceBelowMeans(d: real, dsq: real, c: real, m: real)
    requires d >= 0.0 && Sq(d) == dsq
    ensures ClearanceBelow(dsq, c, m) <==> 0.0 < d - c < m
  {
    DistExceedsMeans(d, dsq, c);
    DistBelowMeans(d, dsq, c + m);
  }
}
