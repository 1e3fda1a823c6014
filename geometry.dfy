/** Angle normalisation and distances (lp_utils.py), over integers. */
module Geometry {

  /** A canvas position in pixels. */
  type Point = (int, int)

  /**
   * Wraps an angle in degrees into [0, 360). For integer input this is the
   * mathematical residue modulo 360: the adjustment for a negative residue
   * that the Python code carries can never fire (see DegNormIsResidue).
   */
  function DegNorm(deg: int): (r: int)
    ensures 0 <= r < 360
    ensures (deg - r) % 360 == 0
  {
    var d := deg % 360;
    if d < 0 then d + 360 else d
  }

  /** The result is determined by the two properties in DegNorm's postcondition. */
  lemma DegNormUnique(deg: int, r: int)
    requires 0 <= r < 360
    requires (deg - r) % 360 == 0
    ensures DegNorm(deg) == r
  {
    var n := DegNorm(deg);
    assert (n - r) % 360 == 0 by {
      assert n - r == (deg - r) - (deg - n);
    }
  }

  /** The negative-residue branch is dead: normalising is taking the residue. */
  lemma DegNormIsResidue(deg: int)
    ensures deg % 360 >= 0
    ensures DegNorm(deg) == deg % 360
  {
  }

  /** Normalising an already normalised angle changes nothing. */
  lemma DegNormIdempotent(deg: int)
    ensures DegNorm(DegNorm(deg)) == DegNorm(deg)
  {
    DegNormUnique(DegNorm(deg), DegNorm(deg));
  }

  /** Whole turns do not matter. */
  lemma DegNormPeriodic(deg: int, k: int)
    ensures DegNorm(deg + 360 * k) == DegNorm(deg)
  {
    var r := DegNorm(deg);
    assert (deg + 360 * k - r) % 360 == 0 by {
      assert deg + 360 * k - r == (deg - r) + 360 * k;
    }
    DegNormUnique(deg + 360 * k, r);
  }

  /**
   * Squared Euclidean distance. The Python code compares `math.hypot` against
   * a threshold; comparing squares against squared thresholds is the same test
   * without a square root.
   */
  function SqDist(p: Point, q: Point): (r: nat)
    ensures r == 0 <==> p == q
  {
    var dx, dy := p.0 - q.0, p.1 - q.1;
    SquareSign(dx);
    SquareSign(dy);
    dx * dx + dy * dy
  }

  /** Distance does not depend on the order of the two points. */
  lemma SqDistSymmetric(p: Point, q: Point)
    ensures SqDist(p, q) == SqDist(q, p)
  {
    var dx, dy := p.0 - q.0, p.1 - q.1;
    assert (-dx) * (-dx) == dx * dx;
    assert (-dy) * (-dy) == dy * dy;
  }

  lemma SquareSign(x: int)
    ensures x * x >= 0
    ensures x * x == 0 <==> x == 0
  {
    if x < 0 { assert x * x == (-x) * (-x); }
  }

  /** Squares grow with magnitude. */
  lemma SquareMonotone(a: int, b: int)
    requires 0 <= a <= b
    ensures a * a <= b * b
  {
    assert a * a <= a * b;
    assert a * b <= b * b;
  }
}
