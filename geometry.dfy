/**
 * Plane geometry over `real`. The Euclidean norm of the source (numpy's
 * `linalg.norm`) is not computable in Dafny's reals, so every member that
 * measures a distance takes the norm as a parameter of type `Norm`: any
 * function that is non-negative, symmetric under negation and zero at the
 * origin.
 */
module Geometry {
  datatype Vec = Vec(x: real, y: real)

  const Origin := Vec(0.0, 0.0)

  function Add(a: Vec, b: Vec): Vec { Vec(a.x + b.x, a.y + b.y) }
  function Sub(a: Vec, b: Vec): Vec { Vec(a.x - b.x, a.y - b.y) }
  function Neg(v: Vec): Vec { Vec(-v.x, -v.y) }
  function Scale(v: Vec, k: real): Vec { Vec(v.x * k, v.y * k) }

  function Abs(r: real): (a: real)
    ensures a >= 0.0 && (a == r || a == -r)
  {
    if r < 0.0 then -r else r
  }

  /** The taxicab norm, the witness that the laws below can be met. */
  function ManhattanNorm(v: Vec): real {
    (if v.x < 0.0 then -v.x else v.x) + (if v.y < 0.0 then -v.y else v.y)
  }

  ghost predicate NormLaws(f: Vec -> real) {
    && (forall v :: 0.0 <= f(v))
    && (forall v :: f(Neg(v)) == f(v))
    && f(Origin) == 0.0
  }

  /** Any norm-like measure of a displacement. */
  type Norm = f: Vec -> real | NormLaws(f) witness ManhattanNorm

  /** Distance between two points, `np.linalg.norm(a - b)`. */
  function Dist(norm: Norm, a: Vec, b: Vec): (d: real)
    ensures d >= 0.0
  {
    norm(Sub(a, b))
  }

  lemma DistSymmetric(norm: Norm, a: Vec, b: Vec)
    ensures Dist(norm, a, b) == Dist(norm, b, a)
  {
    assert Sub(b, a) == Neg(Sub(a, b));
  }

  lemma DistSelf(norm: Norm, a: Vec)
    ensures Dist(norm, a, a) == 0.0
  {
    assert Sub(a, a) == Origin;
  }

  /**
   * Sum of the lengths of consecutive segments of a polyline; 0 when it has
   * fewer than two points.
   */
  function PathLength(norm: Norm, pts: seq<Vec>): (len: real)
    ensures len >= 0.0
  {
    if |pts| < 2 then 0.0
    else PathLength(norm, pts[..|pts| - 1]) + Dist(norm, pts[|pts| - 2], pts[|pts| - 1])
  }

  /** Component-wise sum of a sequence of vectors. */
  function SumVec(pts: seq<Vec>): Vec {
    if |pts| == 0 then Origin else Add(SumVec(pts[..|pts| - 1]), pts[|pts| - 1])
  }

  /** Arithmetic mean of a non-empty sequence of vectors (`mean(axis=0)`). */
  function Centroid(pts: seq<Vec>): Vec
    requires |pts| > 0
  {
    Scale(SumVec(pts), 1.0 / (|pts| as real))
  }

  lemma {:induction false} SumVecShift(pts: seq<Vec>, c: Vec)
    ensures SumVec(seq(|pts|, i requires 0 <= i < |pts| => Sub(pts[i], c)))
            == Sub(SumVec(pts), Scale(c, |pts| as real))
  {
    var shifted := seq(|pts|, i requires 0 <= i < |pts| => Sub(pts[i], c));
    if |pts| > 0 {
      var init := pts[..|pts| - 1];
      assert shifted[..|pts| - 1] == seq(|init|, i requires 0 <= i < |init| => Sub(init[i], c));
      SumVecShift(init, c);
    }
  }
}
