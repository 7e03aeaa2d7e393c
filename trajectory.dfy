/**
 * Arc-length resampling of a polyline, centring and scaling it into a
 * template, and the mean point-wise distance between two templates.
 */
module Trajectory {
  import opened Wrappers
  import opened Geometry
  import opened Sequences

  /** Below this total length a polyline is degenerate, and a segment shorter than this is skipped. */
  const Tiny: real := 0.000001

  /** Distance reported for inputs that cannot be compared. */
  const Sentinel: real := 1000000000.0

  // ---------------------------------------------------------------------
  // Resampling

  /** Cumulative arc length at every vertex (`concatenate([0], cumsum(seg))`). */
  function ArcLengths(norm: Norm, pts: seq<Vec>): (s: seq<real>)
    requires |pts| >= 1
    ensures |s| == |pts| && s[0] == 0.0
    ensures forall i, j :: 0 <= i <= j < |s| ==> s[i] <= s[j]
    ensures s[|s| - 1] == PathLength(norm, pts)
  {
    if |pts| == 1 then [0.0]
    else
      var init := pts[..|pts| - 1];
      assert init[..|init| - 1] == pts[..|pts| - 2];
      var s := ArcLengths(norm, init);
      s + [s[|s| - 1] + Dist(norm, pts[|pts| - 2], pts[|pts| - 1])]
  }

  /** The `k`-th of `n` evenly spaced values from 0 to `total` (`linspace`). */
  function Target(total: real, n: nat, k: nat): (t: real)
    requires k < n
    ensures k == 0 ==> t == 0.0
    ensures n > 1 && k == n - 1 ==> t == total
  {
    if n == 1 then 0.0
    else if k == n - 1 then total
    else (k as real) * total / ((n - 1) as real)
  }

  lemma TargetMonotone(total: real, n: nat, k: nat)
    requires total >= 0.0 && k + 1 < n
    ensures 0.0 <= Target(total, n, k) <= Target(total, n, k + 1) <= total
  {
    var m := (n - 1) as real;
    FractionBounds(k as real, m, total);
    if k + 1 < n - 1 {
      FractionBounds((k + 1) as real, m, total);
      assert (k as real) * total <= ((k + 1) as real) * total;
      DivMonotone((k as real) * total, ((k + 1) as real) * total, m);
    }
  }

  lemma FractionBounds(a: real, m: real, total: real)
    requires 0.0 <= a <= m && m > 0.0 && total >= 0.0
    ensures 0.0 <= a * total / m <= total
  {
    assert a * total <= total * m;
    DivLe(a * total, m, total);
    DivMonotone(0.0, a * total, m);
  }

  lemma DivLe(x: real, m: real, y: real)
    requires m > 0.0 && x <= y * m
    ensures x / m <= y
  {
    assert (x / m) * m == x;
  }

  lemma DivMonotone(a: real, b: real, m: real)
    requires a <= b && m > 0.0
    ensures a / m <= b / m
  {
  }

  /**
   * The inner `while` loop: from segment `j`, advance while the next vertex's
   * arc length is still below `t`, stopping at the last segment.
   */
  function Advance(s: seq<real>, t: real, j: nat): (k: nat)
    requires |s| >= 2 && j <= |s| - 2
    ensures j <= k <= |s| - 2
    ensures forall i :: j < i <= k ==> s[i] < t
    ensures k < |s| - 2 ==> s[k + 1] >= t
    decreases |s| - j
  {
    if j < |s| - 2 && s[j + 1] < t then Advance(s, t, j + 1) else j
  }

  /** Linear interpolation on segment `j` at arc length `t`; a near-empty segment yields its start. */
  function Interp(pts: seq<Vec>, s: seq<real>, j: nat, t: real): Vec
    requires |s| == |pts| && j + 1 < |pts|
  {
    if s[j + 1] - s[j] < Tiny then pts[j]
    else
      var a := (t - s[j]) / (s[j + 1] - s[j]);
      Add(Scale(pts[j], 1.0 - a), Scale(pts[j + 1], a))
  }

  /** The output points for targets `k..n-1`, scanning on from segment `j` as the loop does. */
  function ResampleFrom(pts: seq<Vec>, s: seq<real>, total: real, n: nat, k: nat, j: nat): (out: seq<Vec>)
    requires |s| == |pts| >= 2 && j <= |s| - 2 && k <= n
    ensures |out| == n - k
    decreases n - k
  {
    if k == n then []
    else
      var t := Target(total, n, k);
      var j2 := Advance(s, t, j);
      [Interp(pts, s, j2, t)] + ResampleFrom(pts, s, total, n, k + 1, j2)
  }

  /** The point at arc length `t`, found by scanning from the first segment. */
  function PointAt(pts: seq<Vec>, s: seq<real>, t: real): Vec
    requires |s| == |pts| >= 2
  {
    Interp(pts, s, Advance(s, t, 0), t)
  }

  /** `resample_polyline`: `None` for a missing or one-point input, otherwise `n` points. */
  function Resample(norm: Norm, points: Option<seq<Vec>>, n: nat): Option<seq<Vec>> {
    if points.None? || |points.value| < 2 then None
    else
      var pts := points.value;
      var s := ArcLengths(norm, pts);
      var total := s[|s| - 1];
      if total < Tiny then Some(seq(n, _ => pts[0]))
      else Some(ResampleFrom(pts, s, total, n, 0, 0))
  }

  /** Scanning from any segment at or before the stopping segment stops at the same place. */
  lemma {:induction false} AdvanceResume(s: seq<real>, t: real, i: nat, j: nat)
    requires |s| >= 2 && i <= |s| - 2 && i <= j <= Advance(s, t, i)
    ensures Advance(s, t, j) == Advance(s, t, i)
    decreases j - i
  {
    if i < j {
      assert Advance(s, t, i) == Advance(s, t, i + 1);
      AdvanceResume(s, t, i + 1, j);
    }
  }

  /** A later target never stops at an earlier segment. */
  lemma {:induction false} AdvanceMonotone(s: seq<real>, t: real, u: real, j: nat)
    requires |s| >= 2 && j <= |s| - 2 && t <= u
    ensures Advance(s, t, j) <= Advance(s, u, j)
    decreases |s| - j
  {
    if j < |s| - 2 && s[j + 1] < t {
      AdvanceMonotone(s, t, u, j + 1);
    }
  }

  /** Resuming the scan for target `k` where target `k - 1` stopped equals a fresh scan. */
  lemma CarriedScan(s: seq<real>, total: real, n: nat, k: nat)
    requires |s| >= 2 && total >= 0.0 && 0 < k < n
    ensures var t := Target(total, n, k);
      Advance(s, t, Advance(s, Target(total, n, k - 1), 0)) == Advance(s, t, 0)
  {
    var t := Target(total, n, k);
    TargetMonotone(total, n, k - 1);
    AdvanceMonotone(s, Target(total, n, k - 1), t, 0);
    AdvanceResume(s, t, 0, Advance(s, Target(total, n, k - 1), 0));
  }

  /**
   * Carrying `j` from one target to the next finds the same segment as a
   * fresh scan, so output `k` is the point at arc length `Target(k)`.
   */
  lemma {:induction false} ResampleFromPointwise(pts: seq<Vec>, s: seq<real>, total: real, n: nat, k: nat, j: nat)
    requires |s| == |pts| >= 2 && j <= |s| - 2 && k <= n && total >= 0.0
    requires k == 0 ==> j == 0
    requires k > 0 ==> j == Advance(s, Target(total, n, k - 1), 0)
    ensures forall i :: 0 <= i < n - k ==>
      ResampleFrom(pts, s, total, n, k, j)[i] == PointAt(pts, s, Target(total, n, k + i))
    decreases n - k
  {
    if k < n {
      var t := Target(total, n, k);
      var j2 := Advance(s, t, j);
      if k > 0 {
        CarriedScan(s, total, n, k);
      }
      assert j2 == Advance(s, t, 0);
      ResampleFromPointwise(pts, s, total, n, k + 1, j2);
      var rest := ResampleFrom(pts, s, total, n, k + 1, j2);
      var out := ResampleFrom(pts, s, total, n, k, j);
      assert out == [Interp(pts, s, j2, t)] + rest;
      assert out[0] == PointAt(pts, s, t);
      forall i | 0 < i < n - k
        ensures out[i] == PointAt(pts, s, Target(total, n, k + i))
      {
        assert out[i] == rest[i - 1];
        assert k + 1 + (i - 1) == k + i;
      }
    }
  }

  /**
   * `resample_polyline` is `None` exactly for a missing or one-point input;
   * otherwise it has `n` points, the first being the input's first point.
   */
  lemma ResampleProperties(norm: Norm, points: Option<seq<Vec>>, n: nat)
    ensures Resample(norm, points, n).None? <==> points.None? || |points.value| < 2
    ensures Resample(norm, points, n).Some? ==> |Resample(norm, points, n).value| == n
    ensures Resample(norm, points, n).Some? && n > 0 ==>
      Resample(norm, points, n).value[0] == points.value[0]
  {
    if points.Some? && |points.value| >= 2 {
      var pts := points.value;
      if PathLength(norm, pts) >= Tiny {
        ResampleEvenlySpaced(norm, pts, n);
        if n > 0 {
          FirstPoint(pts, ArcLengths(norm, pts));
        }
      }
    }
  }

  /** A polyline shorter than `Tiny` resamples to `n` copies of its first point. */
  lemma ResampleDegenerate(norm: Norm, pts: seq<Vec>, n: nat)
    requires |pts| >= 2 && PathLength(norm, pts) < Tiny
    ensures Resample(norm, Some(pts), n).Some?
    ensures forall i :: 0 <= i < |Resample(norm, Some(pts), n).value| ==>
      Resample(norm, Some(pts), n).value[i] == pts[0]
  {
  }

  /** Otherwise output `k` is the point at arc length `k * total / (n - 1)`. */
  lemma ResampleEvenlySpaced(norm: Norm, pts: seq<Vec>, n: nat)
    requires |pts| >= 2 && PathLength(norm, pts) >= Tiny
    ensures Resample(norm, Some(pts), n).Some?
    ensures |Resample(norm, Some(pts), n).value| == n
    ensures forall k :: 0 <= k < n ==>
      Resample(norm, Some(pts), n).value[k]
        == PointAt(pts, ArcLengths(norm, pts), Target(PathLength(norm, pts), n, k))
  {
    var s := ArcLengths(norm, pts);
    var total := PathLength(norm, pts);
    assert s[|s| - 1] == total && total >= 0.0;
    ResampleFromPointwise(pts, s, total, n, 0, 0);
    var out := ResampleFrom(pts, s, total, n, 0, 0);
    assert Resample(norm, Some(pts), n) == Some(out);
    forall k | 0 <= k < n
      ensures out[k] == PointAt(pts, s, Target(total, n, k))
    {
      assert 0 + k == k;
    }
  }

  /** At arc length 0 the scan stays on the first segment and interpolates to its start. */
  lemma FirstPoint(pts: seq<Vec>, s: seq<real>)
    requires |s| == |pts| >= 2 && s[0] == 0.0
    requires forall i, j :: 0 <= i <= j < |s| ==> s[i] <= s[j]
    ensures PointAt(pts, s, 0.0) == pts[0]
  {
    assert Advance(s, 0.0, 0) == 0;
    if s[1] - s[0] >= Tiny {
      assert (0.0 - s[0]) / (s[1] - s[0]) == 0.0;
    }
  }

  /** The inner `while`: step `j` on while the next breakpoint lies before `t`. */
  method AdvanceScan(s: seq<real>, t: real, j: nat) returns (j': nat)
    requires |s| >= 2 && j <= |s| - 2
    ensures j' == Advance(s, t, j)
  {
    j' := j;
    while j' < |s| - 2 && s[j' + 1] < t
      invariant j <= j' <= |s| - 2
      invariant Advance(s, t, j') == Advance(s, t, j)
      decreases |s| - j'
    {
      j' := j' + 1;
    }
  }

  /** The resampling loop of `resample_polyline`. */
  method ResamplePolyline(norm: Norm, points: Option<seq<Vec>>, n: nat) returns (r: Option<seq<Vec>>)
    ensures r == Resample(norm, points, n)
  {
    if points.None? || |points.value| < 2 {
      return None;
    }
    var pts := points.value;
    var s := ArcLengths(norm, pts);
    var total := s[|s| - 1];
    if total < Tiny {
      return Some(seq(n, _ => pts[0]));
    }
    ghost var whole := ResampleFrom(pts, s, total, n, 0, 0);
    var out: seq<Vec> := [];
    var j := 0;
    var k := 0;
    while k < n
      invariant 0 <= k <= n && 0 <= j <= |s| - 2
      invariant out + ResampleFrom(pts, s, total, n, k, j) == whole
    {
      var t := Target(total, n, k);
      j := AdvanceScan(s, t, j);
      Regroup(out, [Interp(pts, s, j, t)], ResampleFrom(pts, s, total, n, k + 1, j), whole);
      out := out + [Interp(pts, s, j, t)];
      k := k + 1;
    }
    assert out + [] == out;
    return Some(out);
  }

  // ---------------------------------------------------------------------
  // Normalisation and distance

  function SqNorm(v: Vec): real { v.x * v.x + v.y * v.y }

  /** Mean of the squared norms of the points (`(rs ** 2).sum(axis=1).mean()`). */
  function MeanSq(pts: seq<Vec>): real
    requires |pts| > 0
  {
    SumSq(pts) / (|pts| as real)
  }

  function SumSq(pts: seq<Vec>): real {
    if |pts| == 0 then 0.0 else SumSq(pts[..|pts| - 1]) + SqNorm(pts[|pts| - 1])
  }

  /** Every point moved by `-c`. */
  function Shift(pts: seq<Vec>, c: Vec): (r: seq<Vec>)
    ensures |r| == |pts| && forall i :: 0 <= i < |r| ==> r[i] == Sub(pts[i], c)
  {
    seq(|pts|, i requires 0 <= i < |pts| => Sub(pts[i], c))
  }

  /** Every point divided by `k`. */
  function Shrink(pts: seq<Vec>, k: real): (r: seq<Vec>)
    requires k != 0.0
    ensures |r| == |pts| && forall i :: 0 <= i < |r| ==> r[i] == Scale(pts[i], 1.0 / k)
  {
    seq(|pts|, i requires 0 <= i < |pts| => Scale(pts[i], 1.0 / k))
  }

  /**
   * `normalize_trajectory`: resample, move the centroid to the origin and
   * divide by the root-mean-square radius, or by 1 when that is below `Tiny`.
   * `sqrt` is the square root the source takes from the numeric library.
   */
  function Normalize(norm: Norm, sqrt: real -> real, points: Option<seq<Vec>>, n: nat): Option<seq<Vec>> {
    match Resample(norm, points, n)
    case None => None
    case Some(rs) =>
      if |rs| == 0 then Some(rs)
      else
        var centred := Shift(rs, Centroid(rs));
        var scale := sqrt(MeanSq(centred));
        Some(Shrink(centred, if scale < Tiny then 1.0 else scale))
  }

  lemma {:induction false} SumVecScale(pts: seq<Vec>, k: real)
    ensures SumVec(seq(|pts|, i requires 0 <= i < |pts| => Scale(pts[i], k))) == Scale(SumVec(pts), k)
  {
    var scaled := seq(|pts|, i requires 0 <= i < |pts| => Scale(pts[i], k));
    if |pts| > 0 {
      var init := pts[..|pts| - 1];
      assert scaled[..|pts| - 1] == seq(|init|, i requires 0 <= i < |init| => Scale(init[i], k));
      SumVecScale(init, k);
    }
  }

  /** Moving every point by the centroid puts the sum, hence the centroid, at the origin. */
  lemma CentredSumsToOrigin(rs: seq<Vec>)
    requires |rs| > 0
    ensures SumVec(Shift(rs, Centroid(rs))) == Origin
  {
    var c := Centroid(rs);
    SumVecShift(rs, c);
    var m := |rs| as real;
    var sv := SumVec(rs);
    assert sv.x * (1.0 / m) * m == sv.x && sv.y * (1.0 / m) * m == sv.y;
    assert Scale(c, m) == sv;
  }

  /** Dividing every point by `k` divides the sum by `k`. */
  lemma ShrinkSum(pts: seq<Vec>, k: real)
    requires k != 0.0
    ensures SumVec(Shrink(pts, k)) == Scale(SumVec(pts), 1.0 / k)
  {
    SumVecScale(pts, 1.0 / k);
    assert Shrink(pts, k) == seq(|pts|, i requires 0 <= i < |pts| => Scale(pts[i], 1.0 / k));
  }

  /**
   * `normalize_trajectory` is `None` exactly when resampling is; otherwise
   * it has `n` points whose centroid is the origin, and when the spread is
   * below `Tiny` the points are only centred, not scaled.
   */
  lemma {:induction false} NormalizeProperties(norm: Norm, sqrt: real -> real, points: Option<seq<Vec>>, n: nat)
    ensures Normalize(norm, sqrt, points, n).None? <==> Resample(norm, points, n).None?
    ensures Normalize(norm, sqrt, points, n).Some? ==>
      |Normalize(norm, sqrt, points, n).value| == n
      && SumVec(Normalize(norm, sqrt, points, n).value) == Origin
    ensures Normalize(norm, sqrt, points, n).Some? && n > 0 ==>
      var rs := Resample(norm, points, n).value;
      var centred := Shift(rs, Centroid(rs));
      sqrt(MeanSq(centred)) < Tiny ==> Normalize(norm, sqrt, points, n).value == centred
    ensures Normalize(norm, sqrt, points, n).Some? && n > 0 ==>
      var rs := Resample(norm, points, n).value;
      var centred := Shift(rs, Centroid(rs));
      var scale := sqrt(MeanSq(centred));
      scale >= Tiny ==> Normalize(norm, sqrt, points, n).value == Shrink(centred, scale)
  {
    ResampleProperties(norm, points, n);
    var r := Resample(norm, points, n);
    if r.Some? && |r.value| > 0 {
      var rs := r.value;
      var centred := Shift(rs, Centroid(rs));
      CentredSumsToOrigin(rs);
      var scale := sqrt(MeanSq(centred));
      var k := if scale < Tiny then 1.0 else scale;
      ShrinkSum(centred, k);
      assert Normalize(norm, sqrt, points, n) == Some(Shrink(centred, k));
      if scale < Tiny {
        assert Shrink(centred, k) == centred;
      }
    }
  }

  /** Squared norms are never negative, so neither is their sum. */
  lemma {:induction false} SumSqNonNegative(pts: seq<Vec>)
    ensures SumSq(pts) >= 0.0
  {
    if |pts| > 0 {
      SumSqNonNegative(pts[..|pts| - 1]);
    }
  }

  /** Dividing a point by `k` divides its squared norm by `k * k`. */
  lemma SqNormShrink(v: Vec, k: real)
    requires k != 0.0
    ensures SqNorm(Scale(v, 1.0 / k)) * (k * k) == SqNorm(v)
  {
    var u := 1.0 / k;
    assert u * k == 1.0;
    assert (v.x * u) * (v.x * u) * (k * k) == (v.x * v.x) * ((u * k) * (u * k));
    assert (v.y * u) * (v.y * u) * (k * k) == (v.y * v.y) * ((u * k) * (u * k));
  }

  /** Dividing every point by `k` divides the summed squared norms by `k * k`. */
  lemma {:induction false} SumSqShrink(pts: seq<Vec>, k: real)
    requires k != 0.0
    ensures SumSq(Shrink(pts, k)) * (k * k) == SumSq(pts)
  {
    if |pts| > 0 {
      var init := pts[..|pts| - 1];
      assert Shrink(pts, k)[..|pts| - 1] == Shrink(init, k);
      SumSqShrink(init, k);
      SqNormShrink(pts[|pts| - 1], k);
      var a := SumSq(Shrink(init, k));
      var b := SqNorm(Scale(pts[|pts| - 1], 1.0 / k));
      assert Shrink(pts, k)[|pts| - 1] == Scale(pts[|pts| - 1], 1.0 / k);
      assert SumSq(Shrink(pts, k)) == a + b;
      assert SumSq(pts) == SumSq(init) + SqNorm(pts[|pts| - 1]);
      assert (a + b) * (k * k) == a * (k * k) + b * (k * k);
    }
  }

  /** Dividing by the root-mean-square radius leaves a mean squared radius of 1. */
  lemma ShrinkUnitSpread(pts: seq<Vec>, k: real)
    requires |pts| > 0 && k != 0.0 && k * k == MeanSq(pts)
    ensures MeanSq(Shrink(pts, k)) == 1.0
  {
    SumSqShrink(pts, k);
    var m := |pts| as real;
    var out := SumSq(Shrink(pts, k));
    assert SumSq(pts) == MeanSq(pts) * m;
    assert out * MeanSq(pts) == MeanSq(pts) * m;
    assert out == m;
    DivSelf(m);
  }

  lemma SquareOfRoot(sqrt: real -> real, x: real)
    requires forall y :: y >= 0.0 ==> sqrt(y) >= 0.0 && sqrt(y) * sqrt(y) == y
    requires x >= 0.0
    ensures sqrt(x) * sqrt(x) == x
  {
  }

  /** The mean squared radius is never negative. */
  lemma MeanSqNonNegative(pts: seq<Vec>)
    requires |pts| > 0
    ensures MeanSq(pts) >= 0.0
  {
    SumSqNonNegative(pts);
    DivNonNegative(SumSq(pts), |pts| as real);
  }

  lemma DivNonNegative(a: real, m: real)
    requires a >= 0.0 && m > 0.0
    ensures a / m >= 0.0
  {
  }

  lemma DivSelf(m: real)
    requires m != 0.0
    ensures m / m == 1.0
  {
  }

  /**
   * With a true square root, a trajectory whose spread reaches `Tiny` comes
   * out of normalisation with a mean squared radius of exactly 1.
   */
  lemma NormalizeUnitSpread(norm: Norm, sqrt: real -> real, points: Option<seq<Vec>>, n: nat)
    requires forall x :: x >= 0.0 ==> sqrt(x) >= 0.0 && sqrt(x) * sqrt(x) == x
    ensures Normalize(norm, sqrt, points, n).Some? && n > 0 ==>
      var rs := Resample(norm, points, n).value;
      var centred := Shift(rs, Centroid(rs));
      sqrt(MeanSq(centred)) >= Tiny ==> MeanSq(Normalize(norm, sqrt, points, n).value) == 1.0
  {
    ResampleProperties(norm, points, n);
    var r := Resample(norm, points, n);
    if r.Some? && n > 0 {
      var rs := r.value;
      assert |rs| > 0;
      var centred := Shift(rs, Centroid(rs));
      var ms := MeanSq(centred);
      MeanSqNonNegative(centred);
      SquareOfRoot(sqrt, ms);
      var scale := sqrt(ms);
      if scale >= Tiny {
        assert Normalize(norm, sqrt, points, n) == Some(Shrink(centred, scale));
        ShrinkUnitSpread(centred, scale);
      }
    }
  }

  /** Point-wise distances summed. */
  function SumDist(norm: Norm, a: seq<Vec>, b: seq<Vec>): (d: real)
    requires |a| == |b|
    ensures d >= 0.0
  {
    if |a| == 0 then 0.0
    else SumDist(norm, a[..|a| - 1], b[..|b| - 1]) + Dist(norm, a[|a| - 1], b[|b| - 1])
  }

  /**
   * `template_distance`: the mean point-wise distance, or the sentinel when
   * either side is missing or the shapes differ.
   */
  function TemplateDistance(norm: Norm, a: Option<seq<Vec>>, b: Option<seq<Vec>>): (d: real)
    ensures d >= 0.0
    ensures a.None? || b.None? || |a.value| != |b.value| ==> d == Sentinel
  {
    if a.None? || b.None? || |a.value| != |b.value| then Sentinel
    else if |a.value| == 0 then 0.0
    else SumDist(norm, a.value, b.value) / (|a.value| as real)
  }

  lemma {:induction false} SumDistSelf(norm: Norm, a: seq<Vec>)
    ensures SumDist(norm, a, a) == 0.0
  {
    if |a| > 0 {
      SumDistSelf(norm, a[..|a| - 1]);
      DistSelf(norm, a[|a| - 1]);
    }
  }

  lemma {:induction false} SumDistSymmetric(norm: Norm, a: seq<Vec>, b: seq<Vec>)
    requires |a| == |b|
    ensures SumDist(norm, a, b) == SumDist(norm, b, a)
  {
    if |a| > 0 {
      SumDistSymmetric(norm, a[..|a| - 1], b[..|b| - 1]);
      DistSymmetric(norm, a[|a| - 1], b[|b| - 1]);
    }
  }

  /** A polyline is at distance 0 from itself, and the distance is symmetric. */
  lemma TemplateDistanceProperties(norm: Norm, a: Option<seq<Vec>>, b: Option<seq<Vec>>)
    ensures a.Some? ==> TemplateDistance(norm, a, a) == 0.0
    ensures TemplateDistance(norm, a, b) == TemplateDistance(norm, b, a)
  {
    if a.Some? {
      SumDistSelf(norm, a.value);
    }
    if a.Some? && b.Some? && |a.value| == |b.value| {
      SumDistSymmetric(norm, a.value, b.value);
    }
  }
}
