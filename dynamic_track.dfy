/**
 * The trajectory window: a time-bounded FIFO of `(t_ms, x, y)` samples.
 * Eviction drops samples from the front only, while the front sample is
 * older than the cutoff.
 */
module DynamicTrack {
  import opened Geometry

  datatype Sample = Sample(t: real, p: Vec)

  /** Samples are in non-decreasing time order. */
  ghost predicate TimeOrdered(pts: seq<Sample>) {
    forall i, j :: 0 <= i < j < |pts| ==> pts[i].t <= pts[j].t
  }

  /**
   * What remains after popping front samples while the front is strictly
   * older than `cutoff`.
   */
  function Evict(pts: seq<Sample>, cutoff: real): (r: seq<Sample>)
    ensures |r| <= |pts|
  {
    if |pts| > 0 && pts[0].t < cutoff then Evict(pts[1..], cutoff) else pts
  }

  /**
   * Eviction keeps a suffix whose front is not older than the cutoff, and
   * every sample it drops is older than the cutoff.
   */
  lemma {:induction false} EvictProperties(pts: seq<Sample>, cutoff: real)
    ensures var r := Evict(pts, cutoff);
      && r == pts[|pts| - |r|..]
      && (|r| > 0 ==> r[0].t >= cutoff)
      && (forall i :: 0 <= i < |pts| - |r| ==> pts[i].t < cutoff)
    decreases |pts|
  {
    if |pts| > 0 && pts[0].t < cutoff {
      EvictProperties(pts[1..], cutoff);
      var r := Evict(pts, cutoff);
      forall i | 0 <= i < |pts| - |r| ensures pts[i].t < cutoff {
        if i > 0 { assert pts[i] == pts[1..][i - 1]; }
      }
    }
  }

  /** The window after `add(now, x, y)`. */
  function Added(pts: seq<Sample>, windowMs: int, now: real, p: Vec): seq<Sample> {
    Evict(pts + [Sample(now, p)], now - windowMs as real)
  }

  /** Net displacement from the oldest to the newest sample; zero below six samples. */
  function WindowDelta(pts: seq<Sample>): Vec {
    if |pts| < 6 then Origin else Sub(pts[|pts| - 1].p, pts[0].p)
  }

  function Positions(pts: seq<Sample>): (ps: seq<Vec>)
    ensures |ps| == |pts| && forall i :: 0 <= i < |pts| ==> ps[i] == pts[i].p
  {
    seq(|pts|, i requires 0 <= i < |pts| => pts[i].p)
  }

  /** Path length of the window; 0 below two samples. */
  function WindowLength(norm: Norm, pts: seq<Sample>): real {
    PathLength(norm, Positions(pts))
  }

  lemma {:induction false} AddKeepsNewest(pts: seq<Sample>, windowMs: int, now: real, p: Vec)
    requires windowMs >= 0
    ensures var r := Added(pts, windowMs, now, p);
      && |r| > 0 && r[|r| - 1] == Sample(now, p)
      && r[..|r| - 1] == pts[|pts| + 1 - |r|..]
  {
    var s := pts + [Sample(now, p)];
    var cutoff := now - windowMs as real;
    var r := Evict(s, cutoff);
    EvictProperties(s, cutoff);
    assert s[|s| - 1].t >= cutoff;
    assert |r| > 0;
    assert r == s[|s| - |r|..];
    assert r[|r| - 1] == s[|s| - 1];
    assert r[..|r| - 1] == s[|s| - |r|..|s| - 1];
  }

  lemma {:induction false} AddRespectsWindow(pts: seq<Sample>, windowMs: int, now: real, p: Vec)
    requires TimeOrdered(pts)
    ensures var r := Added(pts, windowMs, now, p);
      forall i :: 0 <= i < |r| - 1 ==> r[i].t >= now - windowMs as real
  {
    var s := pts + [Sample(now, p)];
    var cutoff := now - windowMs as real;
    var r := Evict(s, cutoff);
    EvictProperties(s, cutoff);
    forall i | 0 <= i < |r| - 1
      ensures r[i].t >= cutoff
    {
      var off := |s| - |r|;
      assert r[0] == s[off] && r[i] == s[off + i];
      assert s[off].t <= s[off + i].t;
    }
  }

  lemma {:induction false} AddKeepsOrder(pts: seq<Sample>, windowMs: int, now: real, p: Vec)
    requires TimeOrdered(pts)
    requires forall i :: 0 <= i < |pts| ==> pts[i].t <= now
    ensures TimeOrdered(Added(pts, windowMs, now, p))
  {
    var s := pts + [Sample(now, p)];
    assert TimeOrdered(s);
    var r := Evict(s, now - windowMs as real);
    EvictProperties(s, now - windowMs as real);
    var off := |s| - |r|;
    forall i, j | 0 <= i < j < |r| ensures r[i].t <= r[j].t {
      assert r[i] == s[off + i] && r[j] == s[off + j];
    }
  }

  lemma LengthNonNegative(norm: Norm, pts: seq<Sample>)
    ensures WindowLength(norm, pts) >= 0.0 && (|pts| < 2 ==> WindowLength(norm, pts) == 0.0)
  {
  }

  class TrackWindow {
    var windowMs: int
    var pts: seq<Sample>

    constructor (windowMs: int)
      ensures this.windowMs == windowMs && pts == []
    {
      this.windowMs := windowMs;
      pts := [];
    }

    /** Changes the window length only; nothing is evicted. */
    method SetWindow(windowMs: int)
      modifies this
      ensures this.windowMs == windowMs && pts == old(pts)
    {
      this.windowMs := windowMs;
    }

    method Reset()
      modifies this
      ensures pts == [] && windowMs == old(windowMs)
    {
      pts := [];
    }

    /** Appends the sample stamped `now`, then pops stale samples from the front. */
    method Add(now: real, x: real, y: real)
      modifies this
      ensures pts == Added(old(pts), windowMs, now, Vec(x, y)) && windowMs == old(windowMs)
    {
      pts := pts + [Sample(now, Vec(x, y))];
      var cutoff := now - windowMs as real;
      ghost var appended := pts;
      while |pts| > 0 && pts[0].t < cutoff
        invariant Evict(pts, cutoff) == Evict(appended, cutoff)
        invariant windowMs == old(windowMs) && cutoff == now - windowMs as real
        decreases |pts|
      {
        pts := pts[1..];
      }
    }

    /** `delta`: newest minus oldest position, or zero below six samples. */
    function Delta(): (d: Vec)
      reads this
      ensures |pts| < 6 ==> d == Origin
      ensures |pts| >= 6 ==> Geometry.Add(d, pts[0].p) == pts[|pts| - 1].p
    {
      WindowDelta(pts)
    }

    /** `length`: the summed segment lengths, never negative and zero below two samples. */
    function Length(norm: Norm): (len: real)
      reads this
      ensures len >= 0.0 && (|pts| < 2 ==> len == 0.0)
    {
      WindowLength(norm, pts)
    }
  }
}
