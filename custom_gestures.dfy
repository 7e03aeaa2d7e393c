/**
 * User-recorded trajectory templates: the list kept under the configuration's
 * `custom_gestures` key, listing the ids usable in a mode, inserting a
 * template under an id, and matching a trajectory against the templates.
 */
module CustomGestures {
  import opened Wrappers
  import opened Geometry
  import opened Trajectory

  /**
   * One entry of the list. `id`, `mode` and `kind` (the entry's `type`) are
   * `None` when the key is missing or null; a missing `template` is `[]`.
   */
  datatype CustomEntry = CustomEntry(
    id: Option<string>,
    mode: Option<string>,
    kind: Option<string>,
    template: seq<seq<real>>)

  const DynamicTemplate := "dynamic_template"
  const BothModes := "both"
  /** Templates are stored resampled to this many points. */
  const TemplatePoints := 64

  /** A string argument that is `None` or empty is falsy. */
  predicate TruthyText(s: Option<string>) {
    s.Some? && s.value != ""
  }

  // ---------------------------------------------------------------------
  // list_ids

  /** The entry is listed for `mode`: a template whose mode is `mode` or "both"; a falsy `mode` does not filter. */
  predicate Listed(g: CustomEntry, mode: Option<string>) {
    g.kind == Some(DynamicTemplate)
    && (!TruthyText(mode) || g.mode == mode || g.mode == Some(BothModes))
  }

  /** The ids the loop collects, one per listed entry, in order (`None` for a missing id). */
  function Collected(gs: seq<CustomEntry>, mode: Option<string>): (out: seq<Option<string>>)
    ensures |out| <= |gs|
  {
    if |gs| == 0 then []
    else
      var g := gs[|gs| - 1];
      Collected(gs[..|gs| - 1], mode) + (if Listed(g, mode) then [g.id] else [])
  }

  /** The final comprehension: keep the truthy ids, in order. */
  function KeepTruthy(xs: seq<Option<string>>): (r: seq<string>)
    ensures |r| <= |xs|
  {
    if |xs| == 0 then []
    else KeepTruthy(xs[..|xs| - 1]) + (if TruthyText(xs[|xs| - 1]) then [xs[|xs| - 1].value] else [])
  }

  /** The result of `list_ids`. */
  function ListedIds(gs: seq<CustomEntry>, mode: Option<string>): seq<string> {
    KeepTruthy(Collected(gs, mode))
  }

  /** The truthy names kept are exactly the non-empty ones present. */
  lemma {:induction false} KeepTruthyMembership(xs: seq<Option<string>>, x: string)
    ensures x in KeepTruthy(xs) <==> x != "" && Some(x) in xs
  {
    if |xs| > 0 {
      var init := xs[..|xs| - 1];
      KeepTruthyMembership(init, x);
      assert xs == init + [xs[|xs| - 1]];
    }
  }

  /** An id is collected exactly when some listed entry carries it. */
  lemma {:induction false} CollectedMembership(gs: seq<CustomEntry>, mode: Option<string>, y: Option<string>)
    ensures y in Collected(gs, mode) <==> exists i :: 0 <= i < |gs| && Listed(gs[i], mode) && gs[i].id == y
  {
    if |gs| > 0 {
      var init := gs[..|gs| - 1];
      CollectedMembership(init, mode, y);
      if exists i :: 0 <= i < |init| && Listed(init[i], mode) && init[i].id == y {
        var i :| 0 <= i < |init| && Listed(init[i], mode) && init[i].id == y;
        assert gs[i] == init[i];
      }
      if exists i :: 0 <= i < |gs| && Listed(gs[i], mode) && gs[i].id == y {
        var i :| 0 <= i < |gs| && Listed(gs[i], mode) && gs[i].id == y;
        if i < |init| {
          assert init[i] == gs[i];
        }
      }
    }
  }

  /** A name is listed exactly when some listed entry carries it as a non-empty id. */
  lemma ListedIdsMembership(gs: seq<CustomEntry>, mode: Option<string>, x: string)
    ensures x in ListedIds(gs, mode) <==>
      x != "" && exists i :: 0 <= i < |gs| && Listed(gs[i], mode) && gs[i].id == Some(x)
  {
    KeepTruthyMembership(Collected(gs, mode), x);
    CollectedMembership(gs, mode, Some(x));
  }

  lemma {:induction false} KeepTruthyAppend(a: seq<Option<string>>, b: seq<Option<string>>)
    ensures KeepTruthy(a + b) == KeepTruthy(a) + KeepTruthy(b)
    decreases |b|
  {
    if |b| > 0 {
      var b0 := b[..|b| - 1];
      assert (a + b)[..|a + b| - 1] == a + b0;
      KeepTruthyAppend(a, b0);
    } else {
      assert a + b == a;
    }
  }

  /** Listing distributes over concatenation, so the ids keep the list's order. */
  lemma {:induction false} ListedIdsAppend(a: seq<CustomEntry>, b: seq<CustomEntry>, mode: Option<string>)
    ensures ListedIds(a + b, mode) == ListedIds(a, mode) + ListedIds(b, mode)
  {
    CollectedAppend(a, b, mode);
    KeepTruthyAppend(Collected(a, mode), Collected(b, mode));
  }

  lemma {:induction false} CollectedAppend(a: seq<CustomEntry>, b: seq<CustomEntry>, mode: Option<string>)
    ensures Collected(a + b, mode) == Collected(a, mode) + Collected(b, mode)
    decreases |b|
  {
    if |b| > 0 {
      var b0 := b[..|b| - 1];
      assert (a + b)[..|a + b| - 1] == a + b0;
      CollectedAppend(a, b0, mode);
    } else {
      assert a + b == a;
    }
  }

  // ---------------------------------------------------------------------
  // add_template

  /** The list with every entry whose id is `gid` removed. */
  function Without(gs: seq<CustomEntry>, gid: string): (r: seq<CustomEntry>)
    ensures |r| <= |gs|
  {
    if |gs| == 0 then []
    else Without(gs[..|gs| - 1], gid) + (if gs[|gs| - 1].id != Some(gid) then [gs[|gs| - 1]] else [])
  }

  /** `norm.tolist()`: one `[x, y]` row per point. */
  function Rows(pts: seq<Vec>): (rows: seq<seq<real>>)
    ensures |rows| == |pts|
    ensures forall i :: 0 <= i < |rows| ==> rows[i] == [pts[i].x, pts[i].y]
  {
    seq(|pts|, i requires 0 <= i < |pts| => [pts[i].x, pts[i].y])
  }

  /** The list after a successful `add_template`. */
  function Upserted(gs: seq<CustomEntry>, gid: string, mode: string, tmpl: seq<Vec>): seq<CustomEntry> {
    Without(gs, gid) + [CustomEntry(Some(gid), Some(mode), Some(DynamicTemplate), Rows(tmpl))]
  }

  /** Removal keeps exactly the entries with another id, and distributes over concatenation. */
  lemma {:induction false} WithoutProperties(gs: seq<CustomEntry>, gid: string)
    ensures forall g :: g in Without(gs, gid) <==> g in gs && g.id != Some(gid)
  {
    if |gs| > 0 {
      var init := gs[..|gs| - 1];
      WithoutProperties(init, gid);
      assert gs == init + [gs[|gs| - 1]];
    }
  }

  lemma {:induction false} WithoutAppend(a: seq<CustomEntry>, b: seq<CustomEntry>, gid: string)
    ensures Without(a + b, gid) == Without(a, gid) + Without(b, gid)
    decreases |b|
  {
    if |b| > 0 {
      var b0 := b[..|b| - 1];
      assert (a + b)[..|a + b| - 1] == a + b0;
      WithoutAppend(a, b0, gid);
    } else {
      assert a + b == a;
    }
  }

  /**
   * After an upsert the only entry with id `gid` is the new last one, it
   * holds the template's rows, and every other entry of the old list is kept.
   */
  lemma UpsertedProperties(gs: seq<CustomEntry>, gid: string, mode: string, tmpl: seq<Vec>)
    ensures var r := Upserted(gs, gid, mode, tmpl);
      |r| > 0
      && r[|r| - 1] == CustomEntry(Some(gid), Some(mode), Some(DynamicTemplate), Rows(tmpl))
      && (forall i :: 0 <= i < |r| - 1 ==> r[i].id != Some(gid))
      && (forall g :: g in gs && g.id != Some(gid) ==> g in r)
  {
    var r := Upserted(gs, gid, mode, tmpl);
    WithoutProperties(gs, gid);
    forall i | 0 <= i < |r| - 1
      ensures r[i].id != Some(gid)
    {
      assert r[i] in Without(gs, gid);
    }
  }

  /** 64 rows of two numbers: the template shape check of `match`. */
  predicate ShapeOk(t: seq<seq<real>>) {
    |t| == TemplatePoints && forall i :: 0 <= i < |t| ==> |t[i]| == 2
  }

  function Points(t: seq<seq<real>>): (pts: seq<Vec>)
    requires ShapeOk(t)
    ensures |pts| == |t|
  {
    seq(|t|, i requires 0 <= i < |t| => Vec(t[i][0], t[i][1]))
  }

  /** A stored template reads back as the points it was made from. */
  lemma RowsRoundTrip(pts: seq<Vec>)
    requires |pts| == TemplatePoints
    ensures ShapeOk(Rows(pts)) && Points(Rows(pts)) == pts
  {
    assert Points(Rows(pts)) == pts;
  }

  // ---------------------------------------------------------------------
  // match

  /** The entry competes in `match`: a template for `mode` or "both", of shape (64, 2). */
  predicate Candidate(g: CustomEntry, mode: string) {
    g.kind == Some(DynamicTemplate)
    && (g.mode == Some(mode) || g.mode == Some(BothModes))
    && ShapeOk(g.template)
  }

  function DistanceTo(norm: Norm, probe: seq<Vec>, g: CustomEntry): real
    requires ShapeOk(g.template)
  {
    TemplateDistance(norm, Some(probe), Some(Points(g.template)))
  }

  /** `(best_id, best_dist)` after scanning `gs`: a candidate replaces the best only when strictly nearer. */
  function Best(norm: Norm, probe: seq<Vec>, gs: seq<CustomEntry>, mode: string): (Option<string>, real) {
    if |gs| == 0 then (None, Sentinel)
    else
      var (id, d) := Best(norm, probe, gs[..|gs| - 1], mode);
      var g := gs[|gs| - 1];
      if Candidate(g, mode) && DistanceTo(norm, probe, g) < d then (g.id, DistanceTo(norm, probe, g))
      else (id, d)
  }

  /** Entry `i` is a candidate strictly nearer than every candidate before it. */
  predicate FirstNearest(norm: Norm, probe: seq<Vec>, gs: seq<CustomEntry>, mode: string, i: int) {
    0 <= i < |gs| && Candidate(gs[i], mode)
    && forall j :: 0 <= j < i && Candidate(gs[j], mode) ==>
      DistanceTo(norm, probe, gs[j]) > DistanceTo(norm, probe, gs[i])
  }

  /**
   * The best distance is at most the sentinel and at most every candidate's
   * distance; below the sentinel it is the distance of the first candidate
   * attaining it, whose id is the best id; at the sentinel no id was chosen.
   */
  lemma {:induction false} BestIsFirstMinimum(norm: Norm, probe: seq<Vec>, gs: seq<CustomEntry>, mode: string)
    ensures var (id, d) := Best(norm, probe, gs, mode);
      d <= Sentinel
      && (forall i :: 0 <= i < |gs| && Candidate(gs[i], mode) ==> d <= DistanceTo(norm, probe, gs[i]))
      && (d == Sentinel ==> id.None?)
    ensures var (id, d) := Best(norm, probe, gs, mode);
      d < Sentinel ==>
        exists i :: FirstNearest(norm, probe, gs, mode, i) && id == gs[i].id && d == DistanceTo(norm, probe, gs[i])
  {
    if |gs| > 0 {
      var init := gs[..|gs| - 1];
      var g := gs[|gs| - 1];
      BestIsFirstMinimum(norm, probe, init, mode);
      var (id0, d0) := Best(norm, probe, init, mode);
      forall i | 0 <= i < |init|
        ensures init[i] == gs[i]
      {
      }
      if Candidate(g, mode) && DistanceTo(norm, probe, g) < d0 {
        assert FirstNearest(norm, probe, gs, mode, |gs| - 1);
      } else if d0 < Sentinel {
        var i :| FirstNearest(norm, probe, init, mode, i) && id0 == init[i].id && d0 == DistanceTo(norm, probe, init[i]);
        assert FirstNearest(norm, probe, gs, mode, i);
      }
    }
  }

  /** Entry `i` is the first candidate at the smallest distance of all candidates. */
  predicate FirstMinimum(norm: Norm, probe: seq<Vec>, gs: seq<CustomEntry>, mode: string, i: int) {
    FirstNearest(norm, probe, gs, mode, i)
    && forall j :: 0 <= j < |gs| && Candidate(gs[j], mode) ==> DistanceTo(norm, probe, gs[i]) <= DistanceTo(norm, probe, gs[j])
  }

  /**
   * The scan settles on the first candidate at the smallest distance, unless
   * that distance does not beat the sentinel `1e9`; with no candidate it
   * keeps `(None, 1e9)`.
   */
  lemma BestOfFirstMinimum(norm: Norm, probe: seq<Vec>, gs: seq<CustomEntry>, mode: string, i: int)
    requires FirstMinimum(norm, probe, gs, mode, i)
    ensures var g := gs[i];
      Best(norm, probe, gs, mode) ==
        if DistanceTo(norm, probe, g) < Sentinel then (g.id, DistanceTo(norm, probe, g)) else (None, Sentinel)
  {
    BestIsFirstMinimum(norm, probe, gs, mode);
    var (id, d) := Best(norm, probe, gs, mode);
    if d < Sentinel {
      var k :| FirstNearest(norm, probe, gs, mode, k) && id == gs[k].id && d == DistanceTo(norm, probe, gs[k]);
      if k < i {
        assert false;
      } else if k > i {
        assert false;
      }
    }
  }

  /** The result of `match`. */
  function MatchResult(norm: Norm, sqrt: real -> real, gs: seq<CustomEntry>, mode: string,
                       raw: Option<seq<Vec>>, threshold: real): Option<(string, real)>
  {
    match Normalize(norm, sqrt, raw, TemplatePoints)
    case None => None
    case Some(probe) =>
      var (id, d) := Best(norm, probe, gs, mode);
      if id.Some? && d <= threshold then Some((id.value, d)) else None
  }

  /**
   * `match` answers `None` when normalisation fails; otherwise it answers
   * `(id, d)` only with `d` at most the threshold, `d` the smallest distance
   * over all candidates, and `id` the id of the first candidate at that distance.
   * Conversely, it answers the id and distance of the first nearest candidate
   * whenever that candidate has an id and its distance is within the
   * threshold and below the sentinel, and `None` when nothing competes.
   */
  lemma MatchProperties(norm: Norm, sqrt: real -> real, gs: seq<CustomEntry>, mode: string,
                        raw: Option<seq<Vec>>, threshold: real)
    ensures Normalize(norm, sqrt, raw, TemplatePoints).None? ==> MatchResult(norm, sqrt, gs, mode, raw, threshold).None?
    ensures var r := MatchResult(norm, sqrt, gs, mode, raw, threshold);
      r.Some? ==>
        var probe := Normalize(norm, sqrt, raw, TemplatePoints).value;
        r.value.1 <= threshold
        && (forall i :: 0 <= i < |gs| && Candidate(gs[i], mode) ==> r.value.1 <= DistanceTo(norm, probe, gs[i]))
        && exists i :: FirstNearest(norm, probe, gs, mode, i) && gs[i].id == Some(r.value.0)
             && r.value.1 == DistanceTo(norm, probe, gs[i])
    ensures var nr := Normalize(norm, sqrt, raw, TemplatePoints);
      nr.Some? ==> forall i :: FirstMinimum(norm, nr.value, gs, mode, i) ==>
        var d := DistanceTo(norm, nr.value, gs[i]);
        MatchResult(norm, sqrt, gs, mode, raw, threshold) ==
          if gs[i].id.Some? && d <= threshold && d < Sentinel then Some((gs[i].id.value, d)) else None
    ensures var nr := Normalize(norm, sqrt, raw, TemplatePoints);
      nr.Some? && (forall i :: 0 <= i < |gs| ==> !Candidate(gs[i], mode)) ==>
        MatchResult(norm, sqrt, gs, mode, raw, threshold).None?
  {
    var nr := Normalize(norm, sqrt, raw, TemplatePoints);
    if nr.Some? {
      BestIsFirstMinimum(norm, nr.value, gs, mode);
      forall i | FirstMinimum(norm, nr.value, gs, mode, i)
        ensures var d := DistanceTo(norm, nr.value, gs[i]);
          MatchResult(norm, sqrt, gs, mode, raw, threshold) ==
            if gs[i].id.Some? && d <= threshold && d < Sentinel then Some((gs[i].id.value, d)) else None
      {
        BestOfFirstMinimum(norm, nr.value, gs, mode, i);
      }
    }
  }

  // ---------------------------------------------------------------------
  // The manager

  class CustomGestureManager {
    /** The list stored under `custom_gestures`. */
    var gestures: seq<CustomEntry>

    /** The list is created empty when the key is missing; an existing list is kept. */
    constructor (existing: Option<seq<CustomEntry>>)
      ensures existing.None? ==> gestures == []
      ensures existing.Some? ==> gestures == existing.value
    {
      gestures := if existing.None? then [] else existing.value;
    }

    /** `list_ids`: the ids of the listed entries, falsy ones dropped, in list order. */
    method ListIds(mode: Option<string>) returns (ids: seq<string>)
      ensures ids == ListedIds(gestures, mode)
    {
      var out: seq<Option<string>> := [];
      var i := 0;
      while i < |gestures|
        invariant 0 <= i <= |gestures|
        invariant out == Collected(gestures[..i], mode)
      {
        var g := gestures[i];
        assert gestures[..i + 1][..i] == gestures[..i];
        if Listed(g, mode) {
          out := out + [g.id];
        }
        i := i + 1;
      }
      assert gestures[..i] == gestures;
      ids := KeepTruthy(out);
    }

    /**
     * `add_template`: normalise to 64 points; on failure answer false and
     * change nothing, otherwise replace every entry with id `gid` by one new
     * entry at the end.
     */
    method AddTemplate(norm: Norm, sqrt: real -> real, gid: string, mode: string, raw: Option<seq<Vec>>)
      returns (ok: bool)
      modifies this
      ensures ok <==> Normalize(norm, sqrt, raw, TemplatePoints).Some?
      ensures !ok ==> gestures == old(gestures)
      ensures ok ==> gestures == Upserted(old(gestures), gid, mode, Normalize(norm, sqrt, raw, TemplatePoints).value)
    {
      var normalized := Normalize(norm, sqrt, raw, TemplatePoints);
      if normalized.None? {
        return false;
      }
      var entry := CustomEntry(Some(gid), Some(mode), Some(DynamicTemplate), Rows(normalized.value));
      gestures := Without(gestures, gid);
      gestures := gestures + [entry];
      return true;
    }

    /** `match`: the scan for the strictly nearest candidate, then the threshold test. */
    method Match(norm: Norm, sqrt: real -> real, mode: string, raw: Option<seq<Vec>>, threshold: real)
      returns (r: Option<(string, real)>)
      ensures r == MatchResult(norm, sqrt, gestures, mode, raw, threshold)
    {
      var normalized := Normalize(norm, sqrt, raw, TemplatePoints);
      if normalized.None? {
        return None;
      }
      var probe := normalized.value;
      var bestId: Option<string> := None;
      var bestDist := Sentinel;
      var i := 0;
      while i < |gestures|
        invariant 0 <= i <= |gestures|
        invariant (bestId, bestDist) == Best(norm, probe, gestures[..i], mode)
      {
        var g := gestures[i];
        assert gestures[..i + 1][..i] == gestures[..i];
        if Candidate(g, mode) {
          var d := DistanceTo(norm, probe, g);
          if d < bestDist {
            bestDist := d;
            bestId := g.id;
          }
        }
        i := i + 1;
      }
      assert gestures[..i] == gestures;
      if bestId.Some? && bestDist <= threshold {
        return Some((bestId.value, bestDist));
      }
      return None;
    }
  }
}
