/**
 * The gesture engine as an object updated in place, one frame at a time.
 * Each step method changes exactly the fields the corresponding phase of
 * `EngineSpec` changes, so `UpdateBare` and `UpdateGlove` are proved equal
 * to `BareStep` and `GloveStep`, whose guarantees are the lemmas of
 * module EngineProperties.
 */
module GestureEngineModel {
  import opened Wrappers
  import opened Geometry
  import opened GesturePrimitives
  import opened DynamicTrack
  import opened ScrollState
  import opened SystemStateModel
  import opened EngineSpec

  class GestureEngine {
    const cfg: Config
    const norm: Norm
    const scroll: PinchScrollState
    const track: TrackWindow
    var stableLast: Option<string>
    var stableCount: int
    var cool: map<string, real>
    var unknownCount: int
    var pinchMiddleDown: bool
    var closeDown: bool
    var pinchMiddleHold: int
    var closeHold: int

    /** Value view of every field, including the window and the scroll anchor. */
    function Snapshot(): EngineState
      reads this, scroll, track
    {
      EngineState(stableLast, stableCount, cool, scroll.View(), Window(track.windowMs, track.pts),
                  unknownCount, pinchMiddleDown, closeDown, pinchMiddleHold, closeHold)
    }

    constructor (cfg: Config, norm: Norm)
      ensures this.cfg == cfg && this.norm == norm
      ensures Snapshot() == InitialState
      ensures fresh(scroll) && fresh(track)
    {
      this.cfg, this.norm := cfg, norm;
      stableLast, stableCount, cool := None, 0, map[];
      scroll := new PinchScrollState();
      track := new TrackWindow(450);
      unknownCount := 0;
      pinchMiddleDown, closeDown, pinchMiddleHold, closeHold := false, false, 0, 0;
    }

    // -------------------------------------------------------------------
    // Helpers

    /** `_cooldown_ok`: stamps `key` with `now` when its cooldown has elapsed. */
    method CooldownOk(key: string, cdMs: int, now: real) returns (ok: bool)
      modifies this
      ensures ok == CooldownReady(old(cool), key, cdMs, now)
      ensures Snapshot() == old(Snapshot()).(cool := if ok then old(cool)[key := now] else old(cool))
    {
      var last := if key in cool then cool[key] else 0.0;
      if now - last >= cdMs as real {
        cool := cool[key := now];
        return true;
      }
      return false;
    }

    /** `_stable_confirm`. */
    method StableConfirm(gid: Option<string>, need: int) returns (confirmed: Option<string>)
      modifies this
      ensures var c := Confirm(old(stableLast), old(stableCount), gid, need);
        confirmed == c.confirmed && Snapshot() == old(Snapshot()).(stableLast := c.last, stableCount := c.count)
    {
      if gid == stableLast {
        stableCount := stableCount + 1;
      } else {
        stableLast := gid;
        stableCount := 1;
      }
      confirmed := if Truthy(gid) && stableCount >= need then gid else None;
    }

    /** `_gesture_item`: scans the catalog for the first entry with id `gid`. */
    method ItemOf(gid: string) returns (r: Option<GestureItem>)
      ensures r == GestureItemOf(cfg.catalog, gid)
    {
      var i := 0;
      while i < |cfg.catalog|
        invariant 0 <= i <= |cfg.catalog|
        invariant GestureItemOf(cfg.catalog[i..], gid) == GestureItemOf(cfg.catalog, gid)
      {
        if cfg.catalog[i].id == Some(gid) {
          return Some(cfg.catalog[i]);
        }
        assert cfg.catalog[i..][1..] == cfg.catalog[i + 1..];
        i := i + 1;
      }
      return None;
    }

    /** `_param`. */
    method ParamOf(gid: string, key: string, default: int) returns (v: int)
      ensures v == Param(cfg.catalog, gid, key, default)
    {
      var it := ItemOf(gid);
      v := if it.Some? && key in it.value.params then it.value.params[key] else default;
    }

    /** `_enable_when_ok`: every condition naming a flag of `state` agrees with it. */
    method EnableWhenOk(gid: string, state: SystemState) returns (ok: bool)
      ensures ok == EnableOk(cfg.catalog, gid, state.View())
    {
      var it := ItemOf(gid);
      if it.None? {
        return true;
      }
      var cond := it.value.enableWhen;
      var i := 0;
      while i < |cond|
        invariant 0 <= i <= |cond|
        invariant ConditionsHold(cond[i..], state.View()) == ConditionsHold(cond, state.View())
      {
        var v := FlagNamed(state.View(), cond[i].0);
        if v.Some? && v.value != cond[i].1 {
          return false;
        }
        assert cond[i..][1..] == cond[i + 1..];
        i := i + 1;
      }
      return true;
    }

    /** `_gesture_item(gid) and _enable_when_ok(gid, state)`. */
    method Declared(gid: string, state: SystemState) returns (ok: bool)
      ensures ok == (HasItem(cfg.catalog, gid) && EnableOk(cfg.catalog, gid, state.View()))
    {
      var it := ItemOf(gid);
      if it.None? {
        return false;
      }
      ok := EnableWhenOk(gid, state);
    }

    /** `_mouse_mode_gesture_id`. */
    method MouseModeId() returns (r: Option<string>)
      ensures r == MouseModeGestureId(cfg.catalog)
    {
      var i := 0;
      while i < |cfg.catalog|
        invariant 0 <= i <= |cfg.catalog|
        invariant MouseModeGestureId(cfg.catalog[i..]) == MouseModeGestureId(cfg.catalog)
      {
        if cfg.catalog[i].defaultUse == Some(MouseMoveModeUse) {
          return cfg.catalog[i].id;
        }
        assert cfg.catalog[i..][1..] == cfg.catalog[i + 1..];
        i := i + 1;
      }
      return Some(VSign);
    }

    // -------------------------------------------------------------------
    // Phases of a bare-hand frame

    method ScrollStep(fr: Frame, state: SystemState) returns (done: bool, out: Output)
      requires fr.flags == state.View()
      modifies this, scroll
      ensures var p := ScrollPhase(cfg, fr, old(Snapshot()));
        done == p.Done? && Snapshot() == p.s && (done ==> out == p.out)
    {
      done, out := false, Nothing;
      var on := Declared(PinchScroll, state);
      if on {
        if fr.pinchIndex {
          if !scroll.active {
            scroll.Start(fr.tip.x, fr.tip.y);
          }
          var d := scroll.Delta(fr.tip.x, fr.tip.y);
          var g := cfg.general;
          var v := ScrollAmount(d, g.scrollGain, g.scrollDeadzone, g.scrollMaxStep);
          return true, Output(None, fr.raw, Some(v));
        } else {
          scroll.Stop();
        }
      }
    }

    method RightClickStep(fr: Frame, state: SystemState) returns (done: bool, out: Output)
      requires fr.flags == state.View()
      modifies this
      ensures var p := RightClickPhase(cfg, fr, old(Snapshot()));
        done == p.Done? && Snapshot() == p.s && (done ==> out == p.out)
    {
      done, out := false, Nothing;
      var on := Declared(PinchRightClick, state);
      if on {
        if fr.pinchMiddle {
          pinchMiddleHold := pinchMiddleHold + 1;
          if pinchMiddleHold >= cfg.general.clickHoldFrames {
            if !pinchMiddleDown {
              var cd := ParamOf(PinchRightClick, "cooldown_ms", 500);
              var ok := CooldownOk(PinchRightClick, cd, fr.now);
              if ok {
                pinchMiddleDown := true;
                return true, Output(Some(PinchRightClick), fr.raw, None);
              }
            }
            pinchMiddleDown := true;
          }
        } else {
          pinchMiddleDown, pinchMiddleHold := false, 0;
        }
      } else {
        pinchMiddleDown, pinchMiddleHold := false, 0;
      }
    }

    method DoubleClickStep(fr: Frame, state: SystemState) returns (done: bool, out: Output)
      requires fr.flags == state.View()
      modifies this
      ensures var p := DoubleClickPhase(cfg, fr, old(Snapshot()));
        done == p.Done? && Snapshot() == p.s && (done ==> out == p.out)
    {
      done, out := false, Nothing;
      var on := Declared(DoubleClick, state);
      if on {
        if fr.isClose {
          closeHold := closeHold + 1;
          if closeHold >= cfg.general.clickHoldFrames {
            if !closeDown {
              var cd := ParamOf(DoubleClick, "cooldown_ms", 700);
              var ok := CooldownOk(DoubleClick, cd, fr.now);
              if ok {
                closeDown := true;
                return true, Output(Some(DoubleClick), fr.raw, None);
              }
            }
            closeDown := true;
          }
        } else {
          closeDown, closeHold := false, 0;
        }
      } else {
        closeDown, closeHold := false, 0;
      }
    }

    method CompositeStep(fr: Frame, state: SystemState) returns (done: bool, out: Output)
      requires fr.flags == state.View()
      modifies this, scroll
      ensures var p := CompositePhase(cfg, fr, old(Snapshot()));
        done == p.Done? && Snapshot() == p.s && (done ==> out == p.out)
    {
      if fr.pinchIndex && fr.pinchMiddle {
        scroll.Stop();
        pinchMiddleDown, closeDown := true, true;
        pinchMiddleHold, closeHold := 0, 0;
        return false, Nothing;
      }
      done, out := ScrollStep(fr, state);
      if done {
        return;
      }
      if fr.clickAllowed {
        done, out := RightClickStep(fr, state);
        if done {
          return;
        }
        done, out := DoubleClickStep(fr, state);
      } else {
        pinchMiddleDown, closeDown := false, false;
        pinchMiddleHold, closeHold := 0, 0;
      }
    }

    method StaticStep(fr: Frame, state: SystemState) returns (done: bool, out: Output)
      requires fr.flags == state.View()
      modifies this
      ensures var p := StaticPhase(cfg, fr, old(Snapshot()));
        done == p.Done? && Snapshot() == p.s && (done ==> out == p.out)
    {
      done, out := false, Nothing;
      if Truthy(fr.confirmed) {
        var c := fr.confirmed.value;
        var on := Declared(c, state);
        if on {
          var cd := ParamOf(c, "cooldown_ms", cfg.general.cooldownMs);
          var ok := CooldownOk(c, cd, fr.now);
          if ok {
            return true, Output(Some(c), fr.raw, None);
          }
        }
      }
    }

    method TrySwipeStep(state: SystemState, raw: Option<string>, now: real, gid: string)
      returns (done: bool, out: Output)
      modifies this, track
      ensures var p := TrySwipe(cfg, old(state.View()), raw, now, gid, old(Snapshot()));
        done == p.Done? && Snapshot() == p.s && (done ==> out == p.out)
    {
      done, out := false, Nothing;
      var on := Declared(gid, state);
      if on {
        var ok := CooldownOk(gid, cfg.general.cooldownMs, now);
        if ok {
          track.Reset();
          return true, Output(Some(gid), raw, None);
        }
      }
    }

    /** Swipe detection over the window's net displacement, shared by both update paths. */
    method SwipeStep(state: SystemState, raw: Option<string>, now: real) returns (done: bool, out: Output)
      modifies this, track
      ensures var p := SwipePhase(cfg, old(state.View()), raw, now, old(Snapshot()));
        done == p.Done? && Snapshot() == p.s && (done ==> out == p.out)
    {
      var d := track.Delta();
      var th := cfg.general.swipeThresh;
      done, out := false, Nothing;
      if Abs(d.x) > Abs(d.y) && Abs(d.x) > th {
        done, out := TrySwipeStep(state, raw, now, if d.x > 0.0 then SwipeRight else SwipeLeft);
        if done {
          return;
        }
      }
      if Abs(d.y) > Abs(d.x) && Abs(d.y) > th {
        done, out := TrySwipeStep(state, raw, now, if d.y > 0.0 then SwipeDown else SwipeUp);
      }
    }

    method UnknownStep(fr: Frame, state: SystemState) returns (done: bool, out: Output)
      requires fr.flags == state.View()
      modifies this
      ensures var p := UnknownPhase(cfg, fr, old(Snapshot()));
        done == p.Done? && Snapshot() == p.s && (done ==> out == p.out)
    {
      done, out := false, Nothing;
      var on := false;
      if fr.raw.None? {
        on := Declared(Unknown, state);
      }
      if on {
        unknownCount := unknownCount + 1;
        var need := ParamOf(Unknown, "stable_frames", 3);
        if unknownCount >= need {
          var cd := ParamOf(Unknown, "cooldown_ms", 800);
          var ok := CooldownOk(Unknown, cd, fr.now);
          if ok {
            unknownCount := 0;
            return true, Output(Some(Unknown), fr.raw, None);
          }
        }
      } else {
        unknownCount := 0;
      }
    }

    method TailStep(fr: Frame, state: SystemState) returns (out: Output)
      requires fr.flags == state.View()
      modifies this, track
      ensures var p := TailPhase(cfg, fr, old(Snapshot()));
        Snapshot() == p.s && out == p.out
    {
      var done;
      done, out := StaticStep(fr, state);
      if done {
        return;
      }
      done, out := SwipeStep(state, fr.raw, fr.now);
      if done {
        return;
      }
      done, out := UnknownStep(fr, state);
      if !done {
        out := Output(None, fr.raw, None);
      }
    }

    // -------------------------------------------------------------------
    // Frames

    /** The window, debounce and mouse-move-mode part of a frame with a hand. */
    method ObserveStep(l: Landmarks, state: SystemState, now: real) returns (fr: Frame)
      modifies this, track, state
      ensures var o := Observe(cfg, norm, old(Snapshot()), old(state.View()), l, now);
        Snapshot() == o.s && fr == o.fr && state.View() == o.fr.flags
    {
      var g := cfg.general;
      track.Add(now, l[IndexTip].x, l[IndexTip].y);
      var raw := ClassifyStatic(norm, Some(l), g.pinchThr, g.closeThr);
      var confirmed := StableConfirm(raw, g.stableFrames);
      var mm := MouseModeId();
      state.mouseMoveMode := confirmed == mm;
      fr := MakeFrame(cfg, norm, l, track.pts, raw, confirmed, state.View(), now);
    }

    /** The composite phases, then the tail phases. */
    method RecogniseStep(fr: Frame, state: SystemState) returns (out: Output)
      requires fr.flags == state.View()
      modifies this, scroll, track
      ensures var p := Recognise(cfg, fr, old(Snapshot()));
        Snapshot() == p.s && out == p.out
    {
      var done;
      done, out := CompositeStep(fr, state);
      if !done {
        out := TailStep(fr, state);
      }
    }

    /** `update_bare`, with the clock reading passed in as `now`. */
    method UpdateBare(lm: Option<Landmarks>, state: SystemState, now: real) returns (out: Output)
      modifies this, scroll, track, state
      ensures var st := BareStep(cfg, norm, old(Snapshot()), old(state.View()), lm, now);
        Snapshot() == st.s && state.View() == st.flags && out == st.out
    {
      track.SetWindow(cfg.general.dynamicWindowMs);
      if lm.None? {
        scroll.Stop();
        track.Reset();
        unknownCount := 0;
        pinchMiddleDown, closeDown := false, false;
        pinchMiddleHold, closeHold := 0, 0;
        return Nothing;
      }
      out := HandStep(lm.value, state, now);
    }

    /** The part of `update` after a hand was found. */
    method HandStep(l: Landmarks, state: SystemState, now: real) returns (out: Output)
      modifies this, scroll, track, state
      ensures var st := HandSeen(cfg, norm, old(Snapshot()), old(state.View()), l, now);
        Snapshot() == st.s && state.View() == st.flags && out == st.out
    {
      var fr := ObserveStep(l, state, now);
      if !state.recognitionEnabled {
        scroll.Stop();
        unknownCount := 0;
        return Output(None, fr.raw, None);
      }
      out := RecogniseStep(fr, state);
    }

    /** `update_glove`, with the clock reading passed in as `now`. */
    method UpdateGlove(feats: Option<Blob>, state: SystemState, now: real) returns (out: Output)
      modifies this, scroll, track, state
      ensures var st := GloveStep(cfg, old(Snapshot()), old(state.View()), feats, now);
        Snapshot() == st.s && state.View() == st.flags && out == st.out
    {
      track.SetWindow(cfg.general.dynamicWindowMs);
      if feats.None? || feats.value.center.None? {
        scroll.Stop();
        track.Reset();
        return Nothing;
      }
      out := GloveTrack(feats.value.center.value, |feats.value.fingertips| >= 2, state, now);
    }

    /** The part of `update_glove` after a centre was found. */
    method GloveTrack(c: Vec, twoTips: bool, state: SystemState, now: real) returns (out: Output)
      modifies this, scroll, track, state
      ensures var st := GloveTracked(cfg, old(Snapshot()), old(state.View()), c, twoTips, now);
        Snapshot() == st.s && state.View() == st.flags && out == st.out
    {
      track.Add(now, c.x, c.y);
      state.mouseMoveMode := twoTips;
      if !state.recognitionEnabled {
        scroll.Stop();
        return Output(None, Some(GloveTracking), None);
      }
      var done;
      done, out := SwipeStep(state, Some(GloveTracking), now);
      if !done {
        out := Output(None, Some(GloveTracking), None);
      }
    }
  }
}
