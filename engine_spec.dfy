/**
 * The per-frame behaviour of the gesture engine as pure functions over a
 * value view of its state. The class in module GestureEngineModel performs
 * the same steps in place and is proved equal to `BareStep` and `GloveStep`;
 * the lemmas at the end of this module state what one frame guarantees.
 */
module EngineSpec {
  import opened Wrappers
  import opened Geometry
  import opened GesturePrimitives
  import opened DynamicTrack
  import opened ScrollState
  import opened SystemStateModel

  // ---------------------------------------------------------------------
  // Configuration

  /** One gesture catalog entry, as far as the engine reads it. */
  datatype GestureItem = GestureItem(
    id: Option<string>,
    defaultUse: Option<string>,
    enableWhen: seq<(string, bool)>,
    params: map<string, int>)

  /** The `general` settings the engine reads, each already defaulted. */
  datatype Settings = Settings(
    dynamicWindowMs: int,
    pinchThr: real,
    closeThr: real,
    stableFrames: int,
    cooldownMs: int,
    swipeThresh: real,
    clickGuardMovePx: real,
    clickHoldFrames: int,
    clickMaxSpeed: real,
    scrollGain: real,
    scrollDeadzone: real,
    scrollMaxStep: real)

  /** The value each setting takes when `general` does not name it. */
  const DefaultSettings := Settings(
    450, 0.33, 0.22, 2, 450, 80.0, 35.0, 2, 650.0, 1.6, 6.0, 120.0)

  datatype Config = Config(general: Settings, catalog: seq<GestureItem>)

  // Event ids the engine emits besides static pose labels.
  const PinchScroll := "PINCH_SCROLL"
  const PinchRightClick := "PINCH_RIGHT_CLICK"
  const DoubleClick := "INDEX_MIDDLE_DOUBLE_CLICK"
  const SwipeLeft := "SWIPE_LEFT"
  const SwipeRight := "SWIPE_RIGHT"
  const SwipeUp := "SWIPE_UP"
  const SwipeDown := "SWIPE_DOWN"
  const Unknown := "UNKNOWN"
  const GloveTracking := "GLOVE_TRACKING"
  const MouseMoveModeUse := "mouse_move_mode"

  const Swipes: set<string> := {SwipeLeft, SwipeRight, SwipeUp, SwipeDown}

  // ---------------------------------------------------------------------
  // Engine state, frames and outputs

  /** Value view of a `TrackWindow`. */
  datatype Window = Window(windowMs: int, pts: seq<Sample>)

  /** Value view of every field of the engine. */
  datatype EngineState = EngineState(
    stableLast: Option<string>,
    stableCount: int,
    cool: map<string, real>,
    scroll: Anchor,
    track: Window,
    unknownCount: int,
    pinchMiddleDown: bool,
    closeDown: bool,
    pinchMiddleHold: int,
    closeHold: int)

  datatype ScrollVec = ScrollVec(sv: int, sh: int)

  /** `(event, raw static label, scroll vector)`. */
  datatype Output = Output(event: Option<string>, raw: Option<string>, scroll: Option<ScrollVec>)

  const Nothing := Output(None, None, None)

  /** A fresh engine: no streak, no cooldowns, scroll inactive, an empty 450 ms window. */
  const InitialState := EngineState(None, 0, map[], Fresh, Window(450, []), 0, false, false, 0, 0)

  /** Glove features: optional blob centre and the detected fingertips. */
  datatype Blob = Blob(center: Option<Vec>, fingertips: seq<Vec>)

  /** New engine state, new system flags and the frame's output. */
  datatype Step = Step(s: EngineState, flags: Flags, out: Output)

  /** A phase either ends the frame with an output or hands the state on. */
  datatype Phase = Done(s: EngineState, out: Output) | Next(s: EngineState)

  /** Everything the composite and tail phases read about the current frame. */
  datatype Frame = Frame(
    raw: Option<string>,
    confirmed: Option<string>,
    flags: Flags,
    now: real,
    tip: Vec,
    pinchIndex: bool,
    pinchMiddle: bool,
    isClose: bool,
    clickAllowed: bool)

  predicate Truthy(s: Option<string>) { s.Some? && s.value != "" }

  // ---------------------------------------------------------------------
  // Catalog lookups

  /** `i` is the position of the first catalog entry whose id is `gid`. */
  predicate FirstWithId(catalog: seq<GestureItem>, gid: string, i: int) {
    0 <= i < |catalog| && catalog[i].id == Some(gid)
    && forall j :: 0 <= j < i ==> catalog[j].id != Some(gid)
  }

  /** `_gesture_item`: the first catalog entry whose id is `gid`. */
  function GestureItemOf(catalog: seq<GestureItem>, gid: string): (r: Option<GestureItem>)
    ensures r.None? <==> forall i :: 0 <= i < |catalog| ==> catalog[i].id != Some(gid)
    ensures r.Some? ==> exists i :: FirstWithId(catalog, gid, i) && catalog[i] == r.value
  {
    if |catalog| == 0 then None
    else if catalog[0].id == Some(gid) then
      assert FirstWithId(catalog, gid, 0);
      Some(catalog[0])
    else
      var r := GestureItemOf(catalog[1..], gid);
      assert r.Some? ==> exists i :: FirstWithId(catalog, gid, i) && catalog[i] == r.value by {
        if r.Some? {
          var i :| FirstWithId(catalog[1..], gid, i) && catalog[1..][i] == r.value;
          assert FirstWithId(catalog, gid, i + 1) by {
            forall j | 0 <= j < i + 1 ensures catalog[j].id != Some(gid) {
              if j > 0 { assert catalog[j] == catalog[1..][j - 1]; }
            }
          }
        }
      }
      r
  }

  predicate HasItem(catalog: seq<GestureItem>, gid: string) {
    GestureItemOf(catalog, gid).Some?
  }

  /** `_param`: the entry's own parameter, else the caller's default. */
  function Param(catalog: seq<GestureItem>, gid: string, key: string, default: int): int {
    match GestureItemOf(catalog, gid)
    case Some(it) => if key in it.params then it.params[key] else default
    case None => default
  }

  /** Every `enable_when` condition that names a state flag agrees with that flag. */
  function ConditionsHold(cond: seq<(string, bool)>, flags: Flags): (ok: bool)
    ensures ok <==> forall i :: 0 <= i < |cond| ==>
      FlagNamed(flags, cond[i].0).None? || FlagNamed(flags, cond[i].0).value == cond[i].1
  {
    if |cond| == 0 then true
    else
      var v := FlagNamed(flags, cond[0].0);
      if v.Some? && v.value != cond[0].1 then false
      else
        var rest := ConditionsHold(cond[1..], flags);
        assert forall i :: 1 <= i < |cond| ==> cond[i] == cond[1..][i - 1];
        rest
  }

  /** `_enable_when_ok`: an id without a catalog entry has no conditions. */
  function EnableOk(catalog: seq<GestureItem>, gid: string, flags: Flags): bool {
    match GestureItemOf(catalog, gid)
    case Some(it) => ConditionsHold(it.enableWhen, flags)
    case None => true
  }

  /** `i` is the position of the first catalog entry used for mouse-move mode. */
  predicate FirstMouseMode(catalog: seq<GestureItem>, i: int) {
    0 <= i < |catalog| && catalog[i].defaultUse == Some(MouseMoveModeUse)
    && forall j :: 0 <= j < i ==> catalog[j].defaultUse != Some(MouseMoveModeUse)
  }

  /** `_mouse_mode_gesture_id`: the id of the first entry used for mouse-move mode. */
  function MouseModeGestureId(catalog: seq<GestureItem>): (r: Option<string>)
    ensures (forall i :: 0 <= i < |catalog| ==> catalog[i].defaultUse != Some(MouseMoveModeUse))
      ==> r == Some(VSign)
    ensures (exists i :: 0 <= i < |catalog| && catalog[i].defaultUse == Some(MouseMoveModeUse))
      ==> exists i :: FirstMouseMode(catalog, i) && r == catalog[i].id
  {
    if |catalog| == 0 then Some(VSign)
    else if catalog[0].defaultUse == Some(MouseMoveModeUse) then
      assert FirstMouseMode(catalog, 0);
      catalog[0].id
    else
      var r := MouseModeGestureId(catalog[1..]);
      assert forall i :: 1 <= i < |catalog| ==> catalog[i] == catalog[1..][i - 1];
      assert (exists i :: 0 <= i < |catalog| && catalog[i].defaultUse == Some(MouseMoveModeUse))
        ==> exists i :: FirstMouseMode(catalog, i) && r == catalog[i].id by {
        if exists i :: 0 <= i < |catalog| && catalog[i].defaultUse == Some(MouseMoveModeUse) {
          var k :| 0 <= k < |catalog| && catalog[k].defaultUse == Some(MouseMoveModeUse);
          assert catalog[1..][k - 1].defaultUse == Some(MouseMoveModeUse);
          var i :| FirstMouseMode(catalog[1..], i) && r == catalog[1..][i].id;
          assert FirstMouseMode(catalog, i + 1);
        }
      }
      r
  }

  // ---------------------------------------------------------------------
  // Cooldown and debounce

  /** Last firing time of `key`; a key never fired counts as fired at time 0. */
  function LastFire(cool: map<string, real>, key: string): real {
    if key in cool then cool[key] else 0.0
  }

  predicate CooldownReady(cool: map<string, real>, key: string, cdMs: int, now: real) {
    now - LastFire(cool, key) >= cdMs as real
  }

  /** Debounce state after one raw label, and the label it confirms. */
  datatype Confirmation = Confirmation(last: Option<string>, count: int, confirmed: Option<string>)

  /** `_stable_confirm`. */
  function Confirm(last: Option<string>, count: int, gid: Option<string>, need: int): (c: Confirmation)
    ensures c.last == gid
    ensures c.count == if gid == last then count + 1 else 1
    ensures c.confirmed.Some? <==> Truthy(gid) && c.count >= need
    ensures c.confirmed.Some? ==> c.confirmed == gid
  {
    var n := if gid == last then count + 1 else 1;
    Confirmation(gid, n, if Truthy(gid) && n >= need then gid else None)
  }

  // ---------------------------------------------------------------------
  // Gating signals and proportional scroll

  /** Straight-line speed between the oldest and newest sample, in px/s. */
  function AvgSpeed(norm: Norm, pts: seq<Sample>): (v: real)
    ensures v >= 0.0
    ensures |pts| < 6 ==> v == 0.0
  {
    if |pts| < 6 then 0.0
    else
      var dt := (pts[|pts| - 1].t - pts[0].t) / 1000.0;
      if dt <= 0.000001 then 0.0
      else Dist(norm, pts[|pts| - 1].p, pts[0].p) / dt
  }

  function Min(a: real, b: real): real { if a <= b then a else b }
  function Max(a: real, b: real): real { if a >= b then a else b }

  /** Python's `int()` of a real: truncation toward zero, losing less than one. */
  function Trunc(r: real): (t: int)
    ensures r >= 0.0 ==> 0 <= t && t as real <= r < t as real + 1.0
    ensures r < 0.0 ==> t <= 0 && t as real - 1.0 < r <= t as real
  {
    if r >= 0.0 then r.Floor else -((-r).Floor)
  }

  /**
   * One scroll component: zero inside the deadzone of `d`, otherwise the
   * truncated value `v` clamped to `[-maxStep, maxStep]`.
   */
  function ScrollComponent(d: real, v: real, dead: real, maxStep: real): int {
    if Abs(d) >= dead then Trunc(Max(-maxStep, Min(maxStep, v))) else 0
  }

  /** `sv` follows `-dy * gain` and `sh` follows `dx * gain`. */
  function ScrollAmount(d: Vec, gain: real, dead: real, maxStep: real): ScrollVec {
    ScrollVec(ScrollComponent(d.y, -(d.y * gain), dead, maxStep),
              ScrollComponent(d.x, d.x * gain, dead, maxStep))
  }

  /**
   * A component is bounded by the maximum step, zero inside the deadzone,
   * has the sign of `v`, and beyond the deadzone is non-zero once `v` and
   * the maximum step reach one.
   */
  lemma ScrollComponentBounded(d: real, v: real, dead: real, maxStep: real)
    requires maxStep >= 0.0
    ensures Abs(ScrollComponent(d, v, dead, maxStep) as real) <= maxStep
    ensures Abs(d) < dead ==> ScrollComponent(d, v, dead, maxStep) == 0
    ensures v >= 0.0 ==> ScrollComponent(d, v, dead, maxStep) >= 0
    ensures v <= 0.0 ==> ScrollComponent(d, v, dead, maxStep) <= 0
    ensures Abs(d) >= dead && Abs(v) >= 1.0 && maxStep >= 1.0 ==> ScrollComponent(d, v, dead, maxStep) != 0
  {
  }

  /** Past the deadzone, a positive `v` of at least one step gives between 1 and `maxStep` steps. */
  lemma ScrollComponentPositive(d: real, v: real, dead: real, maxStep: real)
    requires Abs(d) >= dead && v >= 1.0 && maxStep >= 1.0
    ensures 0 < ScrollComponent(d, v, dead, maxStep) && ScrollComponent(d, v, dead, maxStep) as real <= maxStep
  {
    ScrollComponentBounded(d, v, dead, maxStep);
  }

  /** The scroll vector is bounded by `maxStep` and vanishes inside the deadzone. */
  lemma ScrollVertical(d: Vec, gain: real, dead: real, maxStep: real)
    requires maxStep >= 0.0
    ensures var c := ScrollAmount(d, gain, dead, maxStep).sv;
      Abs(c as real) <= maxStep && (Abs(d.y) < dead ==> c == 0)
  {
    ScrollComponentBounded(d.y, -(d.y * gain), dead, maxStep);
  }

  lemma ScrollHorizontal(d: Vec, gain: real, dead: real, maxStep: real)
    requires maxStep >= 0.0
    ensures var c := ScrollAmount(d, gain, dead, maxStep).sh;
      Abs(c as real) <= maxStep && (Abs(d.x) < dead ==> c == 0)
  {
    ScrollComponentBounded(d.x, d.x * gain, dead, maxStep);
  }

  /** `sv` moves against the finger's vertical motion: a finger moving down (image `y` growing) never scrolls up. */
  lemma ScrollVerticalDownward(d: Vec, gain: real, dead: real, maxStep: real)
    requires maxStep >= 0.0 && gain >= 0.0
    ensures d.y >= 0.0 ==> ScrollAmount(d, gain, dead, maxStep).sv <= 0
  {
    ProductSign(d.y, gain);
    ScrollComponentBounded(d.y, -(d.y * gain), dead, maxStep);
  }

  /** A finger moving up never scrolls down. */
  lemma ScrollVerticalUpward(d: Vec, gain: real, dead: real, maxStep: real)
    requires maxStep >= 0.0 && gain >= 0.0
    ensures d.y <= 0.0 ==> ScrollAmount(d, gain, dead, maxStep).sv >= 0
  {
    ProductSign(d.y, gain);
    ScrollComponentBounded(d.y, -(d.y * gain), dead, maxStep);
  }

  /** A finger risen beyond the deadzone, far enough for one step, scrolls up by at most the maximum step. */
  lemma ScrollUpward(d: Vec, gain: real, dead: real, maxStep: real)
    requires d.y < 0.0 && -d.y >= dead && -(d.y * gain) >= 1.0 && maxStep >= 1.0
    ensures 0 < ScrollAmount(d, gain, dead, maxStep).sv
    ensures ScrollAmount(d, gain, dead, maxStep).sv as real <= maxStep
  {
    ScrollComponentPositive(d.y, -(d.y * gain), dead, maxStep);
  }

  /** `sh` moves with the finger's horizontal motion. */
  lemma ScrollHorizontalDirection(d: Vec, gain: real, dead: real, maxStep: real)
    requires maxStep >= 0.0 && gain >= 0.0
    ensures d.x >= 0.0 ==> ScrollAmount(d, gain, dead, maxStep).sh >= 0
    ensures d.x <= 0.0 ==> ScrollAmount(d, gain, dead, maxStep).sh <= 0
  {
    var v := d.x * gain;
    ProductSign(d.x, gain);
    ScrollComponentBounded(d.x, v, dead, maxStep);
    if d.x >= 0.0 {
      assert v >= 0.0;
    }
    if d.x <= 0.0 {
      assert v <= 0.0;
    }
  }

  lemma ProductSign(a: real, k: real)
    requires k >= 0.0
    ensures a >= 0.0 ==> a * k >= 0.0
    ensures a <= 0.0 ==> a * k <= 0.0
  {
  }

  // ---------------------------------------------------------------------
  // Phases of one bare-hand frame

  /** "No hand": scroll stopped, window emptied, streak, edges and holds cleared. */
  function NoHand(s: EngineState): EngineState {
    s.(scroll := Stopped(s.scroll), track := s.track.(pts := []), unknownCount := 0,
       pinchMiddleDown := false, closeDown := false, pinchMiddleHold := 0, closeHold := 0)
  }

  function MakeFrame(cfg: Config, norm: Norm, lm: Landmarks, pts: seq<Sample>,
                     raw: Option<string>, confirmed: Option<string>, flags: Flags, now: real): Frame
  {
    var g := cfg.general;
    var moving := WindowLength(norm, pts) > g.clickGuardMovePx;
    var slowEnough := AvgSpeed(norm, pts) <= g.clickMaxSpeed;
    Frame(raw, confirmed, flags, now, lm[IndexTip],
          PinchRatio(norm, lm, ThumbTip, IndexTip) < g.pinchThr,
          PinchRatio(norm, lm, ThumbTip, MiddleTip) < g.pinchThr,
          CloseRatio(norm, lm, IndexTip, MiddleTip) < g.closeThr,
          !moving && slowEnough)
  }

  /** Proportional pinch-scroll, measured from the anchor set on pinch entry. */
  function ScrollPhase(cfg: Config, fr: Frame, s: EngineState): Phase {
    if HasItem(cfg.catalog, PinchScroll) && EnableOk(cfg.catalog, PinchScroll, fr.flags) then
      if fr.pinchIndex then
        var a := if s.scroll.active then s.scroll else StartAt(fr.tip.x, fr.tip.y);
        var g := cfg.general;
        Done(s.(scroll := a),
             Output(None, fr.raw, Some(ScrollAmount(AnchorDelta(a, fr.tip.x, fr.tip.y),
                                                    g.scrollGain, g.scrollDeadzone, g.scrollMaxStep))))
      else Next(s.(scroll := Stopped(s.scroll)))
    else Next(s)
  }

  /** Thumb-middle pinch held for enough frames fires a right click once per press. */
  function RightClickPhase(cfg: Config, fr: Frame, s: EngineState): Phase {
    if HasItem(cfg.catalog, PinchRightClick) && EnableOk(cfg.catalog, PinchRightClick, fr.flags) then
      if fr.pinchMiddle then
        var hold := s.pinchMiddleHold + 1;
        if hold >= cfg.general.clickHoldFrames then
          if !s.pinchMiddleDown
             && CooldownReady(s.cool, PinchRightClick,
                              Param(cfg.catalog, PinchRightClick, "cooldown_ms", 500), fr.now)
          then
            Done(s.(pinchMiddleHold := hold, pinchMiddleDown := true,
                    cool := s.cool[PinchRightClick := fr.now]),
                 Output(Some(PinchRightClick), fr.raw, None))
          else Next(s.(pinchMiddleHold := hold, pinchMiddleDown := true))
        else Next(s.(pinchMiddleHold := hold))
      else Next(s.(pinchMiddleDown := false, pinchMiddleHold := 0))
    else Next(s.(pinchMiddleDown := false, pinchMiddleHold := 0))
  }

  /** Index and middle tips held close for enough frames fire a double click once. */
  function DoubleClickPhase(cfg: Config, fr: Frame, s: EngineState): Phase {
    if HasItem(cfg.catalog, DoubleClick) && EnableOk(cfg.catalog, DoubleClick, fr.flags) then
      if fr.isClose then
        var hold := s.closeHold + 1;
        if hold >= cfg.general.clickHoldFrames then
          if !s.closeDown
             && CooldownReady(s.cool, DoubleClick,
                              Param(cfg.catalog, DoubleClick, "cooldown_ms", 700), fr.now)
          then
            Done(s.(closeHold := hold, closeDown := true, cool := s.cool[DoubleClick := fr.now]),
                 Output(Some(DoubleClick), fr.raw, None))
          else Next(s.(closeHold := hold, closeDown := true))
        else Next(s.(closeHold := hold))
      else Next(s.(closeDown := false, closeHold := 0))
    else Next(s.(closeDown := false, closeHold := 0))
  }

  function ResetClicks(s: EngineState): EngineState {
    s.(pinchMiddleDown := false, closeDown := false, pinchMiddleHold := 0, closeHold := 0)
  }

  function ClickPhase(cfg: Config, fr: Frame, s: EngineState): Phase {
    if fr.clickAllowed then
      match RightClickPhase(cfg, fr, s)
      case Done(s1, out) => Done(s1, out)
      case Next(s1) => DoubleClickPhase(cfg, fr, s1)
    else Next(ResetClicks(s))
  }

  function ThreePinchHold(s: EngineState): EngineState {
    s.(scroll := Stopped(s.scroll), pinchMiddleDown := true, closeDown := true,
       pinchMiddleHold := 0, closeHold := 0)
  }

  /** Three-finger override, else pinch-scroll, else the click composites. */
  function CompositePhase(cfg: Config, fr: Frame, s: EngineState): Phase {
    if fr.pinchIndex && fr.pinchMiddle then Next(ThreePinchHold(s))
    else
      match ScrollPhase(cfg, fr, s)
      case Done(s1, out) => Done(s1, out)
      case Next(s1) => ClickPhase(cfg, fr, s1)
  }

  /** The confirmed static label fires when declared, enabled and out of cooldown. */
  function StaticPhase(cfg: Config, fr: Frame, s: EngineState): Phase {
    if Truthy(fr.confirmed) && HasItem(cfg.catalog, fr.confirmed.value)
       && EnableOk(cfg.catalog, fr.confirmed.value, fr.flags)
    then
      var c := fr.confirmed.value;
      if CooldownReady(s.cool, c, Param(cfg.catalog, c, "cooldown_ms", cfg.general.cooldownMs), fr.now)
      then Done(s.(cool := s.cool[c := fr.now]), Output(Some(c), fr.raw, None))
      else Next(s)
    else Next(s)
  }

  /** A swipe id fires when declared, enabled and out of cooldown; firing empties the window. */
  function TrySwipe(cfg: Config, flags: Flags, raw: Option<string>, now: real, gid: string,
                    s: EngineState): Phase
  {
    if HasItem(cfg.catalog, gid) && EnableOk(cfg.catalog, gid, flags)
       && CooldownReady(s.cool, gid, cfg.general.cooldownMs, now)
    then Done(s.(cool := s.cool[gid := now], track := s.track.(pts := [])), Output(Some(gid), raw, None))
    else Next(s)
  }

  /** Swipe detection over the window's net displacement, with a strictly dominant axis. */
  function SwipePhase(cfg: Config, flags: Flags, raw: Option<string>, now: real, s: EngineState): Phase {
    var d := WindowDelta(s.track.pts);
    var th := cfg.general.swipeThresh;
    var p1 :=
      if Abs(d.x) > Abs(d.y) && Abs(d.x) > th
      then TrySwipe(cfg, flags, raw, now, if d.x > 0.0 then SwipeRight else SwipeLeft, s)
      else Next(s);
    match p1
    case Done(_, _) => p1
    case Next(s1) =>
      if Abs(d.y) > Abs(d.x) && Abs(d.y) > th
      then TrySwipe(cfg, flags, raw, now, if d.y > 0.0 then SwipeDown else SwipeUp, s1)
      else Next(s1)
  }

  /** The streak of unclassified frames fires `UNKNOWN` and restarts. */
  function UnknownPhase(cfg: Config, fr: Frame, s: EngineState): Phase {
    if fr.raw.None? && HasItem(cfg.catalog, Unknown) && EnableOk(cfg.catalog, Unknown, fr.flags) then
      var u := s.unknownCount + 1;
      if u >= Param(cfg.catalog, Unknown, "stable_frames", 3)
         && CooldownReady(s.cool, Unknown, Param(cfg.catalog, Unknown, "cooldown_ms", 800), fr.now)
      then Done(s.(unknownCount := 0, cool := s.cool[Unknown := fr.now]), Output(Some(Unknown), fr.raw, None))
      else Next(s.(unknownCount := u))
    else Next(s.(unknownCount := 0))
  }

  /** Static event, then swipe, then the unknown streak; otherwise nothing fires. */
  function TailPhase(cfg: Config, fr: Frame, s: EngineState): (p: Phase)
    ensures p.Done?
  {
    match StaticPhase(cfg, fr, s)
    case Done(s1, out) => Done(s1, out)
    case Next(s1) =>
      match SwipePhase(cfg, fr.flags, fr.raw, fr.now, s1)
      case Done(s2, out) => Done(s2, out)
      case Next(s2) =>
        match UnknownPhase(cfg, fr, s2)
        case Done(s3, out) => Done(s3, out)
        case Next(s3) => Done(s3, Output(None, fr.raw, None))
  }

  /** The composite phases, then the tail phases. */
  function Recognise(cfg: Config, fr: Frame, s: EngineState): (p: Phase)
    ensures p.Done?
  {
    match CompositePhase(cfg, fr, s)
    case Done(s1, out) => Done(s1, out)
    case Next(s1) => TailPhase(cfg, fr, s1)
  }

  /** The state and the frame once the window, the debounce and mouse-move mode have taken a hand. */
  datatype Observed = Observed(s: EngineState, fr: Frame)

  /**
   * The part of a frame with a hand that runs before recognition: the window
   * takes the index tip, the debounce takes the raw label, and mouse-move
   * mode follows the confirmed label.
   */
  function Observe(cfg: Config, norm: Norm, s: EngineState, flags: Flags, l: Landmarks, now: real): Observed {
    var g := cfg.general;
    var s1 := s.(track := s.track.(pts := Added(s.track.pts, s.track.windowMs, now, l[IndexTip])));
    var raw := ClassifyStatic(norm, Some(l), g.pinchThr, g.closeThr);
    var c := Confirm(s1.stableLast, s1.stableCount, raw, g.stableFrames);
    var s2 := s1.(stableLast := c.last, stableCount := c.count);
    var f2 := flags.(mouseMoveMode := c.confirmed == MouseModeGestureId(cfg.catalog));
    Observed(s2, MakeFrame(cfg, norm, l, s2.track.pts, raw, c.confirmed, f2, now))
  }

  /** `update_bare` with the clock reading passed in as `now`. */
  function BareStep(cfg: Config, norm: Norm, s: EngineState, flags: Flags,
                    lm: Option<Landmarks>, now: real): Step
  {
    var s0 := s.(track := s.track.(windowMs := cfg.general.dynamicWindowMs));
    if lm.None? then Step(NoHand(s0), flags, Nothing)
    else HandSeen(cfg, norm, s0, flags, lm.value, now)
  }

  /** A hand in view: observe it, then recognise unless recognition is off. */
  function HandSeen(cfg: Config, norm: Norm, s0: EngineState, flags: Flags, l: Landmarks, now: real): Step {
    var o := Observe(cfg, norm, s0, flags, l, now);
    if !o.fr.flags.recognitionEnabled then
      Step(o.s.(scroll := Stopped(o.s.scroll), unknownCount := 0), o.fr.flags, Output(None, o.fr.raw, None))
    else
      var p := Recognise(cfg, o.fr, o.s);
      Step(p.s, o.fr.flags, p.out)
  }

  /** `update_glove`: only tracking, mouse-move mode and swipes. */
  function GloveStep(cfg: Config, s: EngineState, flags: Flags, feats: Option<Blob>, now: real): Step {
    var s0 := s.(track := s.track.(windowMs := cfg.general.dynamicWindowMs));
    if feats.None? || feats.value.center.None? then Step(GloveLost(s0), flags, Nothing)
    else GloveTracked(cfg, s0, flags, feats.value.center.value, |feats.value.fingertips| >= 2, now)
  }

  /** No blob or no centre: scroll stopped and window emptied. */
  function GloveLost(s: EngineState): EngineState {
    s.(scroll := Stopped(s.scroll), track := s.track.(pts := []))
  }

  /** A blob centred at `c`: the window follows it, then a swipe may fire. */
  function GloveTracked(cfg: Config, s0: EngineState, flags: Flags, c: Vec, twoTips: bool, now: real): Step {
    var s1 := s0.(track := s0.track.(pts := Added(s0.track.pts, s0.track.windowMs, now, c)));
    var f1 := flags.(mouseMoveMode := twoTips);
    if !f1.recognitionEnabled then
      Step(s1.(scroll := Stopped(s1.scroll)), f1, Output(None, Some(GloveTracking), None))
    else
      match SwipePhase(cfg, f1, Some(GloveTracking), now, s1)
      case Done(s2, out) => Step(s2, f1, out)
      case Next(s2) => Step(s2, f1, Output(None, Some(GloveTracking), None))
  }
}
