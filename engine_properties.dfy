/**
 * What one engine frame guarantees: events fire only when declared,
 * enabled and out of cooldown, and each firing stamps exactly its own
 * cooldown entry; a scroll vector never comes with an event and is bounded;
 * the three-finger pinch suppresses scroll and clicks; clicks are
 * edge-triggered; a swipe agrees with the dominant axis of the window and
 * empties it; the debounce confirms a label only after enough repeats.
 */
module EngineProperties {
  import opened Wrappers
  import opened Geometry
  import opened GesturePrimitives
  import opened DynamicTrack
  import opened ScrollState
  import opened SystemStateModel
  import opened EngineSpec

  // ---------------------------------------------------------------------
  // Cooldown bookkeeping

  /** The cooldown, in ms, that gates event `e`. */
  function CooldownFor(cfg: Config, e: string): int {
    if e == PinchRightClick then Param(cfg.catalog, e, "cooldown_ms", 500)
    else if e == DoubleClick then Param(cfg.catalog, e, "cooldown_ms", 700)
    else if e == Unknown then Param(cfg.catalog, e, "cooldown_ms", 800)
    else if e in Swipes then cfg.general.cooldownMs
    else Param(cfg.catalog, e, "cooldown_ms", cfg.general.cooldownMs)
  }

  /**
   * `e` was allowed to fire at `now` — declared in the catalog, enabled by
   * the flags and out of cooldown in `cool` — and `cool2` stamps it alone.
   */
  predicate Fired(cfg: Config, flags: Flags, cool: map<string, real>, cool2: map<string, real>,
                  e: string, now: real)
  {
    HasItem(cfg.catalog, e) && EnableOk(cfg.catalog, e, flags)
    && CooldownReady(cool, e, CooldownFor(cfg, e), now)
    && cool2 == cool[e := now]
  }

  /** A phase touches the cooldown table only for the event it fires. */
  predicate CoolingOk(cfg: Config, flags: Flags, now: real, s: EngineState, p: Phase) {
    match p
    case Done(s1, out) =>
      (out.event.Some? ==> Fired(cfg, flags, s.cool, s1.cool, out.event.value, now))
      && (out.event.None? ==> s1.cool == s.cool)
    case Next(s1) => s1.cool == s.cool
  }

  /** The streak of raw labels, which only the start of a frame updates. */
  predicate SameStreak(a: EngineState, b: EngineState) {
    a.stableLast == b.stableLast && a.stableCount == b.stableCount
  }

  /** The click ids, the unknown id and the swipe ids are not static labels. */
  lemma EventIdsDistinct()
    ensures PinchRightClick !in StaticLabels && DoubleClick !in StaticLabels
    ensures Unknown !in StaticLabels && Swipes !! StaticLabels
    ensures PinchRightClick !in Swipes && DoubleClick !in Swipes && Unknown !in Swipes
  {
  }

  /** Right click fired on the rising edge of a thumb-middle pinch held long enough. */
  predicate RightClickEdge(cfg: Config, s: EngineState, t: EngineState) {
    && !s.pinchMiddleDown && s.pinchMiddleHold + 1 >= cfg.general.clickHoldFrames
    && t.pinchMiddleDown && t.pinchMiddleHold == s.pinchMiddleHold + 1
  }

  /** Double click fired on the rising edge of index and middle tips held close long enough. */
  predicate DoubleClickEdge(cfg: Config, s: EngineState, t: EngineState) {
    && !s.closeDown && s.closeHold + 1 >= cfg.general.clickHoldFrames
    && t.closeDown && t.closeHold == s.closeHold + 1
  }

  /** Both click edges held down with their counters cleared (three-finger pinch). */
  predicate ClicksHeld(t: EngineState) {
    t.pinchMiddleDown && t.closeDown && t.pinchMiddleHold == 0 && t.closeHold == 0
  }

  /** Both click edges released with their counters cleared. */
  predicate ClicksCleared(t: EngineState) {
    !t.pinchMiddleDown && !t.closeDown && t.pinchMiddleHold == 0 && t.closeHold == 0
  }

  /** The click fields of two states agree. */
  predicate SameClicks(a: EngineState, b: EngineState) {
    && a.pinchMiddleDown == b.pinchMiddleDown && a.closeDown == b.closeDown
    && a.pinchMiddleHold == b.pinchMiddleHold && a.closeHold == b.closeHold
  }

  /** The scroll vector the pinch-scroll phase reports for anchor `a`. */
  function ScrollFor(cfg: Config, fr: Frame, a: Anchor): ScrollVec {
    ScrollAmount(AnchorDelta(a, fr.tip.x, fr.tip.y),
                 cfg.general.scrollGain, cfg.general.scrollDeadzone, cfg.general.scrollMaxStep)
  }

  /**
   * Pinch-scroll takes the frame exactly when the thumb-index pinch holds
   * and `PINCH_SCROLL` is declared and enabled; it keeps an active anchor or
   * starts one at the index tip, reports the displacement from it and fires
   * nothing.
   */
  lemma ScrollPhaseCooling(cfg: Config, fr: Frame, s: EngineState)
    ensures CoolingOk(cfg, fr.flags, fr.now, s, ScrollPhase(cfg, fr, s))
    ensures ScrollPhase(cfg, fr, s).s == s.(scroll := ScrollPhase(cfg, fr, s).s.scroll)
    ensures ScrollPhase(cfg, fr, s).Done? <==>
      fr.pinchIndex && HasItem(cfg.catalog, PinchScroll) && EnableOk(cfg.catalog, PinchScroll, fr.flags)
    ensures ScrollPhase(cfg, fr, s).Done? ==>
      var p := ScrollPhase(cfg, fr, s);
      && p.s.scroll == (if s.scroll.active then s.scroll else StartAt(fr.tip.x, fr.tip.y))
      && p.out == Output(None, fr.raw, Some(ScrollFor(cfg, fr, p.s.scroll)))
  {
  }

  /** The right click is ready: declared, enabled, pinched, not already down, held long enough and out of cooldown. */
  predicate RightClickReady(cfg: Config, fr: Frame, s: EngineState) {
    && HasItem(cfg.catalog, PinchRightClick) && EnableOk(cfg.catalog, PinchRightClick, fr.flags)
    && fr.pinchMiddle && !s.pinchMiddleDown && s.pinchMiddleHold + 1 >= cfg.general.clickHoldFrames
    && CooldownReady(s.cool, PinchRightClick, CooldownFor(cfg, PinchRightClick), fr.now)
  }

  /** The double click is ready, on the same terms with the index and middle tips close. */
  predicate DoubleClickReady(cfg: Config, fr: Frame, s: EngineState) {
    && HasItem(cfg.catalog, DoubleClick) && EnableOk(cfg.catalog, DoubleClick, fr.flags)
    && fr.isClose && !s.closeDown && s.closeHold + 1 >= cfg.general.clickHoldFrames
    && CooldownReady(s.cool, DoubleClick, CooldownFor(cfg, DoubleClick), fr.now)
  }

  /** The right click fires exactly when it is ready, on the rising edge of the pinch. */
  lemma RightClickCooling(cfg: Config, fr: Frame, s: EngineState)
    ensures CoolingOk(cfg, fr.flags, fr.now, s, RightClickPhase(cfg, fr, s))
    ensures RightClickPhase(cfg, fr, s).Done? <==> RightClickReady(cfg, fr, s)
    ensures var t := RightClickPhase(cfg, fr, s).s;
      t == s.(cool := t.cool, pinchMiddleDown := t.pinchMiddleDown, pinchMiddleHold := t.pinchMiddleHold)
    ensures RightClickPhase(cfg, fr, s).Done? ==>
      && RightClickPhase(cfg, fr, s).out == Output(Some(PinchRightClick), fr.raw, None)
      && fr.pinchMiddle && RightClickEdge(cfg, s, RightClickPhase(cfg, fr, s).s)
  {
  }

  /** The double click fires exactly when it is ready, on the rising edge of the tips closing. */
  lemma DoubleClickCooling(cfg: Config, fr: Frame, s: EngineState)
    ensures CoolingOk(cfg, fr.flags, fr.now, s, DoubleClickPhase(cfg, fr, s))
    ensures DoubleClickPhase(cfg, fr, s).Done? <==> DoubleClickReady(cfg, fr, s)
    ensures var t := DoubleClickPhase(cfg, fr, s).s;
      t == s.(cool := t.cool, closeDown := t.closeDown, closeHold := t.closeHold)
    ensures DoubleClickPhase(cfg, fr, s).Done? ==>
      && DoubleClickPhase(cfg, fr, s).out == Output(Some(DoubleClick), fr.raw, None)
      && fr.isClose && DoubleClickEdge(cfg, s, DoubleClickPhase(cfg, fr, s).s)
  {
  }

  /** The click composites run only when clicks are allowed, and reset otherwise. */
  lemma {:induction false} ClickPhaseCooling(cfg: Config, fr: Frame, s: EngineState)
    ensures CoolingOk(cfg, fr.flags, fr.now, s, ClickPhase(cfg, fr, s))
    ensures var t := ClickPhase(cfg, fr, s).s;
      t == s.(cool := t.cool, pinchMiddleDown := t.pinchMiddleDown, pinchMiddleHold := t.pinchMiddleHold,
              closeDown := t.closeDown, closeHold := t.closeHold)
    ensures !fr.clickAllowed ==> ClickPhase(cfg, fr, s).Next? && ClicksCleared(ClickPhase(cfg, fr, s).s)
    ensures ClickPhase(cfg, fr, s).Done? ==>
      var p := ClickPhase(cfg, fr, s);
      && fr.clickAllowed && p.out.raw == fr.raw && p.out.scroll.None?
      && (p.out.event == Some(PinchRightClick) || p.out.event == Some(DoubleClick))
      && (p.out.event == Some(PinchRightClick) ==> fr.pinchMiddle && RightClickEdge(cfg, s, p.s))
      && (p.out.event == Some(DoubleClick) ==> fr.isClose && DoubleClickEdge(cfg, s, p.s))
  {
    if fr.clickAllowed {
      RightClickCooling(cfg, fr, s);
      match RightClickPhase(cfg, fr, s)
      case Done(_, _) =>
      case Next(s1) => DoubleClickCooling(cfg, fr, s1);
    }
  }

  /** Three-finger override, else scroll, else the clicks. */
  lemma {:induction false} CompositeCooling(cfg: Config, fr: Frame, s: EngineState)
    ensures CoolingOk(cfg, fr.flags, fr.now, s, CompositePhase(cfg, fr, s))
    ensures CompositePhase(cfg, fr, s).s.track == s.track
    ensures SameStreak(s, CompositePhase(cfg, fr, s).s)
    ensures fr.pinchIndex && fr.pinchMiddle ==>
      CompositePhase(cfg, fr, s).Next?
      && ClicksHeld(CompositePhase(cfg, fr, s).s) && !CompositePhase(cfg, fr, s).s.scroll.active
    ensures !(fr.pinchIndex && fr.pinchMiddle) && !fr.clickAllowed && CompositePhase(cfg, fr, s).Next? ==>
      ClicksCleared(CompositePhase(cfg, fr, s).s)
    ensures CompositePhase(cfg, fr, s).Done? ==>
      var p := CompositePhase(cfg, fr, s);
      && p.out.raw == fr.raw
      && (p.out.scroll.Some? ==>
            && p.out.event.None? && fr.pinchIndex && !fr.pinchMiddle
            && HasItem(cfg.catalog, PinchScroll) && EnableOk(cfg.catalog, PinchScroll, fr.flags)
            && p.s.scroll.active && p.out.scroll == Some(ScrollFor(cfg, fr, p.s.scroll)))
      && (p.out.scroll.None? ==> p.out.event == Some(PinchRightClick) || p.out.event == Some(DoubleClick))
      && (p.out.event == Some(PinchRightClick) ==>
            fr.clickAllowed && fr.pinchMiddle && !fr.pinchIndex && RightClickEdge(cfg, s, p.s))
      && (p.out.event == Some(DoubleClick) ==>
            fr.clickAllowed && fr.isClose && !(fr.pinchIndex && fr.pinchMiddle) && DoubleClickEdge(cfg, s, p.s))
  {
    if !(fr.pinchIndex && fr.pinchMiddle) {
      ScrollPhaseCooling(cfg, fr, s);
      match ScrollPhase(cfg, fr, s)
      case Done(_, _) =>
      case Next(s1) => ClickPhaseCooling(cfg, fr, s1);
    }
  }

  /** The confirmed label may fire: non-empty, declared, enabled and out of its cooldown in `cool`. */
  predicate StaticReady(cfg: Config, fr: Frame, cool: map<string, real>) {
    && Truthy(fr.confirmed) && HasItem(cfg.catalog, fr.confirmed.value)
    && EnableOk(cfg.catalog, fr.confirmed.value, fr.flags)
    && CooldownReady(cool, fr.confirmed.value, CooldownFor(cfg, fr.confirmed.value), fr.now)
  }

  /** The confirmed label fires exactly when it is ready. */
  lemma StaticPhaseCooling(cfg: Config, fr: Frame, s: EngineState)
    requires fr.confirmed.Some? ==> fr.confirmed.value in StaticLabels
    ensures CoolingOk(cfg, fr.flags, fr.now, s, StaticPhase(cfg, fr, s))
    ensures StaticPhase(cfg, fr, s).Done? <==> StaticReady(cfg, fr, s.cool)
    ensures StaticPhase(cfg, fr, s).Done? ==>
      StaticPhase(cfg, fr, s).out == Output(fr.confirmed, fr.raw, None)
    ensures StaticPhase(cfg, fr, s).s == s.(cool := StaticPhase(cfg, fr, s).s.cool)
  {
    EventIdsDistinct();
  }

  /** `e` is the swipe that the window displacement `d` points to, beyond `th`. */
  predicate SwipeMatches(e: string, d: Vec, th: real) {
    || (((e == SwipeRight && d.x > 0.0) || (e == SwipeLeft && d.x <= 0.0))
        && Abs(d.x) > Abs(d.y) && Abs(d.x) > th)
    || (((e == SwipeDown && d.y > 0.0) || (e == SwipeUp && d.y <= 0.0))
        && Abs(d.y) > Abs(d.x) && Abs(d.y) > th)
  }

  /**
   * The swipe a displacement calls for: the strictly dominant axis, beyond
   * the threshold, in the direction of its sign (image `y` grows downwards).
   */
  function SwipeTarget(d: Vec, th: real): (e: Option<string>)
    ensures e.Some? ==> e.value in Swipes && SwipeMatches(e.value, d, th)
    ensures e.None? ==> forall x :: !SwipeMatches(x, d, th)
  {
    if Abs(d.x) > Abs(d.y) && Abs(d.x) > th then Some(if d.x > 0.0 then SwipeRight else SwipeLeft)
    else if Abs(d.y) > Abs(d.x) && Abs(d.y) > th then Some(if d.y > 0.0 then SwipeDown else SwipeUp)
    else None
  }

  /** A swipe id may fire: declared, enabled and out of the global cooldown. */
  predicate SwipeAllowed(cfg: Config, flags: Flags, cool: map<string, real>, e: string, now: real) {
    HasItem(cfg.catalog, e) && EnableOk(cfg.catalog, e, flags) && CooldownReady(cool, e, cfg.general.cooldownMs, now)
  }

  /** A horizontal move of 150 px against 10 px vertically, beyond an 80 px threshold, is a right swipe; reversed, a left one. */
  lemma SwipeTargetExamples()
    ensures SwipeTarget(Vec(150.0, 10.0), 80.0) == Some(SwipeRight)
    ensures SwipeTarget(Vec(-150.0, 10.0), 80.0) == Some(SwipeLeft)
    ensures SwipeTarget(Vec(10.0, -150.0), 80.0) == Some(SwipeUp)
    ensures SwipeTarget(Vec(50.0, 10.0), 80.0) == None
  {
  }

  /** The window `pts` calls for a swipe that may fire. */
  predicate SwipeReady(cfg: Config, flags: Flags, cool: map<string, real>, pts: seq<Sample>, now: real) {
    var e := SwipeTarget(WindowDelta(pts), cfg.general.swipeThresh);
    e.Some? && SwipeAllowed(cfg, flags, cool, e.value, now)
  }

  /**
   * A swipe fires exactly when the window's net displacement calls for one
   * that is declared, enabled and out of cooldown, and it is that swipe;
   * firing empties the window, and otherwise the state is untouched.
   */
  lemma SwipePhaseFires(cfg: Config, flags: Flags, raw: Option<string>, now: real, s: EngineState)
    ensures CoolingOk(cfg, flags, now, s, SwipePhase(cfg, flags, raw, now, s))
    ensures SwipePhase(cfg, flags, raw, now, s).Done? <==> SwipeReady(cfg, flags, s.cool, s.track.pts, now)
    ensures SwipePhase(cfg, flags, raw, now, s).Done? ==>
      SwipePhase(cfg, flags, raw, now, s).out.event == SwipeTarget(WindowDelta(s.track.pts), cfg.general.swipeThresh)
    ensures SwipePhase(cfg, flags, raw, now, s).Next? ==> SwipePhase(cfg, flags, raw, now, s).s == s
    ensures SwipePhase(cfg, flags, raw, now, s).Done? ==>
      var p := SwipePhase(cfg, flags, raw, now, s);
      && p.out == Output(p.out.event, raw, None) && p.out.event.Some?
      && p.out.event.value in Swipes
      && SwipeMatches(p.out.event.value, WindowDelta(s.track.pts), cfg.general.swipeThresh)
      && p.s == s.(cool := p.s.cool, track := s.track.(pts := []))
  {
    EventIdsDistinct();
  }

  /** `UNKNOWN` may fire after a streak of `count` unclassified frames before this one. */
  predicate UnknownReady(cfg: Config, fr: Frame, cool: map<string, real>, count: int) {
    && fr.raw.None? && HasItem(cfg.catalog, Unknown) && EnableOk(cfg.catalog, Unknown, fr.flags)
    && count + 1 >= Param(cfg.catalog, Unknown, "stable_frames", 3)
    && CooldownReady(cool, Unknown, CooldownFor(cfg, Unknown), fr.now)
  }

  /**
   * `UNKNOWN` fires exactly when the frame is unclassified, the id is
   * declared and enabled, the streak including this frame reaches its
   * `stable_frames` and its cooldown has passed; it restarts the streak.
   */
  lemma UnknownPhaseCooling(cfg: Config, fr: Frame, s: EngineState)
    ensures CoolingOk(cfg, fr.flags, fr.now, s, UnknownPhase(cfg, fr, s))
    ensures UnknownPhase(cfg, fr, s).Done? <==> UnknownReady(cfg, fr, s.cool, s.unknownCount)
    ensures UnknownPhase(cfg, fr, s).s == s.(cool := UnknownPhase(cfg, fr, s).s.cool,
                                             unknownCount := UnknownPhase(cfg, fr, s).s.unknownCount)
    ensures UnknownPhase(cfg, fr, s).Done? ==>
      UnknownPhase(cfg, fr, s).out == Output(Some(Unknown), None, None)
      && fr.raw.None? && UnknownPhase(cfg, fr, s).s.unknownCount == 0
  {
    EventIdsDistinct();
  }

  /** Every event id the tail phases can emit. */
  predicate TailEvent(e: string) {
    e in StaticLabels || e in Swipes || e == Unknown
  }

  /** Every event id the bare-hand engine can emit. */
  predicate BareEvent(e: string) {
    TailEvent(e) || e == PinchRightClick || e == DoubleClick
  }

  /** The tail phases: a static label, else a swipe, else `UNKNOWN`, else nothing. */
  lemma {:induction false} TailPhaseCooling(cfg: Config, fr: Frame, s: EngineState)
    requires fr.confirmed.Some? ==> fr.confirmed.value in StaticLabels
    ensures CoolingOk(cfg, fr.flags, fr.now, s, TailPhase(cfg, fr, s))
    ensures var p := TailPhase(cfg, fr, s);
      && p.out.scroll.None? && p.out.raw == fr.raw
      && (p.out.event.Some? ==> TailEvent(p.out.event.value))
      && (p.out.event.Some? && p.out.event.value in Swipes ==>
            SwipeMatches(p.out.event.value, WindowDelta(s.track.pts), cfg.general.swipeThresh)
            && p.s.track.pts == [])
      && (p.out.event.None? || p.out.event.value !in Swipes ==> p.s.track == s.track)
      && p.s.track.windowMs == s.track.windowMs
      && SameStreak(s, p.s) && p.s.scroll == s.scroll && SameClicks(s, p.s)
  {
    EventIdsDistinct();
    StaticPhaseCooling(cfg, fr, s);
    match StaticPhase(cfg, fr, s)
    case Done(_, _) =>
    case Next(s1) =>
      SwipePhaseFires(cfg, fr.flags, fr.raw, fr.now, s1);
      match SwipePhase(cfg, fr.flags, fr.raw, fr.now, s1)
      case Done(_, _) =>
      case Next(s2) =>
        UnknownPhaseCooling(cfg, fr, s2);
  }

  /** Everything the recognising part of a frame guarantees about events and cooldowns. */
  lemma {:induction false} RecogniseProps(cfg: Config, fr: Frame, s: EngineState)
    requires fr.confirmed.Some? ==> fr.confirmed.value in StaticLabels
    ensures CoolingOk(cfg, fr.flags, fr.now, s, Recognise(cfg, fr, s))
    ensures var p := Recognise(cfg, fr, s);
      && p.out.raw == fr.raw && SameStreak(s, p.s)
      && (p.out.event.Some? ==> BareEvent(p.out.event.value) && p.out.scroll.None?)
      && (p.out.event.Some? && p.out.event.value in Swipes ==>
            SwipeMatches(p.out.event.value, WindowDelta(s.track.pts), cfg.general.swipeThresh)
            && p.s.track.pts == [])
      && (p.out.event.None? || p.out.event.value !in Swipes ==> p.s.track == s.track)
      && p.s.track.windowMs == s.track.windowMs
  {
    CompositeCooling(cfg, fr, s);
    EventIdsDistinct();
    match CompositePhase(cfg, fr, s)
    case Done(_, _) =>
    case Next(s1) => TailPhaseCooling(cfg, fr, s1);
  }

  /**
   * What recognition does with the pinch and click signals: the scroll
   * vector comes only from an active pinch-scroll and never with an event;
   * clicks fire only on a rising edge while clicks are allowed; the
   * three-finger pinch holds both click edges down and stops scrolling;
   * disallowed clicks release both edges.
   */
  lemma {:induction false} RecogniseComposites(cfg: Config, fr: Frame, s: EngineState)
    requires fr.confirmed.Some? ==> fr.confirmed.value in StaticLabels
    ensures var p := Recognise(cfg, fr, s);
      && (p.out.scroll.Some? ==>
            && p.out.event.None? && fr.pinchIndex && !fr.pinchMiddle
            && HasItem(cfg.catalog, PinchScroll) && EnableOk(cfg.catalog, PinchScroll, fr.flags)
            && p.s.scroll.active && p.out.scroll == Some(ScrollFor(cfg, fr, p.s.scroll)))
      && (p.out.event == Some(PinchRightClick) ==>
            fr.clickAllowed && fr.pinchMiddle && !fr.pinchIndex && RightClickEdge(cfg, s, p.s))
      && (p.out.event == Some(DoubleClick) ==>
            fr.clickAllowed && fr.isClose && !(fr.pinchIndex && fr.pinchMiddle) && DoubleClickEdge(cfg, s, p.s))
      && (fr.pinchIndex && fr.pinchMiddle ==> ClicksHeld(p.s) && !p.s.scroll.active && p.out.scroll.None?)
      && (!(fr.pinchIndex && fr.pinchMiddle) && !fr.clickAllowed && p.out.scroll.None? ==> ClicksCleared(p.s))
  {
    CompositeCooling(cfg, fr, s);
    EventIdsDistinct();
    match CompositePhase(cfg, fr, s)
    case Done(_, _) =>
    case Next(s1) => TailPhaseCooling(cfg, fr, s1);
  }

  // ---------------------------------------------------------------------
  // Which event a frame fires

  /** The three-finger pinch: thumb touching both index and middle. */
  predicate ThreePinch(fr: Frame) {
    fr.pinchIndex && fr.pinchMiddle
  }

  /** Pinch-scroll takes the frame: thumb-index pinch with `PINCH_SCROLL` declared and enabled. */
  predicate ScrollTakes(cfg: Config, fr: Frame) {
    fr.pinchIndex && HasItem(cfg.catalog, PinchScroll) && EnableOk(cfg.catalog, PinchScroll, fr.flags)
  }

  /** The event the tail phases pick: the static label, else the swipe, else `UNKNOWN`, else none. */
  function TailChoice(cfg: Config, fr: Frame, s: EngineState): Option<string> {
    if StaticReady(cfg, fr, s.cool) then fr.confirmed
    else if SwipeReady(cfg, fr.flags, s.cool, s.track.pts, fr.now)
    then SwipeTarget(WindowDelta(s.track.pts), cfg.general.swipeThresh)
    else if UnknownReady(cfg, fr, s.cool, s.unknownCount) then Some(Unknown)
    else None
  }

  /**
   * The event a recognising frame fires, by the precedence of the phases:
   * the three-finger pinch skips the composites, pinch-scroll pre-empts the
   * clicks and reports no event, the right click comes before the double
   * click, and the tail phases come last.
   */
  function ExpectedEvent(cfg: Config, fr: Frame, s: EngineState): Option<string> {
    if ThreePinch(fr) then TailChoice(cfg, fr, s)
    else if ScrollTakes(cfg, fr) then None
    else if fr.clickAllowed && RightClickReady(cfg, fr, s) then Some(PinchRightClick)
    else if fr.clickAllowed && DoubleClickReady(cfg, fr, s) then Some(DoubleClick)
    else TailChoice(cfg, fr, s)
  }

  /** The tail phases fire exactly the event `TailChoice` picks. */
  lemma {:induction false} TailPhaseChoice(cfg: Config, fr: Frame, s: EngineState)
    requires fr.confirmed.Some? ==> fr.confirmed.value in StaticLabels
    ensures TailPhase(cfg, fr, s).out.event == TailChoice(cfg, fr, s)
  {
    EventIdsDistinct();
    StaticPhaseCooling(cfg, fr, s);
    match StaticPhase(cfg, fr, s)
    case Done(_, _) =>
    case Next(s1) =>
      SwipePhaseFires(cfg, fr.flags, fr.raw, fr.now, s1);
      match SwipePhase(cfg, fr.flags, fr.raw, fr.now, s1)
      case Done(_, _) =>
      case Next(s2) =>
        UnknownPhaseCooling(cfg, fr, s2);
  }

  /**
   * Recognition fires exactly `ExpectedEvent`, and reports a scroll vector
   * exactly when pinch-scroll takes a frame that is not a three-finger pinch.
   */
  lemma {:induction false} RecogniseChoice(cfg: Config, fr: Frame, s: EngineState)
    requires fr.confirmed.Some? ==> fr.confirmed.value in StaticLabels
    ensures Recognise(cfg, fr, s).out.event == ExpectedEvent(cfg, fr, s)
    ensures Recognise(cfg, fr, s).out.scroll.Some? <==> !ThreePinch(fr) && ScrollTakes(cfg, fr)
  {
    CompositeCooling(cfg, fr, s);
    if ThreePinch(fr) {
      TailPhaseChoice(cfg, fr, ThreePinchHold(s));
      TailPhaseCooling(cfg, fr, ThreePinchHold(s));
    } else {
      ScrollPhaseCooling(cfg, fr, s);
      match ScrollPhase(cfg, fr, s)
      case Done(_, _) =>
      case Next(s1) =>
        if fr.clickAllowed {
          RightClickCooling(cfg, fr, s1);
          match RightClickPhase(cfg, fr, s1)
          case Done(_, _) =>
          case Next(s2) =>
            DoubleClickCooling(cfg, fr, s2);
            match DoubleClickPhase(cfg, fr, s2)
            case Done(_, _) =>
            case Next(s3) =>
              TailPhaseChoice(cfg, fr, s3);
              TailPhaseCooling(cfg, fr, s3);
        } else {
          TailPhaseChoice(cfg, fr, ResetClicks(s1));
          TailPhaseCooling(cfg, fr, ResetClicks(s1));
        }
    }
  }

  // ---------------------------------------------------------------------
  // Debounce over many frames

  /** The debounce run over a whole sequence of raw labels from the engine's initial streak. */
  function ConfirmAll(raws: seq<Option<string>>, need: int): Confirmation {
    if |raws| == 0 then Confirmation(None, 0, None)
    else
      var c := ConfirmAll(raws[..|raws| - 1], need);
      Confirm(c.last, c.count, raws[|raws| - 1], need)
  }

  /** Length of the run of equal labels that ends `raws`. */
  function TrailingRun(raws: seq<Option<string>>): (n: nat)
    ensures |raws| > 0 ==> 1 <= n <= |raws|
    ensures |raws| == 0 ==> n == 0
    ensures forall i :: |raws| - n <= i < |raws| ==> raws[i] == raws[|raws| - 1]
    ensures n < |raws| ==> raws[|raws| - n - 1] != raws[|raws| - 1]
  {
    if |raws| == 0 then 0
    else if |raws| >= 2 && raws[|raws| - 2] == raws[|raws| - 1] then
      var p := raws[..|raws| - 1];
      var n := TrailingRun(p) + 1;
      assert forall i :: |raws| - n <= i < |raws| - 1 ==> raws[i] == p[i];
      n
    else 1
  }

  /** The streak after a run of labels is the last label and the length of its final run. */
  lemma {:induction false} ConfirmAllStreak(raws: seq<Option<string>>, need: int)
    requires |raws| > 0
    ensures ConfirmAll(raws, need).last == raws[|raws| - 1]
    ensures ConfirmAll(raws, need).count == TrailingRun(raws)
  {
    var p := raws[..|raws| - 1];
    if |p| > 0 {
      ConfirmAllStreak(p, need);
      assert p[|p| - 1] == raws[|raws| - 2];
      if raws[|raws| - 2] == raws[|raws| - 1] {
        assert TrailingRun(raws) == TrailingRun(p) + 1;
      }
    }
  }

  /**
   * A label is confirmed exactly when it is non-empty and has been the raw
   * label of at least `need` consecutive frames, the current one included.
   */
  lemma {:induction false} DebounceConfirms(raws: seq<Option<string>>, need: int)
    ensures var c := ConfirmAll(raws, need);
      c.confirmed.Some? <==> |raws| > 0 && Truthy(raws[|raws| - 1]) && TrailingRun(raws) >= need
    ensures var c := ConfirmAll(raws, need);
      c.confirmed.Some? ==>
        && c.confirmed == raws[|raws| - 1]
        && forall i :: 0 <= i < |raws| && |raws| - need <= i ==> raws[i] == c.confirmed
  {
    if |raws| > 0 {
      ConfirmAllStreak(raws, need);
    }
  }

  // ---------------------------------------------------------------------
  // One bare-hand frame

  /** The window after a hand frame's index tip has been added. */
  function WindowAfter(cfg: Config, s: EngineState, l: Landmarks, now: real): seq<Sample> {
    Added(s.track.pts, cfg.general.dynamicWindowMs, now, l[IndexTip])
  }

  /** The raw static label of a hand frame. */
  function RawLabel(cfg: Config, norm: Norm, l: Landmarks): Option<string> {
    ClassifyStatic(norm, Some(l), cfg.general.pinchThr, cfg.general.closeThr)
  }

  /** The system flags a hand frame runs with: mouse-move mode follows the confirmed label. */
  function HandFlags(cfg: Config, norm: Norm, s: EngineState, flags: Flags, l: Landmarks): Flags {
    var c := Confirm(s.stableLast, s.stableCount, RawLabel(cfg, norm, l), cfg.general.stableFrames);
    flags.(mouseMoveMode := c.confirmed == MouseModeGestureId(cfg.catalog))
  }

  /** The state and frame a hand produces before recognition. */
  function HandFrame(cfg: Config, norm: Norm, s: EngineState, flags: Flags, l: Landmarks, now: real): Observed {
    Observe(cfg, norm, s.(track := s.track.(windowMs := cfg.general.dynamicWindowMs)), flags, l, now)
  }

  /**
   * Before recognition a hand frame changes only the window and the streak;
   * its signals are the landmark ratios against their thresholds, the
   * stillness of the window, and the debounced raw label.
   */
  lemma HandFrameFields(cfg: Config, norm: Norm, s: EngineState, flags: Flags, l: Landmarks, now: real)
    ensures var o := HandFrame(cfg, norm, s, flags, l, now);
      var g := cfg.general;
      var pts := WindowAfter(cfg, s, l, now);
      && o.s.cool == s.cool && o.s.unknownCount == s.unknownCount && o.s.scroll == s.scroll
      && SameClicks(s, o.s) && o.s.track == Window(g.dynamicWindowMs, pts)
      && o.fr.flags == HandFlags(cfg, norm, s, flags, l) && o.fr.now == now && o.fr.tip == l[IndexTip]
      && o.fr.raw == RawLabel(cfg, norm, l)
      && o.fr.confirmed == Confirm(s.stableLast, s.stableCount, RawLabel(cfg, norm, l), g.stableFrames).confirmed
      && (o.fr.confirmed.Some? ==> o.fr.confirmed.value in StaticLabels)
      && (o.fr.pinchIndex <==> PinchRatio(norm, l, ThumbTip, IndexTip) < g.pinchThr)
      && (o.fr.pinchMiddle <==> PinchRatio(norm, l, ThumbTip, MiddleTip) < g.pinchThr)
      && (o.fr.isClose <==> CloseRatio(norm, l, IndexTip, MiddleTip) < g.closeThr)
      && (o.fr.clickAllowed <==> WindowLength(norm, pts) <= g.clickGuardMovePx && AvgSpeed(norm, pts) <= g.clickMaxSpeed)
  {
  }

  /** No hand: nothing is output, and scroll, window, streak and click edges are cleared. */
  lemma BareStepNoHand(cfg: Config, norm: Norm, s: EngineState, flags: Flags, now: real)
    ensures var st := BareStep(cfg, norm, s, flags, None, now);
      && st.out == Output(None, None, None) && st.flags == flags
      && !st.s.scroll.active && st.s.track == Window(cfg.general.dynamicWindowMs, [])
      && st.s.unknownCount == 0 && ClicksCleared(st.s)
      && st.s.cool == s.cool && SameStreak(s, st.s)
  {
  }

  /**
   * With a hand, the raw label is reported, the debounce streak advances by
   * `Confirm`, and of the system flags only mouse-move mode is written: it
   * is set exactly when the confirmed label is the catalog's mouse-mode
   * gesture.
   */
  lemma {:induction false} BareStepObserves(cfg: Config, norm: Norm, s: EngineState, flags: Flags,
                                            l: Landmarks, now: real)
    ensures var st := BareStep(cfg, norm, s, flags, Some(l), now);
      var c := Confirm(s.stableLast, s.stableCount, RawLabel(cfg, norm, l), cfg.general.stableFrames);
      && st.out.raw == RawLabel(cfg, norm, l)
      && st.flags.(mouseMoveMode := flags.mouseMoveMode) == flags
      && (st.flags.mouseMoveMode <==> c.confirmed == MouseModeGestureId(cfg.catalog))
      && st.s.stableLast == c.last && st.s.stableCount == c.count
  {
    var o := Observe(cfg, norm, s.(track := s.track.(windowMs := cfg.general.dynamicWindowMs)), flags, l, now);
    if o.fr.flags.recognitionEnabled {
      RecogniseProps(cfg, o.fr, o.s);
    }
  }

  /**
   * The window takes the configured length, and unless a swipe emptied it,
   * it holds the samples of the last `dynamicWindowMs` with this frame's
   * index tip as its newest.
   */
  lemma {:induction false} BareStepWindow(cfg: Config, norm: Norm, s: EngineState, flags: Flags,
                                          l: Landmarks, now: real)
    ensures var st := BareStep(cfg, norm, s, flags, Some(l), now);
      && st.s.track.windowMs == cfg.general.dynamicWindowMs
      && (st.out.event.None? || st.out.event.value !in Swipes ==>
            st.s.track.pts == WindowAfter(cfg, s, l, now))
  {
    var o := Observe(cfg, norm, s.(track := s.track.(windowMs := cfg.general.dynamicWindowMs)), flags, l, now);
    assert o.s.track == Window(cfg.general.dynamicWindowMs, WindowAfter(cfg, s, l, now));
    if o.fr.flags.recognitionEnabled {
      RecogniseProps(cfg, o.fr, o.s);
    }
  }

  /** Recognition off: the raw label is still reported, but nothing fires and scroll stops. */
  lemma BareStepRecognitionOff(cfg: Config, norm: Norm, s: EngineState, flags: Flags, l: Landmarks, now: real)
    requires !flags.recognitionEnabled
    ensures var st := BareStep(cfg, norm, s, flags, Some(l), now);
      && st.out == Output(None, RawLabel(cfg, norm, l), None)
      && !st.s.scroll.active && st.s.unknownCount == 0 && st.s.cool == s.cool && SameClicks(s, st.s)
  {
  }

  /**
   * Every event of a bare-hand frame is declared, enabled and out of its
   * cooldown, and stamps its own cooldown entry and no other; a frame
   * without an event leaves the cooldown table alone. Conversely, with a hand
   * and recognition on, the frame fires whatever `ExpectedEvent` picks, so
   * an event that is ready (its cooldown elapsed) and not pre-empted fires.
   */
  lemma {:induction false} BareStepCooldown(cfg: Config, norm: Norm, s: EngineState, flags: Flags,
                                            lm: Option<Landmarks>, now: real)
    ensures var st := BareStep(cfg, norm, s, flags, lm, now);
      && (st.out.event.Some? ==>
            BareEvent(st.out.event.value)
            && Fired(cfg, st.flags, s.cool, st.s.cool, st.out.event.value, now))
      && (st.out.event.None? ==> st.s.cool == s.cool)
    ensures lm.Some? && flags.recognitionEnabled ==>
      var o := HandFrame(cfg, norm, s, flags, lm.value, now);
      BareStep(cfg, norm, s, flags, lm, now).out.event == ExpectedEvent(cfg, o.fr, o.s)
  {
    if lm.Some? {
      var o := Observe(cfg, norm, s.(track := s.track.(windowMs := cfg.general.dynamicWindowMs)), flags, lm.value, now);
      if o.fr.flags.recognitionEnabled {
        RecogniseProps(cfg, o.fr, o.s);
      }
      BareStepChoice(cfg, norm, s, flags, lm.value, now);
    }
  }

  /**
   * A scroll vector comes only with no event, from a thumb-index pinch on a
   * declared and enabled `PINCH_SCROLL`; it is the displacement of the index
   * tip from the active anchor, each component bounded by the maximum step,
   * zero inside the deadzone, `sv` against and `sh` along the finger's motion.
   * Conversely, with recognition on, that pinch (middle finger open) on a
   * declared and enabled `PINCH_SCROLL` always scrolls.
   */
  lemma {:induction false} BareStepScroll(cfg: Config, norm: Norm, s: EngineState, flags: Flags,
                                          l: Landmarks, now: real)
    requires cfg.general.scrollMaxStep >= 0.0 && cfg.general.scrollGain >= 0.0
    ensures var st := BareStep(cfg, norm, s, flags, Some(l), now);
      var g := cfg.general;
      st.out.scroll.Some? ==>
        var d := AnchorDelta(st.s.scroll, l[IndexTip].x, l[IndexTip].y);
        var v := st.out.scroll.value;
        && st.out.event.None? && st.s.scroll.active
        && PinchRatio(norm, l, ThumbTip, IndexTip) < g.pinchThr
        && PinchRatio(norm, l, ThumbTip, MiddleTip) >= g.pinchThr
        && HasItem(cfg.catalog, PinchScroll) && EnableOk(cfg.catalog, PinchScroll, st.flags)
        && Abs(v.sv as real) <= g.scrollMaxStep && Abs(v.sh as real) <= g.scrollMaxStep
        && (Abs(d.y) < g.scrollDeadzone ==> v.sv == 0) && (Abs(d.x) < g.scrollDeadzone ==> v.sh == 0)
        && (d.y >= 0.0 ==> v.sv <= 0) && (d.y <= 0.0 ==> v.sv >= 0)
        && (d.x >= 0.0 ==> v.sh >= 0) && (d.x <= 0.0 ==> v.sh <= 0)
    ensures BareStep(cfg, norm, s, flags, Some(l), now).out.scroll.Some? <==>
      && flags.recognitionEnabled
      && PinchRatio(norm, l, ThumbTip, IndexTip) < cfg.general.pinchThr
      && PinchRatio(norm, l, ThumbTip, MiddleTip) >= cfg.general.pinchThr
      && HasItem(cfg.catalog, PinchScroll) && EnableOk(cfg.catalog, PinchScroll, HandFlags(cfg, norm, s, flags, l))
  {
    HandFrameFields(cfg, norm, s, flags, l, now);
    BareStepChoice(cfg, norm, s, flags, l, now);
    var g := cfg.general;
    var o := Observe(cfg, norm, s.(track := s.track.(windowMs := g.dynamicWindowMs)), flags, l, now);
    if o.fr.flags.recognitionEnabled {
      RecogniseComposites(cfg, o.fr, o.s);
      var p := Recognise(cfg, o.fr, o.s);
      var d := AnchorDelta(p.s.scroll, l[IndexTip].x, l[IndexTip].y);
      ScrollVertical(d, g.scrollGain, g.scrollDeadzone, g.scrollMaxStep);
      ScrollHorizontal(d, g.scrollGain, g.scrollDeadzone, g.scrollMaxStep);
      ScrollVerticalDownward(d, g.scrollGain, g.scrollDeadzone, g.scrollMaxStep);
      ScrollVerticalUpward(d, g.scrollGain, g.scrollDeadzone, g.scrollMaxStep);
      ScrollHorizontalDirection(d, g.scrollGain, g.scrollDeadzone, g.scrollMaxStep);
    }
  }

  /**
   * The three-finger pinch (thumb touching both index and middle) stops
   * scrolling, reports no scroll and no click, and holds both click edges
   * down so that releasing it cannot fire a click.
   */
  lemma {:induction false} BareStepThreePinch(cfg: Config, norm: Norm, s: EngineState, flags: Flags,
                                              l: Landmarks, now: real)
    requires flags.recognitionEnabled
    requires PinchRatio(norm, l, ThumbTip, IndexTip) < cfg.general.pinchThr
    requires PinchRatio(norm, l, ThumbTip, MiddleTip) < cfg.general.pinchThr
    ensures var st := BareStep(cfg, norm, s, flags, Some(l), now);
      && st.out.scroll.None? && !st.s.scroll.active && ClicksHeld(st.s)
      && st.out.event != Some(PinchRightClick) && st.out.event != Some(DoubleClick)
  {
    var o := Observe(cfg, norm, s.(track := s.track.(windowMs := cfg.general.dynamicWindowMs)), flags, l, now);
    RecogniseComposites(cfg, o.fr, o.s);
  }

  /**
   * Clicks are edge-triggered: a right click fires only when the thumb-middle
   * pinch was not already down and has now been held for `clickHoldFrames`
   * frames, and leaves the edge down; the double click likewise for the
   * index and middle tips held close. Both need the hand to be still and slow.
   * Conversely, while the hand is still and slow and not pinching thumb and
   * index, a declared, enabled thumb-middle pinch that is not already down,
   * is held long enough and is out of its cooldown fires the right click;
   * with the thumb-middle pinch open, the close tips fire the double click
   * on the same terms.
   */
  lemma {:induction false} BareStepClicks(cfg: Config, norm: Norm, s: EngineState, flags: Flags,
                                          l: Landmarks, now: real)
    ensures var st := BareStep(cfg, norm, s, flags, Some(l), now);
      var g := cfg.general;
      var pts := WindowAfter(cfg, s, l, now);
      var still := WindowLength(norm, pts) <= g.clickGuardMovePx && AvgSpeed(norm, pts) <= g.clickMaxSpeed;
      && (st.out.event == Some(PinchRightClick) ==>
            && still && PinchRatio(norm, l, ThumbTip, MiddleTip) < g.pinchThr
            && PinchRatio(norm, l, ThumbTip, IndexTip) >= g.pinchThr
            && RightClickEdge(cfg, s, st.s))
      && (st.out.event == Some(DoubleClick) ==>
            && still && CloseRatio(norm, l, IndexTip, MiddleTip) < g.closeThr
            && DoubleClickEdge(cfg, s, st.s))
    ensures var f := HandFlags(cfg, norm, s, flags, l);
      var pts := WindowAfter(cfg, s, l, now);
      && flags.recognitionEnabled && PinchRatio(norm, l, ThumbTip, IndexTip) >= cfg.general.pinchThr
      && WindowLength(norm, pts) <= cfg.general.clickGuardMovePx && AvgSpeed(norm, pts) <= cfg.general.clickMaxSpeed
      && PinchRatio(norm, l, ThumbTip, MiddleTip) < cfg.general.pinchThr
      && HasItem(cfg.catalog, PinchRightClick) && EnableOk(cfg.catalog, PinchRightClick, f)
      && !s.pinchMiddleDown && s.pinchMiddleHold + 1 >= cfg.general.clickHoldFrames
      && CooldownReady(s.cool, PinchRightClick, CooldownFor(cfg, PinchRightClick), now)
      ==> BareStep(cfg, norm, s, flags, Some(l), now).out.event == Some(PinchRightClick)
    ensures var f := HandFlags(cfg, norm, s, flags, l);
      var pts := WindowAfter(cfg, s, l, now);
      && flags.recognitionEnabled && PinchRatio(norm, l, ThumbTip, IndexTip) >= cfg.general.pinchThr
      && WindowLength(norm, pts) <= cfg.general.clickGuardMovePx && AvgSpeed(norm, pts) <= cfg.general.clickMaxSpeed
      && PinchRatio(norm, l, ThumbTip, MiddleTip) >= cfg.general.pinchThr
      && CloseRatio(norm, l, IndexTip, MiddleTip) < cfg.general.closeThr
      && HasItem(cfg.catalog, DoubleClick) && EnableOk(cfg.catalog, DoubleClick, f)
      && !s.closeDown && s.closeHold + 1 >= cfg.general.clickHoldFrames
      && CooldownReady(s.cool, DoubleClick, CooldownFor(cfg, DoubleClick), now)
      ==> BareStep(cfg, norm, s, flags, Some(l), now).out.event == Some(DoubleClick)
  {
    var o := Observe(cfg, norm, s.(track := s.track.(windowMs := cfg.general.dynamicWindowMs)), flags, l, now);
    if o.fr.flags.recognitionEnabled {
      RecogniseComposites(cfg, o.fr, o.s);
    }
    HandFrameFields(cfg, norm, s, flags, l, now);
    BareStepChoice(cfg, norm, s, flags, l, now);
  }

  /** An edge already down cannot fire again until it is released. */
  lemma ClickNotRepeated(cfg: Config, norm: Norm, s: EngineState, flags: Flags, l: Landmarks, now: real)
    ensures s.pinchMiddleDown ==> BareStep(cfg, norm, s, flags, Some(l), now).out.event != Some(PinchRightClick)
    ensures s.closeDown ==> BareStep(cfg, norm, s, flags, Some(l), now).out.event != Some(DoubleClick)
  {
    BareStepClicks(cfg, norm, s, flags, l, now);
  }

  /**
   * A moving or fast hand releases both click edges and fires no click
   * (unless the three-finger pinch or pinch-scroll took the frame).
   */
  lemma {:induction false} BareStepClickGate(cfg: Config, norm: Norm, s: EngineState, flags: Flags,
                                             l: Landmarks, now: real)
    requires flags.recognitionEnabled
    requires !(PinchRatio(norm, l, ThumbTip, IndexTip) < cfg.general.pinchThr
               && PinchRatio(norm, l, ThumbTip, MiddleTip) < cfg.general.pinchThr)
    requires WindowLength(norm, WindowAfter(cfg, s, l, now)) > cfg.general.clickGuardMovePx
             || AvgSpeed(norm, WindowAfter(cfg, s, l, now)) > cfg.general.clickMaxSpeed
    ensures var st := BareStep(cfg, norm, s, flags, Some(l), now);
      && st.out.event != Some(PinchRightClick) && st.out.event != Some(DoubleClick)
      && (st.out.scroll.None? ==> ClicksCleared(st.s))
  {
    var o := Observe(cfg, norm, s.(track := s.track.(windowMs := cfg.general.dynamicWindowMs)), flags, l, now);
    RecogniseComposites(cfg, o.fr, o.s);
  }

  /**
   * A swipe agrees with the strictly dominant axis of the window's net
   * displacement (index tip included), exceeds the threshold, and empties
   * the window. Conversely, when recognition is on, no composite takes the
   * frame and no static label fires, the swipe the window calls for fires
   * whenever it is declared, enabled and out of cooldown.
   */
  lemma {:induction false} BareStepSwipe(cfg: Config, norm: Norm, s: EngineState, flags: Flags,
                                         l: Landmarks, now: real)
    ensures var st := BareStep(cfg, norm, s, flags, Some(l), now);
      st.out.event.Some? && st.out.event.value in Swipes ==>
        && SwipeMatches(st.out.event.value, WindowDelta(WindowAfter(cfg, s, l, now)), cfg.general.swipeThresh)
        && st.s.track.pts == []
    ensures var o := HandFrame(cfg, norm, s, flags, l, now);
      var pts := WindowAfter(cfg, s, l, now);
      && flags.recognitionEnabled && CompositesIdle(cfg, o.fr, o.s) && !StaticReady(cfg, o.fr, s.cool)
      && SwipeReady(cfg, HandFlags(cfg, norm, s, flags, l), s.cool, pts, now)
      ==> BareStep(cfg, norm, s, flags, Some(l), now).out.event == SwipeTarget(WindowDelta(pts), cfg.general.swipeThresh)
  {
    var o := Observe(cfg, norm, s.(track := s.track.(windowMs := cfg.general.dynamicWindowMs)), flags, l, now);
    if o.fr.flags.recognitionEnabled {
      RecogniseProps(cfg, o.fr, o.s);
    }
    HandFrameFields(cfg, norm, s, flags, l, now);
    BareStepChoice(cfg, norm, s, flags, l, now);
  }

  /**
   * A hand frame fires exactly the event `ExpectedEvent` picks for its
   * observed frame while recognition is on, and none while it is off; it
   * reports a scroll vector exactly when pinch-scroll takes the frame.
   */
  lemma {:induction false} BareStepChoice(cfg: Config, norm: Norm, s: EngineState, flags: Flags,
                                          l: Landmarks, now: real)
    ensures var o := HandFrame(cfg, norm, s, flags, l, now);
      var st := BareStep(cfg, norm, s, flags, Some(l), now);
      && st.out.event == (if flags.recognitionEnabled then ExpectedEvent(cfg, o.fr, o.s) else None)
      && (st.out.scroll.Some? <==> flags.recognitionEnabled && !ThreePinch(o.fr) && ScrollTakes(cfg, o.fr))
  {
    var o := HandFrame(cfg, norm, s, flags, l, now);
    HandFrameFields(cfg, norm, s, flags, l, now);
    if flags.recognitionEnabled {
      RecogniseChoice(cfg, o.fr, o.s);
    }
  }

  /**
   * A thumb-index pinch (without the middle finger) on a declared and
   * enabled `PINCH_SCROLL` scrolls: the anchor stays where it was set or is
   * set at the index tip, no event fires, and the vector follows the
   * displacement from the anchor.
   */
  lemma {:induction false} BareStepScrollFires(cfg: Config, norm: Norm, s: EngineState, flags: Flags,
                                               l: Landmarks, now: real)
    requires flags.recognitionEnabled
    requires PinchRatio(norm, l, ThumbTip, IndexTip) < cfg.general.pinchThr
    requires PinchRatio(norm, l, ThumbTip, MiddleTip) >= cfg.general.pinchThr
    requires HasItem(cfg.catalog, PinchScroll)
    requires EnableOk(cfg.catalog, PinchScroll, HandFlags(cfg, norm, s, flags, l))
    ensures var st := BareStep(cfg, norm, s, flags, Some(l), now);
      var g := cfg.general;
      var a := if s.scroll.active then s.scroll else StartAt(l[IndexTip].x, l[IndexTip].y);
      var d := AnchorDelta(a, l[IndexTip].x, l[IndexTip].y);
      && st.out.event.None? && st.s.scroll == a
      && st.out.scroll == Some(ScrollAmount(d, g.scrollGain, g.scrollDeadzone, g.scrollMaxStep))
  {
    var o := HandFrame(cfg, norm, s, flags, l, now);
    HandFrameFields(cfg, norm, s, flags, l, now);
    RecogniseScroll(cfg, o.fr, o.s);
  }

  /**
   * Sustaining that pinch while the index tip rises from the anchor beyond
   * the deadzone, far enough for one step, scrolls up: `sv` is positive and
   * at most the maximum step.
   */
  lemma BareStepScrollUp(cfg: Config, norm: Norm, s: EngineState, flags: Flags, l: Landmarks, now: real)
    requires flags.recognitionEnabled
    requires PinchRatio(norm, l, ThumbTip, IndexTip) < cfg.general.pinchThr
    requires PinchRatio(norm, l, ThumbTip, MiddleTip) >= cfg.general.pinchThr
    requires HasItem(cfg.catalog, PinchScroll)
    requires EnableOk(cfg.catalog, PinchScroll, HandFlags(cfg, norm, s, flags, l))
    requires s.scroll.active && cfg.general.scrollMaxStep >= 1.0
    requires var dy := l[IndexTip].y - s.scroll.startY;
      dy < 0.0 && -dy >= cfg.general.scrollDeadzone && -(dy * cfg.general.scrollGain) >= 1.0
    ensures var v := BareStep(cfg, norm, s, flags, Some(l), now).out.scroll;
      v.Some? && 0 < v.value.sv && v.value.sv as real <= cfg.general.scrollMaxStep
  {
    var g := cfg.general;
    var d := AnchorDelta(s.scroll, l[IndexTip].x, l[IndexTip].y);
    var dy := l[IndexTip].y - s.scroll.startY;
    assert d.y == dy;
    assert dy < 0.0 && -dy >= g.scrollDeadzone && -(dy * g.scrollGain) >= 1.0;
    ScrollUpward(d, g.scrollGain, g.scrollDeadzone, g.scrollMaxStep);
    BareStepScrollFires(cfg, norm, s, flags, l, now);
  }

  /** Pinch-scroll outside the three-finger pinch ends recognition with the scroll from the kept or new anchor. */
  lemma RecogniseScroll(cfg: Config, fr: Frame, s: EngineState)
    requires !ThreePinch(fr) && ScrollTakes(cfg, fr)
    ensures var a := if s.scroll.active then s.scroll else StartAt(fr.tip.x, fr.tip.y);
      Recognise(cfg, fr, s) == Done(s.(scroll := a), Output(None, fr.raw, Some(ScrollFor(cfg, fr, a))))
  {
  }

  /** No composite takes the frame, so the tail phases decide it. */
  predicate CompositesIdle(cfg: Config, fr: Frame, s: EngineState) {
    ThreePinch(fr)
    || (!ScrollTakes(cfg, fr) && !(fr.clickAllowed && (RightClickReady(cfg, fr, s) || DoubleClickReady(cfg, fr, s))))
  }

  /**
   * After a frame at `now` fires static label `e`, a later hand frame that
   * confirms `e` again, with `e` still enabled and no composite taking it,
   * fires `e` exactly when `e`'s cooldown has elapsed since `now`.
   */
  lemma {:induction false} BareStepStaticRefire(cfg: Config, norm: Norm, s: EngineState, flags: Flags,
                                                l: Landmarks, now: real, l2: Landmarks, now2: real)
    requires var st := BareStep(cfg, norm, s, flags, Some(l), now);
      st.out.event.Some? && st.out.event.value in StaticLabels
    requires var st := BareStep(cfg, norm, s, flags, Some(l), now);
      var o := HandFrame(cfg, norm, st.s, st.flags, l2, now2);
      && st.flags.recognitionEnabled && o.fr.confirmed == st.out.event
      && EnableOk(cfg.catalog, st.out.event.value, o.fr.flags) && CompositesIdle(cfg, o.fr, o.s)
    ensures var st := BareStep(cfg, norm, s, flags, Some(l), now);
      BareStep(cfg, norm, st.s, st.flags, Some(l2), now2).out.event == st.out.event
      <==> now2 - now >= CooldownFor(cfg, st.out.event.value) as real
  {
    var st := BareStep(cfg, norm, s, flags, Some(l), now);
    var e := st.out.event.value;
    BareStepCooldown(cfg, norm, s, flags, Some(l), now);
    assert st.s.cool == s.cool[e := now];
    var o := HandFrame(cfg, norm, st.s, st.flags, l2, now2);
    HandFrameFields(cfg, norm, st.s, st.flags, l2, now2);
    BareStepChoice(cfg, norm, st.s, st.flags, l2, now2);
    EventIdsDistinct();
    assert LastFire(o.s.cool, e) == now;
  }

  // ---------------------------------------------------------------------
  // One glove frame

  /** No blob centre: nothing is output, scroll stops and the window empties; flags stay. */
  lemma GloveStepNoBlob(cfg: Config, s: EngineState, flags: Flags, feats: Option<Blob>, now: real)
    requires feats.None? || feats.value.center.None?
    ensures var st := GloveStep(cfg, s, flags, feats, now);
      && st.out == Output(None, None, None) && st.flags == flags
      && !st.s.scroll.active && st.s.track.pts == [] && st.s.cool == s.cool
  {
  }

  /**
   * With a blob centre the raw label is `GLOVE_TRACKING`, mouse-move mode
   * follows "at least two fingertips", no scroll vector is produced, the
   * only events are swipes — declared, enabled, out of cooldown, along the
   * dominant axis of the window (centre included), emptying the window —
   * and no event means an untouched cooldown table. While recognition is on,
   * the swipe the window calls for fires whenever it is allowed.
   */
  lemma {:induction false} GloveStepTracks(cfg: Config, s: EngineState, flags: Flags, b: Blob, now: real)
    requires b.center.Some?
    ensures var st := GloveStep(cfg, s, flags, Some(b), now);
      var pts := Added(s.track.pts, cfg.general.dynamicWindowMs, now, b.center.value);
      && st.out.raw == Some(GloveTracking) && st.out.scroll.None?
      && st.flags == flags.(mouseMoveMode := |b.fingertips| >= 2)
      && (st.out.event.Some? ==>
            && st.out.event.value in Swipes
            && Fired(cfg, st.flags, s.cool, st.s.cool, st.out.event.value, now)
            && SwipeMatches(st.out.event.value, WindowDelta(pts), cfg.general.swipeThresh)
            && st.s.track.pts == [])
      && (st.out.event.None? ==> st.s.cool == s.cool && st.s.track.pts == pts)
      && st.out.event == if flags.recognitionEnabled && SwipeReady(cfg, st.flags, s.cool, pts, now)
                         then SwipeTarget(WindowDelta(pts), cfg.general.swipeThresh) else None
  {
    var s0 := s.(track := s.track.(windowMs := cfg.general.dynamicWindowMs));
    var s1 := s0.(track := s0.track.(pts := Added(s0.track.pts, s0.track.windowMs, now, b.center.value)));
    var f1 := flags.(mouseMoveMode := |b.fingertips| >= 2);
    var st := GloveStep(cfg, s, flags, Some(b), now);
    assert s1.track.pts == Added(s.track.pts, cfg.general.dynamicWindowMs, now, b.center.value);
    if !f1.recognitionEnabled {
      assert st == Step(s1.(scroll := Stopped(s1.scroll)), f1, Output(None, Some(GloveTracking), None));
    } else {
      var p := SwipePhase(cfg, f1, Some(GloveTracking), now, s1);
      SwipePhaseFires(cfg, f1, Some(GloveTracking), now, s1);
      if p.Done? {
        assert st == Step(p.s, f1, p.out);
      } else {
        assert st == Step(p.s, f1, Output(None, Some(GloveTracking), None));
      }
    }
  }
}
