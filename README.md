# Gesture control core, modelled in Dafny

This project models the deterministic core of a hand-gesture desktop
controller. A camera frame gives either 21 hand landmarks or a coloured-glove
blob. A per-frame engine turns them into at most one gesture event, a raw pose
label and an optional scroll vector. A dispatcher maps the event to an action
bound per application or globally. Performing the action may flip one of the
runtime flags. Around this sit the small data tools the controller relies on:
trajectory templates for user-recorded gestures, a runtime schema checker for
the configuration, the merge of the user's configuration file with the
factory defaults, and a helper that turns an indented text outline into
directories and files.

Structure of the model:

- Pure source code becomes datatypes, functions and lemmas:
  - `GesturePrimitives`: the landmark ratios and the static pose classifier.
  - `Trajectory`: resampling, normalisation and template distance.
  - `SchemaRuntime`: the type strings, the schema validator and the schema derived from the action catalog.
  - `ConfigMerge`: the configuration merge.
  - `EngineSpec`: every phase of the engine.
- Code that updates objects in place becomes classes whose methods are proved
  equal to those functions:
  - `DynamicTrack.TrackWindow`
  - `ScrollState.PinchScrollState`
  - `SystemStateModel.SystemState`
  - `GestureEngineModel.GestureEngine`
  - `DispatcherModel.Dispatcher`
  - `CustomGestures.CustomGestureManager`
- Loops become methods with loop invariants:
  - the eviction loop, the resampling loop, the two validator loops, the
    configuration key loop, the template scan of `match`, and the line,
    indent and stack loops of the outline parser.
- What the source promises is proved as lemmas about the functions; for the
  engine these live in module `EngineProperties`.
- The clock reading is a parameter `now` (milliseconds), and the foreground
  application is a parameter `app`.
- Euclidean lengths use an abstract `Norm`: any function that is
  non-negative, symmetric under negation and zero at the origin. The square
  root in normalisation is a parameter as well.
- JSON values are the datatype `JsonValues.Json`. A dict is an association
  list in insertion order.

## Model

| member | source | states |
|---|---|---|
| Geometry.Dist | vision/gesture_primitives.py:7-8 | the distance between two points is never negative |
| Geometry.DistSymmetric | vision/gesture_primitives.py:7-8 | distance is symmetric |
| Geometry.DistSelf | vision/gesture_primitives.py:7-8 | a point is at distance 0 from itself |
| Geometry.PathLength | vision/dynamic_track.py:29-34 | the summed segment lengths of a polyline are never negative |
| Geometry.SumVecShift | vision/trajectory.py:33-34 | moving every point by `-c` moves the sum by `-n*c` |
| GesturePrimitives.PalmWidth | vision/gesture_primitives.py:10-12 | the palm width is at least 1e-6 and is the index-to-pinky MCP distance plus 1e-6, so every ratio is defined |
| GesturePrimitives.OtherCount | vision/gesture_primitives.py:42-43 | at most four non-thumb fingers are counted |
| GesturePrimitives.FingerStates | vision/gesture_primitives.py:14-30 | a finger is extended iff its tip is strictly above its PIP joint (equal y is not extended); the thumb is extended iff tip-to-MCP distance over palm width exceeds 0.55 |
| GesturePrimitives.ClassifyFingers | vision/gesture_primitives.py:41-74 | three or more non-thumb fingers give OPEN_PALM whatever the thumb does; none give FIST or THUMBS_UP by the thumb, never no label; OK_SIGN only with a thumb-index ratio below the threshold and two of middle/ring/pinky extended; the flag combinations that give no label are characterised exactly; any label is one of the seven pose labels |
| GesturePrimitives.PinchRatio | vision/gesture_primitives.py:76-78 | the ratio is non-negative, and below 1 only when the tips are closer than a palm width |
| GesturePrimitives.CloseRatio | vision/gesture_primitives.py:80-81 | `close_ratio` equals `pinch_ratio` on the same tips |
| GesturePrimitives.PinchRatioSymmetric | vision/gesture_primitives.py:76-78 | the ratio does not depend on the order of the two tips |
| GesturePrimitives.ClassifyStatic | vision/gesture_primitives.py:32-74 | no hand gives no label; otherwise the priority chain over the finger flags and the thumb-index ratio |
| DynamicTrack.Evict | vision/dynamic_track.py:18-20 | eviction never lengthens the window |
| DynamicTrack.EvictProperties | vision/dynamic_track.py:18-20 | eviction keeps a suffix (it removes from the front only), every sample it drops is older than the cutoff, and the new front is not |
| DynamicTrack.AddKeepsNewest | vision/dynamic_track.py:15-20 | with a non-negative window the new sample is last and never evicted, and the retained older samples are a suffix of the old window in their old order |
| DynamicTrack.AddRespectsWindow | vision/dynamic_track.py:18-20 | every retained sample has `t >= now - window_ms`, so a sample exactly `window_ms` old stays |
| DynamicTrack.AddKeepsOrder | vision/dynamic_track.py:15-20 | adding a sample no older than the window's samples keeps the window in time order |
| DynamicTrack.Positions | vision/dynamic_track.py:33 | the positions are the samples' points, in order |
| DynamicTrack.LengthNonNegative | vision/dynamic_track.py:29-34 | the path length is never negative, and is 0 below two samples |
| DynamicTrack.TrackWindow.constructor | vision/dynamic_track.py:5-7 | a new window is empty with the given length |
| DynamicTrack.TrackWindow.SetWindow | vision/dynamic_track.py:9-10 | only the window length changes; nothing is evicted |
| DynamicTrack.TrackWindow.Reset | vision/dynamic_track.py:12-13 | the samples are cleared and the length kept |
| DynamicTrack.TrackWindow.Add | vision/dynamic_track.py:15-20 | the samples become the old samples plus `(now, x, y)`, evicted from the front (the loop's invariant ties it to `Evict`) |
| DynamicTrack.TrackWindow.Delta | vision/dynamic_track.py:22-27 | zero below six samples; otherwise newest minus oldest position |
| DynamicTrack.TrackWindow.Length | vision/dynamic_track.py:29-34 | never negative, and 0 below two samples |
| ScrollState.Stopped | vision/scroll_state.py:12-13 | stopping clears `active` and keeps the anchor coordinates |
| ScrollState.AnchorDelta | vision/scroll_state.py:15 | the delta added to the anchor gives the point, and it is zero exactly at the anchor |
| ScrollState.PinchScrollState.constructor | vision/scroll_state.py:2-5 | a fresh state is inactive with anchor (0, 0) |
| ScrollState.PinchScrollState.Start | vision/scroll_state.py:7-10 | the state becomes active with the given anchor |
| ScrollState.PinchScrollState.Stop | vision/scroll_state.py:12-13 | only `active` is cleared |
| ScrollState.PinchScrollState.Delta | vision/scroll_state.py:15 | the displacement from the anchor, whether or not the state is active |
| SystemStateModel.AttributeNames | control/state.py:3-18 | attribute names and attributes correspond one to one |
| SystemStateModel.FlagNamedField | control/state.py:3-18 | reading an attribute by name gives its field; a name the record lacks reads nothing |
| SystemStateModel.SystemState.constructor | control/state.py:5-18 | the defaults: everything enabled, mouse-move mode off |
| Actions.FlipProperties | control/actions.py:17-34 | a flip negates its attribute, keeps every other one, and flipping twice restores the record |
| Actions.ToggleProperties | control/actions.py:16-34 | a toggle negates exactly its one flag whatever the execution switch says, and performing it twice restores the flags |
| Actions.NonToggleProperties | control/actions.py:10-83 | a falsy or non-toggle action never changes the flags; with execution disabled it does nothing at all; an unrecognised type never reaches the operating system |
| Actions.DoAction | control/actions.py:10-38 | the flags become `Applied` of the old flags, and the effect is `EffectOf` them (a left-button release when execution is switched off) |
| Actions.CallExternal | control/actions.py:40-83 | the operating-system call of a non-toggle is made for a known type whose required argument is present |
| DispatcherModel.ResolvePrecedence | control/dispatcher.py:19-27 | a per-app binding of the foreground app wins; otherwise the global binding, or none |
| DispatcherModel.DispatchRefusals | control/dispatcher.py:29-47 | a falsy id or no binding gives `None` and changes nothing; a truthy non-dict binding raises, and only then; a non-toggle with execution disabled gives `blocked_execution`; a failed cooldown gives `None`; none of these consumes a cooldown or acts |
| DispatcherModel.DispatchFires | control/dispatcher.py:29-49 | a bound dict action that is a toggle or meets enabled execution, with its cooldown passed, is performed and returned, its own timestamp set to `now`; an action is returned only then |
| DispatcherModel.Dispatcher.constructor | control/dispatcher.py:6-9 | a new dispatcher has no firing times |
| DispatcherModel.Dispatcher.CooldownOk | control/dispatcher.py:11-17 | passes iff `now - last >= cd` with a missing key at 0, and records `now` only then |
| DispatcherModel.Dispatcher.Dispatch | control/dispatcher.py:29-49 | raises exactly when `Dispatched` does, leaving flags and firing times alone; otherwise reply, new flags, new firing times and effect are those of `Dispatched` |
| EngineSpec.GestureItemOf | vision/gesture_engine.py:66-70 | the first catalog entry with the id, or none exactly when no entry has it |
| EngineSpec.ConditionsHold | vision/gesture_engine.py:78-84 | true iff every condition naming a state attribute agrees with it |
| EngineSpec.MouseModeGestureId | vision/gesture_engine.py:86-90 | the id of the first entry used for mouse-move mode, else `V_SIGN` |
| EngineSpec.Confirm | vision/gesture_engine.py:58-64 | a repeated label increments the count and a new one restarts at 1; a label is confirmed iff it is non-empty and its count reaches `need` |
| EngineSpec.AvgSpeed | vision/gesture_engine.py:92-106 | the speed is never negative and is 0 below six samples |
| EngineSpec.Trunc | vision/gesture_engine.py:184-186 | `int()` truncates toward zero: never larger in size, less than one smaller in size, sign kept |
| EngineSpec.ScrollComponentBounded | vision/gesture_engine.py:181-186 | a component is within `±max_step`, 0 inside the deadzone, has the sign of its scaled delta, and is non-zero past the deadzone once the scaled delta reaches one step |
| EngineSpec.ScrollComponentPositive | vision/gesture_engine.py:181-186 | past the deadzone, a value of at least one step gives between 1 and `max_step` steps |
| EngineSpec.ScrollVertical | vision/gesture_engine.py:183-184 | `sv` is within `±max_step` and 0 when `abs(dy)` is inside the deadzone |
| EngineSpec.ScrollHorizontal | vision/gesture_engine.py:185-186 | `sh` is within `±max_step` and 0 when `abs(dx)` is inside the deadzone |
| EngineSpec.ScrollVerticalDownward | vision/gesture_engine.py:184 | a finger moving down never scrolls up |
| EngineSpec.ScrollVerticalUpward | vision/gesture_engine.py:184 | a finger moving up never scrolls down |
| EngineSpec.ScrollHorizontalDirection | vision/gesture_engine.py:186 | `sh` has the sign of `dx` |
| EngineSpec.TailPhase | vision/gesture_engine.py:240-272 | the static, swipe and unknown phases always end the frame |
| EngineSpec.Recognise | vision/gesture_engine.py:156-272 | recognition always ends the frame with an output |
| EngineProperties.EventIdsDistinct | vision/gesture_engine.py:197-268 | click, unknown and swipe ids are distinct from each other and from the pose labels |
| EngineProperties.ScrollPhaseCooling | vision/gesture_engine.py:169-190 | pinch-scroll ends the frame iff the thumb-index pinch holds on a declared, enabled `PINCH_SCROLL`; it then keeps or sets the anchor at the index tip and reports the vector from it, touching no cooldown |
| EngineProperties.RightClickCooling | vision/gesture_engine.py:197-212 | the right click fires iff declared, enabled, pinched, not already down, held `click_hold_frames` frames and out of cooldown; only its own fields and cooldown change |
| EngineProperties.DoubleClickCooling | vision/gesture_engine.py:215-231 | likewise, an iff, for the double click on index and middle tips held close |
| EngineProperties.ClickPhaseCooling | vision/gesture_engine.py:193-238 | disallowed clicks reset all four edge and hold fields; any click fires only when allowed, on its edge |
| EngineProperties.CompositeCooling | vision/gesture_engine.py:156-238 | the three-finger pinch stops scrolling and holds both edges down; a scroll vector comes without an event; each click fires on its edge only |
| EngineProperties.StaticPhaseCooling | vision/gesture_engine.py:240-244 | the confirmed label fires iff it is declared, enabled and out of cooldown, stamping only its own entry |
| EngineProperties.SwipeTarget | vision/gesture_engine.py:246-252 | the swipe a window displacement calls for: horizontal first, then vertical; none exactly when no swipe direction matches |
| EngineProperties.SwipeTargetExamples | vision/gesture_engine.py:246-252 | with threshold 80: (150, 10) is SWIPE_RIGHT, (-150, 10) SWIPE_LEFT, (10, -150) SWIPE_UP, (50, 10) none |
| EngineProperties.SwipePhaseFires | vision/gesture_engine.py:246-258 | a swipe fires iff the window calls for one (`SwipeTarget`) that is declared, enabled and out of cooldown; it fires that swipe, empties the window and stamps its own cooldown; otherwise the state is untouched |
| EngineProperties.UnknownPhaseCooling | vision/gesture_engine.py:260-270 | UNKNOWN fires iff the frame is unclassified for long enough with UNKNOWN declared, enabled and out of cooldown, restarting the streak |
| EngineProperties.TailPhaseCooling | vision/gesture_engine.py:240-272 | the tail emits a pose label, a swipe or UNKNOWN, never a scroll vector, and keeps streak, anchor and click fields |
| EngineProperties.RecogniseProps | vision/gesture_engine.py:156-272 | at most one event per frame, never with a scroll vector, and each event stamps its own cooldown only |
| EngineProperties.RecogniseComposites | vision/gesture_engine.py:156-238 | the scroll, click and three-finger guarantees hold for the whole recognition |
| EngineProperties.TailPhaseChoice | vision/gesture_engine.py:240-272 | the tail fires the static label if ready, else the swipe if ready, else UNKNOWN if ready, else nothing |
| EngineProperties.RecogniseChoice | vision/gesture_engine.py:156-272 | recognition fires exactly the event `ExpectedEvent` picks in phase priority, and a scroll vector exactly when pinch-scroll takes the frame outside the three-finger pinch |
| EngineProperties.RecogniseScroll | vision/gesture_engine.py:169-190 | pinch-scroll outside the three-finger pinch ends recognition with the kept or new anchor and its vector |
| EngineSpec.ScrollUpward | vision/gesture_engine.py:181-184 | a finger risen past the deadzone by at least one step scrolls up, by at most the maximum step |
| EngineProperties.TrailingRun | vision/gesture_engine.py:58-64 | the length of the final run of equal labels |
| EngineProperties.ConfirmAllStreak | vision/gesture_engine.py:58-64 | after any sequence of labels the streak is the last label and its final run length |
| EngineProperties.DebounceConfirms | vision/gesture_engine.py:58-64 | a label is confirmed iff it is non-empty and was the raw label of the last `need` frames; `None` is never confirmed |
| EngineProperties.HandFrameFields | vision/gesture_engine.py:110-147 | before recognition a hand frame changes only the window and streak, and its signals are the landmark ratios against their thresholds, the stillness of the window and the debounced label |
| EngineProperties.BareStepNoHand | vision/gesture_engine.py:123-131 | no hand: (None, None, None); scroll stopped, window emptied, unknown, edges and holds zeroed; debounce and cooldowns untouched |
| EngineProperties.BareStepObserves | vision/gesture_engine.py:133-142 | the raw label is reported, the debounce advances, and only mouse-move mode is written, true iff the confirmed label is the mouse-mode id |
| EngineProperties.BareStepWindow | vision/gesture_engine.py:110-134 | the window takes the configured length and, unless a swipe emptied it, holds the last window of index-tip samples |
| EngineProperties.BareStepRecognitionOff | vision/gesture_engine.py:144-147 | recognition off: (None, raw, None), scroll inactive, unknown count 0, cooldowns and clicks unchanged |
| EngineProperties.BareStepCooldown | vision/gesture_engine.py:50-56 | every event was declared, enabled and out of cooldown, and stamps its own entry only; no event, no change; with a hand and recognition on, the event is exactly `ExpectedEvent`, so a ready event fires |
| EngineProperties.BareStepScroll | vision/gesture_engine.py:169-188 | a scroll vector comes iff recognition is on and a thumb-index pinch without the middle finger holds on a declared, enabled `PINCH_SCROLL`; it has no event, each part bounded, 0 in the deadzone, `sv` against `dy` and `sh` along `dx` |
| EngineProperties.BareStepThreePinch | vision/gesture_engine.py:157-167 | the three-finger pinch gives no scroll and no click, stops scrolling and holds both edges down with zero holds |
| EngineProperties.BareStepClicks | vision/gesture_engine.py:149-231 | each click needs a still and slow hand, its own pinch or closeness, and a rising edge after enough held frames; conversely, on a still hand outside pinch-scroll, a declared, enabled, ready click fires |
| EngineProperties.ClickNotRepeated | vision/gesture_engine.py:201-225 | an edge already down cannot fire its click again |
| EngineProperties.BareStepClickGate | vision/gesture_engine.py:149-154 | a moving or fast hand fires no click and resets all four edge and hold fields |
| EngineProperties.BareStepSwipe | vision/gesture_engine.py:246-258 | a swipe matches the dominant axis of the window, index tip included, and empties it; when no composite or static label takes the frame, a ready swipe fires as `SwipeTarget` says |
| EngineProperties.BareStepChoice | vision/gesture_engine.py:133-272 | a hand frame fires `ExpectedEvent` of its observed frame when recognition is on, none otherwise, and scrolls exactly when pinch-scroll takes it |
| EngineProperties.BareStepScrollFires | vision/gesture_engine.py:169-188 | the thumb-index pinch on a declared, enabled `PINCH_SCROLL` scrolls by the displacement from the kept or new anchor, with no event |
| EngineProperties.BareStepScrollUp | vision/gesture_engine.py:169-188 | holding that pinch while the index tip rises past the deadzone by a step gives `0 < sv <= max_step` |
| EngineProperties.BareStepStaticRefire | vision/gesture_engine.py:50-56 | after a static label fires at `now`, a later frame confirming it again, with no composite taking it, fires it iff its cooldown has elapsed |
| EngineProperties.GloveStepNoBlob | vision/gesture_engine.py:280-283 | no blob centre: (None, None, None), scroll stopped, window emptied, flags untouched |
| EngineProperties.GloveStepTracks | vision/gesture_engine.py:285-305 | the raw label is GLOVE_TRACKING, mouse-move mode follows "two or more fingertips", no scroll vector, and the event is exactly the ready swipe `SwipeTarget` picks, none otherwise |
| GestureEngineModel.GestureEngine.constructor | vision/gesture_engine.py:28-45 | a new engine has no streak, no cooldowns, an inactive anchor, an empty 450 ms window and cleared counters |
| GestureEngineModel.GestureEngine.CooldownOk | vision/gesture_engine.py:50-56 | passes iff `now - last >= cd`, a missing key counting as 0; records `now` only then, and changes nothing else |
| GestureEngineModel.GestureEngine.StableConfirm | vision/gesture_engine.py:58-64 | the streak and the answer are those of `Confirm` |
| GestureEngineModel.GestureEngine.ItemOf | vision/gesture_engine.py:66-70 | the scan returns `GestureItemOf` |
| GestureEngineModel.GestureEngine.ParamOf | vision/gesture_engine.py:72-76 | the entry's parameter, else the default |
| GestureEngineModel.GestureEngine.EnableWhenOk | vision/gesture_engine.py:78-84 | the loop returns `EnableOk` on the current flags |
| GestureEngineModel.GestureEngine.Declared | vision/gesture_engine.py:170 | declared in the catalog and enabled |
| GestureEngineModel.GestureEngine.MouseModeId | vision/gesture_engine.py:86-90 | the scan returns `MouseModeGestureId` |
| GestureEngineModel.GestureEngine.ScrollStep | vision/gesture_engine.py:169-190 | the fields and output of `ScrollPhase` |
| GestureEngineModel.GestureEngine.RightClickStep | vision/gesture_engine.py:197-212 | the fields and output of `RightClickPhase` |
| GestureEngineModel.GestureEngine.DoubleClickStep | vision/gesture_engine.py:215-231 | the fields and output of `DoubleClickPhase` |
| GestureEngineModel.GestureEngine.CompositeStep | vision/gesture_engine.py:156-238 | the fields and output of `CompositePhase` |
| GestureEngineModel.GestureEngine.StaticStep | vision/gesture_engine.py:240-244 | the fields and output of `StaticPhase` |
| GestureEngineModel.GestureEngine.TrySwipeStep | vision/gesture_engine.py:249-252 | the fields and output of `TrySwipe` |
| GestureEngineModel.GestureEngine.SwipeStep | vision/gesture_engine.py:246-258 | the fields and output of `SwipePhase` |
| GestureEngineModel.GestureEngine.UnknownStep | vision/gesture_engine.py:260-270 | the fields and output of `UnknownPhase` |
| GestureEngineModel.GestureEngine.TailStep | vision/gesture_engine.py:240-272 | the fields and output of `TailPhase` |
| GestureEngineModel.GestureEngine.ObserveStep | vision/gesture_engine.py:133-142 | the fields, flags and frame of `Observe` |
| GestureEngineModel.GestureEngine.RecogniseStep | vision/gesture_engine.py:149-272 | the fields and output of `Recognise` |
| GestureEngineModel.GestureEngine.UpdateBare | vision/gesture_engine.py:108-272 | the new fields, flags and output are those of `BareStep` |
| GestureEngineModel.GestureEngine.HandStep | vision/gesture_engine.py:133-272 | the new fields, flags and output are those of `HandSeen` |
| GestureEngineModel.GestureEngine.UpdateGlove | vision/gesture_engine.py:274-305 | the new fields, flags and output are those of `GloveStep` |
| GestureEngineModel.GestureEngine.GloveTrack | vision/gesture_engine.py:285-305 | the new fields, flags and output are those of `GloveTracked` |
| Trajectory.ArcLengths | vision/trajectory.py:7-10 | the cumulative arc lengths start at 0, never decrease, and end at the path length |
| Trajectory.Target | vision/trajectory.py:14 | the evenly spaced targets run from 0 to the total |
| Trajectory.TargetMonotone | vision/trajectory.py:14 | the targets increase and stay within [0, total] |
| Trajectory.Advance | vision/trajectory.py:16-21 | the index never decreases and stays in [0, len(s) - 2], so `pts[j+1]` is in range; it stops at the first breakpoint not below the target |
| Trajectory.ResampleFrom | vision/trajectory.py:14-27 | one output point per remaining target |
| Trajectory.AdvanceResume | vision/trajectory.py:16-21 | resuming the scan anywhere before its stopping point stops at the same place |
| Trajectory.AdvanceMonotone | vision/trajectory.py:16-21 | a later target never stops at an earlier segment |
| Trajectory.CarriedScan | vision/trajectory.py:15-21 | carrying `j` from one target to the next finds the segment a fresh scan finds |
| Trajectory.ResampleFromPointwise | vision/trajectory.py:14-27 | each output point is the point at its target arc length |
| Trajectory.ResampleProperties | vision/trajectory.py:3-27 | `None` exactly for a missing or one-point input; otherwise n points, the first being the input's first point |
| Trajectory.ResampleDegenerate | vision/trajectory.py:11-12 | a polyline shorter than 1e-6 gives n copies of its first point |
| Trajectory.ResampleEvenlySpaced | vision/trajectory.py:14-27 | otherwise output k is the point at arc length k * total / (n - 1) |
| Trajectory.FirstPoint | vision/trajectory.py:16-27 | at arc length 0 the interpolation gives the first point |
| Trajectory.AdvanceScan | vision/trajectory.py:19-20 | the inner `while` stops where `Advance` does |
| Trajectory.ResamplePolyline | vision/trajectory.py:3-27 | the loop's result is `Resample` |
| Trajectory.Shift | vision/trajectory.py:33-34 | every point moved by `-c` |
| Trajectory.Shrink | vision/trajectory.py:35-38 | every point divided by `k` |
| Trajectory.SumVecScale | vision/trajectory.py:38 | scaling every point scales the sum |
| Trajectory.CentredSumsToOrigin | vision/trajectory.py:33-34 | after centring the points sum to the origin |
| Trajectory.ShrinkSum | vision/trajectory.py:38 | dividing every point by k divides the sum by k |
| Trajectory.NormalizeProperties | vision/trajectory.py:29-39 | `None` exactly when resampling fails; otherwise n points centred on the origin, divided by the root-mean-square radius, or only centred when that is below 1e-6 |
| Trajectory.SumSqNonNegative | vision/trajectory.py:35 | the summed squared radii are never negative |
| Trajectory.SqNormShrink | vision/trajectory.py:38 | dividing a point by `k` divides its squared radius by `k * k` |
| Trajectory.SumSqShrink | vision/trajectory.py:35-38 | dividing every point by `k` divides the summed squared radii by `k * k` |
| Trajectory.MeanSqNonNegative | vision/trajectory.py:35 | the mean squared radius is never negative |
| Trajectory.ShrinkUnitSpread | vision/trajectory.py:35-38 | dividing by the root-mean-square radius leaves a mean squared radius of 1 |
| Trajectory.NormalizeUnitSpread | vision/trajectory.py:29-39 | with a true square root, a normalised trajectory whose spread reaches 1e-6 has mean squared radius exactly 1, whatever its original size |
| Trajectory.SumDist | vision/trajectory.py:43 | the summed point-wise distance is never negative |
| Trajectory.TemplateDistance | vision/trajectory.py:41-43 | never negative; the 1e9 sentinel when either side is missing or the lengths differ |
| Trajectory.SumDistSelf | vision/trajectory.py:43 | a polyline's summed distance to itself is 0 |
| Trajectory.SumDistSymmetric | vision/trajectory.py:43 | the summed distance is symmetric |
| Trajectory.TemplateDistanceProperties | vision/trajectory.py:41-43 | a template is at distance 0 from itself, and the distance is symmetric |
| CustomGestures.Collected | vision/custom_gestures.py:15-21 | the loop collects at most one id per entry |
| CustomGestures.KeepTruthy | vision/custom_gestures.py:22 | the comprehension keeps at most every id |
| CustomGestures.KeepTruthyMembership | vision/custom_gestures.py:22 | a name is kept iff it is non-empty and present |
| CustomGestures.CollectedMembership | vision/custom_gestures.py:15-21 | an id is collected iff some listed entry carries it |
| CustomGestures.ListedIdsMembership | vision/custom_gestures.py:14-22 | a name is listed iff a template entry whose mode matches (or any mode, for a falsy mode) carries it as a non-empty id |
| CustomGestures.KeepTruthyAppend | vision/custom_gestures.py:22 | filtering keeps the order of the ids |
| CustomGestures.ListedIdsAppend | vision/custom_gestures.py:14-22 | listing distributes over concatenation, so ids keep the list's order |
| CustomGestures.CollectedAppend | vision/custom_gestures.py:15-21 | collecting distributes over concatenation |
| CustomGestures.Without | vision/custom_gestures.py:30 | removal never lengthens the list |
| CustomGestures.Rows | vision/custom_gestures.py:28 | one `[x, y]` row per point |
| CustomGestures.WithoutProperties | vision/custom_gestures.py:30 | exactly the entries with another id remain |
| CustomGestures.WithoutAppend | vision/custom_gestures.py:30 | removal keeps the relative order of the other entries |
| CustomGestures.UpsertedProperties | vision/custom_gestures.py:28-31 | after an upsert exactly one entry has the id, it is last and holds the template, and every other entry is kept |
| CustomGestures.Points | vision/custom_gestures.py:46-47 | a (64, 2) template reads back as 64 points |
| CustomGestures.RowsRoundTrip | vision/custom_gestures.py:28-47 | a stored 64-point template reads back as the points it was made from |
| CustomGestures.BestIsFirstMinimum | vision/custom_gestures.py:39-52 | the best distance is at most every candidate's; below the sentinel it is that of the first candidate attaining it, whose id is chosen |
| CustomGestures.BestOfFirstMinimum | vision/custom_gestures.py:39-52 | the scan ends on the first candidate at the least distance, unless that distance does not beat the 1e9 sentinel |
| CustomGestures.MatchProperties | vision/custom_gestures.py:34-56 | `None` when normalisation fails or nothing competes; a match has distance at most the threshold, the least over the candidates (type, mode and shape filtered), with the first such candidate's id; conversely the first nearest candidate is returned whenever it has an id and its distance is within the threshold and below 1e9 |
| CustomGestures.CustomGestureManager.constructor | vision/custom_gestures.py:10-12 | an absent list is created empty; an existing one is kept |
| CustomGestures.CustomGestureManager.ListIds | vision/custom_gestures.py:14-22 | the loop returns `ListedIds` |
| CustomGestures.CustomGestureManager.AddTemplate | vision/custom_gestures.py:24-32 | false and no change when normalisation fails; otherwise true with the list upserted |
| CustomGestures.CustomGestureManager.Match | vision/custom_gestures.py:34-56 | the scan returns `MatchResult` |
| JsonValues.Keys | config_io.py:241 | the keys of a dict, in order |
| JsonValues.Get | config_io.py:241 | a key is found iff present, with its stored value |
| JsonValues.PutGet | config_io.py:241 | after `d[k] = v`, `k` maps to `v` and every other key keeps its value |
| JsonValues.PutKeys | config_io.py:241 | an existing key keeps its place; a new key goes last |
| JsonValues.PutDistinct | config_io.py:241 | assignment keeps keys distinct |
| JsonValues.UpdateGet | config_io.py:241 | after `d.update(u)` a key of `u` has `u`'s value and every other key its old value |
| JsonValues.UpdateKeys | config_io.py:241 | after `d.update(u)` the keys are those of `d` and of `u` |
| JsonValues.UpdateDistinct | config_io.py:241 | updating keeps keys distinct |
| ConfigMerge.MergeGeneralProperties | config_io.py:235-242 | every default key is present, user values override, user-only keys are kept, and a non-dict user value yields the defaults |
| ConfigMerge.FillAsWrittenGet | config_io.py:269-273 | as written, each section key holds the user's value or the default's `get`, null when absent |
| ConfigMerge.FillGet | config_io.py:269-273 | corrected, each section key holds the user's value, else the default's, else stays unset |
| ConfigMerge.SetDefaultGet | config_io.py:276-282 | `setdefault` adds a key only when it is absent |
| ConfigMerge.AppendGet | config_io.py:241 | looking up in an extended dict |
| ConfigMerge.SkeletonProperties | config_io.py:276-278 | the bindings hold `global` and `per_app` and keep every existing entry |
| ConfigMerge.FinishProperties | config_io.py:276-282 | the closing calls fail iff the bindings are not a dict; otherwise the bindings get the skeleton, other keys keep their values, and absent list sections become empty lists |
| ConfigMerge.CustomGesturesNullAsWritten | config_io.py:269-282 | as written, an empty user file leaves `custom_gestures` and `glove` null |
| ConfigMerge.FilledGet | config_io.py:263-273 | before the closing calls, `general` is the merged section and each section key is the chosen section |
| ConfigMerge.LoadMergeFails | config_io.py:263-282 | the merge fails iff the user's bindings are present and not a dict |
| ConfigMerge.LoadMergeSections | config_io.py:263-273 | `general` is merged, and every section the user has is taken whole |
| ConfigMerge.LoadMergeCatalogs | config_io.py:269-282 | a catalog the user lacks is the default's, or an empty list |
| ConfigMerge.DefaultConfigLacks | config_io.py:9-233 | the factory configuration has dict bindings and no `custom_gestures` or `glove` |
| ConfigMerge.LoadMergeCustomGestures | config_io.py:269-282 | `custom_gestures` is an empty list when neither side has it |
| ConfigMerge.LoadMergeGlove | config_io.py:269-273 | `glove` stays absent when neither side has it |
| ConfigMerge.LoadMergeGeneralComplete | config_io.py:266 | every default `general` key is present whatever the user's file holds |
| ConfigMerge.LoadMergeBindings | config_io.py:269-278 | the bindings are the user's dict, else the default's, with `global` and `per_app` present and every entry kept |
| ConfigMerge.LoadConfigMerge | config_io.py:263-284 | the key loop and closing calls compute the corrected merge `LoadMerge`, not lines 269-273 as written (see Findings; `LoadMergeAsWritten` is the program as written) |
| SchemaRuntime.IsTypeBasics | config/schema_runtime.py:12-30 | `int` rejects booleans; `float` accepts ints and floats but not booleans; an unknown type string accepts everything |
| SchemaRuntime.ListTypeElements | config/schema_runtime.py:25-29 | `list[T]` holds iff the value is a list whose every element is a `T`, recursively |
| SchemaRuntime.ListTypeAppend | config/schema_runtime.py:25-29 | a list of `T` splits into lists of `T` |
| SchemaRuntime.MissingErrorsExact | config/schema_runtime.py:52-54 | one missing error at `path.key` per absent required key and no other |
| SchemaRuntime.MissingErrorsAppend | config/schema_runtime.py:52-54 | missing errors follow the required list's order |
| SchemaRuntime.MissingErrorsEmpty | config/schema_runtime.py:52-54 | no missing error iff every required key is present |
| SchemaRuntime.FieldErrorsEmpty | config/schema_runtime.py:56-66 | no field error iff every entry has its declared type and is declared when the schema is closed |
| SchemaRuntime.ErrorsEmptyIff | config/schema_runtime.py:32-66 | a non-dict gives exactly one error at `path`; a dict gives none iff all three conditions hold |
| SchemaRuntime.ValidateObject | config/schema_runtime.py:32-66 | the function returns `Errors` |
| SchemaRuntime.MissingLoop | config/schema_runtime.py:52-54 | the first loop returns `MissingErrors` |
| SchemaRuntime.FieldLoop | config/schema_runtime.py:56-66 | the second loop returns `FieldErrors` |
| SchemaRuntime.PropsOfLookup | config/schema_runtime.py:76-77 | the comprehension declares exactly the shorthand keys, each with its own value's type |
| SchemaRuntime.ActionSchemaProperties | config/schema_runtime.py:68-80 | `None` iff no entry has the type; otherwise the schema of the first such entry |
| SchemaRuntime.SchemaOfProperties | config/schema_runtime.py:72-80 | the derived schema is closed, requires exactly its declared keys, and types each as the shorthand says |
| CreateStructure.LeadingWhitespace | CreateFileAndDirByText.py:47 | the leading whitespace run stops at the first non-space |
| CreateStructure.TrailingWhitespace | CreateFileAndDirByText.py:47 | the trailing whitespace run stops at the last non-space |
| CreateStructure.LeadingWhitespaceRun | CreateFileAndDirByText.py:47 | every character of the leading run is whitespace |
| CreateStructure.TrailingWhitespaceRun | CreateFileAndDirByText.py:47 | every character of the trailing run is whitespace |
| CreateStructure.StripEnds | CreateFileAndDirByText.py:47 | stripped text neither starts nor ends with whitespace |
| CreateStructure.SliceOfSuffix | CreateFileAndDirByText.py:47 | a slice of a suffix is the slice of the text at the shifted offsets |
| CreateStructure.StripSlice | CreateFileAndDirByText.py:47 | stripping keeps the slice between the whitespace runs |
| CreateStructure.StripEmpty | CreateFileAndDirByText.py:33-34 | a line strips to nothing iff it is all whitespace |
| CreateStructure.SplitLines | CreateFileAndDirByText.py:22 | splitting gives at least one piece and no piece holds a newline |
| CreateStructure.JoinExtendLast | CreateFileAndDirByText.py:22 | extending the last piece extends the joined text |
| CreateStructure.JoinNewPiece | CreateFileAndDirByText.py:22 | a new empty piece adds a newline |
| CreateStructure.SplitJoin | CreateFileAndDirByText.py:22 | the pieces rejoin to the text |
| CreateStructure.SplitSingle | CreateFileAndDirByText.py:22 | a text without a newline splits into itself alone |
| CreateStructure.LeadingSpaces | CreateFileAndDirByText.py:37-42 | the count of leading `' '` characters; tabs do not count |
| CreateStructure.RStripSlash | CreateFileAndDirByText.py:60 | a prefix with no trailing `/`, only slashes removed |
| CreateStructure.PathJoin | CreateFileAndDirByText.py:59-72 | an absolute name replaces the base; otherwise the base then the name |
| CreateStructure.SlashEnd | CreateFileAndDirByText.py:75 | the position just after the last `/`, 0 exactly when there is none |
| CreateStructure.Dirname | CreateFileAndDirByText.py:75 | `os.path.dirname`: empty exactly when the path has no `/`; otherwise a non-empty prefix of the path |
| CreateStructure.Popped | CreateFileAndDirByText.py:51-53 | both stacks are popped together until at most `level` indents remain |
| CreateStructure.PoppedTo | CreateFileAndDirByText.py:51-56 | popping keeps the first `k` indents and `k + 1` paths, `k` the smaller of the level and the depth, and the current path is `paths[k]` |
| CreateStructure.RunFrom | CreateFileAndDirByText.py:31-72 | the path stack stays one longer than the indent stack with the base at the bottom (the operations are counted by `RunCount`) |
| CreateStructure.PlaceShape | CreateFileAndDirByText.py:51-69 | one line keeps the stack invariant |
| CreateStructure.PlaceItemProperties | CreateFileAndDirByText.py:51-78 | pop to the level; a directory is joined without trailing slashes, made and pushed; a file is joined, its parent directory made when the joined path has one, then the file created, and never pushed |
| CreateStructure.PlaceProperties | CreateFileAndDirByText.py:33-47 | a blank line changes nothing; any other sits at half its leading spaces, rounded down |
| CreateStructure.PlaceItemChained | CreateFileAndDirByText.py:59-69 | every pushed path is its parent joined with a name |
| CreateStructure.PlaceChained | CreateFileAndDirByText.py:31-72 | one line keeps the stack chained |
| CreateStructure.RunChained | CreateFileAndDirByText.py:31-72 | all lines keep the stack chained |
| CreateStructure.NonBlankStep | CreateFileAndDirByText.py:33-34 | the non-blank positions from `n` on |
| CreateStructure.FileLinesStep | CreateFileAndDirByText.py:70-78 | the file lines from `n` on are those from `n + 1` on, plus `n` when it is one |
| CreateStructure.PlaceNonEmpty | CreateFileAndDirByText.py:59-72 | joining below a non-empty path keeps every path non-empty |
| CreateStructure.PlaceCount | CreateFileAndDirByText.py:33-78 | below non-empty paths, a blank line issues no operation, a directory line one, a file line two (its parent, then the file) |
| CreateStructure.RunCount | CreateFileAndDirByText.py:31-78 | below non-empty paths, one operation per non-blank line plus one per file line |
| CreateStructure.ParseProperties | CreateFileAndDirByText.py:14-78 | an empty base path fails; otherwise the base directory first, then one operation per non-blank line plus a parent directory per file line; the stacks keep the base at the bottom, chained |
| CreateStructure.CountLeadingSpaces | CreateFileAndDirByText.py:37-42 | the counting loop returns `LeadingSpaces` |
| CreateStructure.PopTo | CreateFileAndDirByText.py:51-53 | the popping loop returns `Popped` |
| CreateStructure.RunFromStep | CreateFileAndDirByText.py:31-72 | running from a line is placing it, then running on |
| CreateStructure.PlaceLine | CreateFileAndDirByText.py:33-72 | one pass of the loop body computes `Place` |
| CreateStructure.PlaceContent | CreateFileAndDirByText.py:51-78 | a non-blank line computes `PlaceItem`, parent directory of a file included |
| CreateStructure.RunLines | CreateFileAndDirByText.py:31-78 | the line loop issues the operations of `RunFrom` from the base |
| CreateStructure.ParseStructure | CreateFileAndDirByText.py:14-78 | `None` for an empty base path; otherwise the operations of `Parse` |

## Left out

- Camera capture, landmark detection, glove segmentation, the GUI, the mouse worker thread and the application bootstrap are not part of this model.
- The clock is the parameter `now`. The foreground application name is the parameter `app`.
- Floating point is modelled as `real`; rounding and `float32` are not modelled.
- Euclidean distance is any `Norm`, and the square root in `normalize_trajectory` is a parameter `sqrt`.
- EngineSpec.AvgSpeed: the source's explicit `** 0.5` distance is the abstract norm.
- The `int()` truncation of scroll amounts is modelled as truncation toward zero.
- EngineSpec.BareStep: the engine's `g.get(...)` lookups with defaults are one already-defaulted `Settings` record. Likewise the `int()`/`float()` conversions of settings.
- EngineSpec.BareStep: `classify_static` is called with its declared parameters. The call at vision/gesture_engine.py:137 passes a `rules_cfg` keyword the function does not accept, and the `finger_rules` setting it reads is not modelled.
- Gesture catalog entries keep only the fields the engine reads: id, `default_use`, `enable_when` (as name and boolean pairs) and integer parameters.
- Actions.DoAction: the operating-system calls (keys, clicks, scrolling, programs, shell) are an `Effect` value naming the action type. Their arguments and the exceptions they may raise are not modelled.
- Actions.DoAction: a dict with no `type` performs nothing. A truthy non-dict binding is caught earlier by `dispatch`, which raises (`DispatcherModel.AttributeError`).
- DispatcherModel.Dispatched: the raise is an outcome that changes nothing; the exception's propagation to the caller is not modelled.
- Trajectory.Resample: with `n = 0` and a path longer than 1e-6, the source's `np.stack([])` raises ValueError; the model returns the empty list. The callers always pass 64.
- Trajectory.TemplateDistance: two empty templates give 0, where the source's `mean` of an empty array gives NaN.
- CustomGestures: entries are records with optional `id`, `mode` and `type` and a list of rows. Non-string ids and modes are not modelled.
- ConfigMerge: the user file is taken to hold a dict. Reading, writing and creating the file (`save_config`, the first-run branch) are not modelled. The factory catalogs' contents are not modelled.
- SchemaRuntime.TypeName: a truthy shorthand type that is not a string is modelled as no type (no check), whereas the source stores it and `_is_type` raises AttributeError at `t.startswith` (config/schema_runtime.py:25) when a field of that key is validated.
- SchemaRuntime.Shorthand: a truthy `schema` value that is not a dict is modelled as the empty shorthand, whereas `simple.items()` raises AttributeError (config/schema_runtime.py:73).
- SchemaRuntime: `ENABLE_WHEN_SCHEMA` and `GESTURE_PARAMS_SCHEMA` are constants the validator is applied to; they are not modelled.
- CreateStructure: `os.makedirs`, `open`, printing, `input` and `print_structure_tree` become the emitted list of `MakeDir`/`CreateFile` operations.
- CreateStructure.PathJoin: `os.path.join` is modelled with POSIX separators.
- CreateStructure.PlaceItem: the existence check before the parent `os.makedirs` (line 76) is dropped, since `exist_ok=True` makes the call a no-op on an existing directory; a path that exists as a file, on which `os.makedirs` raises, is not modelled.
- CreateStructure.PlaceItem: `CreateFile` means "create the file if it does not exist" (line 81); the file system's prior contents are not modelled.
- CreateStructure.IsSpace: `str.strip` whitespace is listed by code point; Unicode normalisation is not modelled.

## Findings

| source | as written | input that shows it | evidently intended | confidence | as-written member | corrected member |
|---|---|---|---|---|---|---|
| config_io.py:269-282 | for a section the user file lacks, the loop stores `deepcopy(DEFAULT_CONFIG.get(key))`, which is `None` for `glove` and `custom_gestures`; the later `setdefault("custom_gestures", [])` then sees the key and keeps `None` | a user file holding `{}` | `custom_gestures` is an empty list and `glove` is absent, as the closing `setdefault` calls and the docstring promise | not executed | ConfigMerge.CustomGesturesNullAsWritten | ConfigMerge.LoadMergeCustomGestures |

`ConfigMerge.LoadMergeAsWritten` is `load_config` as written. `ConfigMerge.LoadMerge` is the corrected merge. The method `ConfigMerge.LoadConfigMerge` implements the corrected merge: a section neither side has stays unset rather than becoming null.
