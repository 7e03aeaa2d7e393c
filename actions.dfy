/**
 * What performing a bound action does to the shared flags record: the four
 * toggles flip one flag each whatever the execution switch says; every other
 * action type leaves the flags alone and reaches the operating system only
 * while execution is enabled.
 */
module Actions {
  import opened Wrappers
  import opened JsonValues
  import opened SystemStateModel

  const ToggleRecognition := "toggle_recognition"
  const ToggleExecution := "toggle_execution"
  const ToggleCameraPreview := "toggle_camera_preview"
  const ToggleMouseMoveOutput := "toggle_mouse_move_output"

  /** The action types with an operating-system effect (keys, clicks, scrolling, programs). */
  const ExternalTypes: set<string> := {
    "scroll_v", "scroll_h_shiftwheel", "key", "hotkey", "click_left", "double_click_left",
    "click_right", "mouse_down_left", "mouse_up_left", "open_program", "shell"}

  /** What reaches the operating system. */
  datatype Effect =
    | NoEffect
    /** the left button is released after execution is switched off */
    | ReleaseLeft
    /** the input or process call of the named action type */
    | External(kind: string)

  /** `action.get("type")`; a value that is not a dict has none. */
  function ActionType(action: Json): Option<Json> {
    if action.JObj? then Get(action.entries, "type") else None
  }

  /** The attribute a toggle type flips. */
  function ToggledFlag(t: Option<Json>): Option<Attribute> {
    if t == Some(JStr(ToggleRecognition)) then Some(RecognitionEnabled)
    else if t == Some(JStr(ToggleExecution)) then Some(ExecutionEnabled)
    else if t == Some(JStr(ToggleCameraPreview)) then Some(CameraPreviewEnabled)
    else if t == Some(JStr(ToggleMouseMoveOutput)) then Some(MouseMoveOutputEnabled)
    else None
  }

  predicate IsToggle(action: Json) {
    ToggledFlag(ActionType(action)).Some?
  }

  /** The record with one attribute negated. */
  function Flip(f: Flags, a: Attribute): Flags {
    match a
      case RecognitionEnabled => f.(recognitionEnabled := !f.recognitionEnabled)
      case ExecutionEnabled => f.(executionEnabled := !f.executionEnabled)
      case CameraPreviewEnabled => f.(cameraPreviewEnabled := !f.cameraPreviewEnabled)
      case CameraDeviceEnabled => f.(cameraDeviceEnabled := !f.cameraDeviceEnabled)
      case MouseMoveOutputEnabled => f.(mouseMoveOutputEnabled := !f.mouseMoveOutputEnabled)
      case MouseMoveMode => f.(mouseMoveMode := !f.mouseMoveMode)
  }

  /** The flags after `do_action`. */
  function Applied(f: Flags, action: Json): Flags {
    if !Truthy(action) || !IsToggle(action) then f
    else Flip(f, ToggledFlag(ActionType(action)).value)
  }

  /** The argument a branch needs before it acts (`key`, `keys`, `path`, `cmd`); other types need none. */
  function NeededArgument(kind: string): Option<string> {
    if kind == "key" then Some("key")
    else if kind == "hotkey" then Some("keys")
    else if kind == "open_program" then Some("path")
    else if kind == "shell" then Some("cmd")
    else None
  }

  /** What `do_action` sends to the operating system. */
  function EffectOf(f: Flags, action: Json): Effect {
    if !Truthy(action) then NoEffect
    else if IsToggle(action) then
      if ActionType(action) == Some(JStr(ToggleExecution)) && f.executionEnabled then ReleaseLeft
      else NoEffect
    else if !f.executionEnabled then NoEffect
    else ExternalEffect(action)
  }

  /** The call a non-toggle makes while execution is enabled: none for an unknown type or a missing argument. */
  function ExternalEffect(action: Json): Effect {
    match ActionType(action)
      case Some(JStr(kind)) =>
        if kind !in ExternalTypes then NoEffect
        else if NeededArgument(kind).Some?
             && !(Get(action.entries, NeededArgument(kind).value).Some?
                  && Truthy(Get(action.entries, NeededArgument(kind).value).value)) then NoEffect
        else External(kind)
      case _ => NoEffect
  }

  /** Flipping an attribute negates it and keeps every other attribute; flipping twice restores the record. */
  lemma FlipProperties(f: Flags, a: Attribute, other: Attribute)
    ensures Field(Flip(f, a), a) == !Field(f, a)
    ensures other != a ==> Field(Flip(f, a), other) == Field(f, other)
    ensures Flip(Flip(f, a), a) == f
  {
  }

  /**
   * A toggle negates exactly its one flag, whatever the execution switch
   * says, and performing it twice restores the record.
   */
  lemma ToggleProperties(f: Flags, action: Json, other: Attribute)
    requires IsToggle(action)
    ensures var a := ToggledFlag(ActionType(action)).value;
      && Field(Applied(f, action), a) == !Field(f, a)
      && (other != a ==> Field(Applied(f, action), other) == Field(f, other))
    ensures Applied(Applied(f, action), action) == f
  {
    var a := ToggledFlag(ActionType(action)).value;
    assert Truthy(action);
    FlipProperties(f, a, other);
  }

  /**
   * A falsy action, any action that is not a toggle (including an
   * unrecognised type) leaves the flags unchanged; with execution disabled a
   * non-toggle does nothing at all, and an unrecognised type never does.
   */
  lemma NonToggleProperties(f: Flags, action: Json)
    requires !Truthy(action) || !IsToggle(action)
    ensures Applied(f, action) == f
    ensures !Truthy(action) || !f.executionEnabled ==> EffectOf(f, action) == NoEffect
    ensures (forall kind :: ActionType(action) == Some(JStr(kind)) ==> kind !in ExternalTypes)
            ==> EffectOf(f, action) == NoEffect
  {
  }

  /** `do_action` on the shared record. */
  method DoAction(action: Json, state: SystemState) returns (e: Effect)
    modifies state
    ensures state.View() == Applied(old(state.View()), action)
    ensures e == EffectOf(old(state.View()), action)
  {
    if !Truthy(action) {
      return NoEffect;
    }
    var t := ActionType(action);
    if t == Some(JStr(ToggleRecognition)) {
      state.recognitionEnabled := !state.recognitionEnabled;
      return NoEffect;
    }
    if t == Some(JStr(ToggleExecution)) {
      state.executionEnabled := !state.executionEnabled;
      if !state.executionEnabled {
        return ReleaseLeft;
      }
      return NoEffect;
    }
    if t == Some(JStr(ToggleCameraPreview)) {
      state.cameraPreviewEnabled := !state.cameraPreviewEnabled;
      return NoEffect;
    }
    if t == Some(JStr(ToggleMouseMoveOutput)) {
      state.mouseMoveOutputEnabled := !state.mouseMoveOutputEnabled;
      return NoEffect;
    }
    if !state.executionEnabled {
      return NoEffect;
    }
    e := CallExternal(action, t);
  }

  /** The branch of `do_action` for the action types that reach the operating system. */
  method CallExternal(action: Json, t: Option<Json>) returns (e: Effect)
    requires t == ActionType(action)
    ensures e == ExternalEffect(action)
  {
    e := NoEffect;
    if t.Some? && t.value.JStr? && t.value.s in ExternalTypes {
      var kind := t.value.s;
      var needed := NeededArgument(kind);
      if needed.None? {
        e := External(kind);
      } else {
        var arg := Get(action.entries, needed.value);
        if arg.Some? && Truthy(arg.value) {
          e := External(kind);
        }
      }
    }
  }
}
