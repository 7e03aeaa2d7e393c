/** The shared runtime flags record. */
module SystemStateModel {
  import opened Wrappers

  /** Value view of the six flags. */
  datatype Flags = Flags(
    recognitionEnabled: bool,
    executionEnabled: bool,
    cameraPreviewEnabled: bool,
    cameraDeviceEnabled: bool,
    mouseMoveOutputEnabled: bool,
    mouseMoveMode: bool)

  const DefaultFlags := Flags(true, true, true, true, true, false)

  /** The record's six attributes. */
  datatype Attribute =
    | RecognitionEnabled | ExecutionEnabled | CameraPreviewEnabled
    | CameraDeviceEnabled | MouseMoveOutputEnabled | MouseMoveMode

  /** The attribute's name on the record. */
  function AttributeName(a: Attribute): string {
    match a
      case RecognitionEnabled => "recognition_enabled"
      case ExecutionEnabled => "execution_enabled"
      case CameraPreviewEnabled => "camera_preview_enabled"
      case CameraDeviceEnabled => "camera_device_enabled"
      case MouseMoveOutputEnabled => "mouse_move_output_enabled"
      case MouseMoveMode => "mouse_move_mode"
  }

  /** The attribute a name denotes; `None` when the record has no such attribute. */
  function AttributeNamed(name: string): Option<Attribute> {
    if name == "recognition_enabled" then Some(RecognitionEnabled)
    else if name == "execution_enabled" then Some(ExecutionEnabled)
    else if name == "camera_preview_enabled" then Some(CameraPreviewEnabled)
    else if name == "camera_device_enabled" then Some(CameraDeviceEnabled)
    else if name == "mouse_move_output_enabled" then Some(MouseMoveOutputEnabled)
    else if name == "mouse_move_mode" then Some(MouseMoveMode)
    else None
  }

  /** Names and attributes correspond one to one. */
  lemma AttributeNames(a: Attribute, name: string)
    ensures AttributeNamed(AttributeName(a)) == Some(a)
    ensures AttributeNamed(name) == Some(a) <==> name == AttributeName(a)
  {
  }

  function Field(f: Flags, a: Attribute): bool {
    match a
      case RecognitionEnabled => f.recognitionEnabled
      case ExecutionEnabled => f.executionEnabled
      case CameraPreviewEnabled => f.cameraPreviewEnabled
      case CameraDeviceEnabled => f.cameraDeviceEnabled
      case MouseMoveOutputEnabled => f.mouseMoveOutputEnabled
      case MouseMoveMode => f.mouseMoveMode
  }

  /** `getattr(state, name)` for the record's fields; `None` when there is no such attribute. */
  function FlagNamed(f: Flags, name: string): Option<bool> {
    match AttributeNamed(name)
      case Some(a) => Some(Field(f, a))
      case None => None
  }

  /** Reading an attribute by its name gives its field; any other name reads nothing. */
  lemma FlagNamedField(f: Flags, a: Attribute, name: string)
    ensures FlagNamed(f, AttributeName(a)) == Some(Field(f, a))
    ensures FlagNamed(f, name).Some? <==> AttributeNamed(name).Some?
  {
    AttributeNames(a, name);
  }

  class SystemState {
    var recognitionEnabled: bool
    var executionEnabled: bool
    var cameraPreviewEnabled: bool
    var cameraDeviceEnabled: bool
    var mouseMoveOutputEnabled: bool
    var mouseMoveMode: bool

    function View(): Flags
      reads this
    {
      Flags(recognitionEnabled, executionEnabled, cameraPreviewEnabled,
            cameraDeviceEnabled, mouseMoveOutputEnabled, mouseMoveMode)
    }

    constructor ()
      ensures View() == DefaultFlags
    {
      recognitionEnabled, executionEnabled, cameraPreviewEnabled := true, true, true;
      cameraDeviceEnabled, mouseMoveOutputEnabled, mouseMoveMode := true, true, false;
    }
  }
}
