/** The raw SDL events the OTG window receives, the normalized input events
    it hands to the keyboard and mouse processors, and the single effect one
    raw event can have. */
module Events {
  import opened Types
  import opened Keys

  /** The parts of an `SDL_KeyboardEvent` the window reads. */
  datatype KeyInput = KeyInput(sym: Keycode, scancode: int32, mod: uint16, repeat: bool)

  /** The parts of an `SDL_MouseMotionEvent` the window reads; `state` is the
      button mask recorded in the event itself. */
  datatype MotionInput = MotionInput(xrel: int32, yrel: int32, state: uint32)

  /** The parts of an `SDL_MouseWheelEvent` the window reads. */
  datatype WheelInput = WheelInput(x: int32, y: int32)

  datatype WindowEventKind = Exposed | FocusLost | OtherWindowEvent

  /** The closed set of event kinds the window's switch distinguishes.
      `HookEvent` is the custom event registered for the Windows keyboard
      hook; `OtherEvent` stands for every event type the switch has no case
      for. */
  datatype RawEvent =
    | WindowEvent(kind: WindowEventKind)
    | HookEvent
    | KeyDown(key: KeyInput)
    | KeyUp(key: KeyInput)
    | MouseMotion(motion: MotionInput)
    | MouseButtonDown(button: uint8)
    | MouseButtonUp(button: uint8)
    | MouseWheel(wheel: WheelInput)
    | OtherEvent

  datatype Action = Down | Up

  /** `struct sc_key_event`. Codes are whatever the conversion functions
      return; the model does not interpret them. */
  datatype KeyEvent = KeyEvent(action: Action, keycode: int, scancode: int, repeat: bool, modsState: int)

  /** `struct sc_mouse_motion_event`, without the position HID forwarding
      ignores. */
  datatype MotionEvent = MotionEvent(xrel: int32, yrel: int32, buttonsState: int)

  /** `struct sc_mouse_click_event`, without the position. */
  datatype ClickEvent = ClickEvent(action: Action, button: int, buttonsState: int)

  /** `struct sc_mouse_scroll_event`, without the position. */
  datatype ScrollEvent = ScrollEvent(hscroll: int32, vscroll: int32, buttonsState: int)

  /** The SDL-to-scrcpy conversion functions, defined outside this module:
      `sc_keycode_from_sdl`, `sc_scancode_from_sdl`, `sc_mods_state_from_sdl`,
      `sc_mouse_buttons_state_from_sdl` (always called with its
      forward-all-clicks argument set) and `sc_mouse_button_from_sdl`. They
      are parameters of the model, so nothing is assumed about them. */
  datatype Conversions = Conversions(
    keycode: Keycode -> int,
    scancode: int32 -> int,
    modsState: uint16 -> int,
    buttonsState: uint32 -> int,
    button: uint8 -> int)

  /** What handling one raw event does beyond updating the window state:
      nothing, a redraw, one call of `SDL_SetRelativeMouseMode`, or one call
      into the keyboard or mouse processor. */
  datatype Effect =
    | NoEffect
    | Render
    | SetRelativeMouseMode(enabled: bool)
    | ProcessKey(key: KeyEvent)
    | ProcessMouseMotion(motion: MotionEvent)
    | ProcessMouseClick(click: ClickEvent)
    | ProcessMouseScroll(scroll: ScrollEvent)
  {
    /** The effect hands an event to the mouse processor. */
    predicate ForwardsMouse() {
      ProcessMouseMotion? || ProcessMouseClick? || ProcessMouseScroll?
    }

    /** The effect hands an event to the keyboard or the mouse processor. */
    predicate Forwards() {
      ProcessKey? || ForwardsMouse()
    }
  }
}
