/** The input side of the OTG-mode window: with no video to show, the window
    only captures keyboard and mouse input and forwards it to the keyboard
    and mouse processors. Handling one raw event is a pure step from the
    window state to a new state and at most one effect. */
module ScreenOtg {
  import opened Types
  import opened Keys
  import opened Events

  /** The window's input state.
      `hasKeyboard` and `hasMouse` say whether a keyboard or mouse processor
      is attached. `captured` is the relative mouse mode: `screen_otg.c` reads it
      back from SDL, the model keeps it as state written only by
      `SetMouseCapture`, assuming every such write takes effect.
      `captureKeyPressed` is the capture key whose release would toggle
      capture, or `NoKey`. */
  datatype Screen = Screen(hasKeyboard: bool, hasMouse: bool, captured: bool, captureKeyPressed: Keycode)

  /** The outcome of handling one event: the next state and its one effect. */
  datatype Step = Step(screen: Screen, effect: Effect)

  /** States the window can reach: the pending key is a capture key or
      nothing, and without a mouse nothing is pending and capture is off. */
  predicate Valid(s: Screen) {
    && (s.captureKeyPressed == NoKey || IsCaptureKey(s.captureKeyPressed))
    && (!s.hasMouse ==> !s.captured && s.captureKeyPressed == NoKey)
  }

  /** The attached processors never change after initialization. */
  predicate SameDevices(s: Screen, t: Screen) {
    s.hasKeyboard == t.hasKeyboard && s.hasMouse == t.hasMouse
  }

  // ---------------------------------------------------------------------
  // Mouse capture

  function GetMouseCapture(s: Screen): bool {
    s.captured
  }

  /** Switches relative mouse mode: capture reads back as requested, the
      platform is told once, and nothing else in the state changes. */
  function SetMouseCapture(s: Screen, capture: bool): (r: Step)
    ensures GetMouseCapture(r.screen) == capture
    ensures SameDevices(s, r.screen) && r.screen.captureKeyPressed == s.captureKeyPressed
    ensures r.effect == SetRelativeMouseMode(capture)
  {
    Step(s.(captured := capture), SetRelativeMouseMode(capture))
  }

  /** Flips capture, leaving the rest of the state alone. */
  function ToggleMouseCapture(s: Screen): (r: Step)
    ensures GetMouseCapture(r.screen) == !GetMouseCapture(s)
    ensures SameDevices(s, r.screen) && r.screen.captureKeyPressed == s.captureKeyPressed
    ensures r.effect == SetRelativeMouseMode(!GetMouseCapture(s))
  {
    SetMouseCapture(s, !GetMouseCapture(s))
  }

  /** Toggling twice restores the state. */
  lemma ToggleTwiceRestores(s: Screen)
    ensures ToggleMouseCapture(ToggleMouseCapture(s).screen).screen == s
  {
  }

  /** Setting capture to the same value twice is the same as once. */
  lemma SetMouseCaptureIdempotent(s: Screen, capture: bool)
    ensures SetMouseCapture(SetMouseCapture(s, capture).screen, capture) == SetMouseCapture(s, capture)
  {
  }

  // ---------------------------------------------------------------------
  // Forwarders: one call into a processor, as an effect record

  /** `sc_screen_otg_process_key`: one key event for the keyboard processor,
      with the converted codes and the raw repeat flag. `screen_otg.c` asserts a
      keyboard is attached. */
  function ForwardKey(s: Screen, action: Action, k: KeyInput, conv: Conversions): (e: Effect)
    requires s.hasKeyboard
    ensures e.ProcessKey? && e.key.action == action && e.key.repeat == k.repeat
    ensures e.key.keycode == conv.keycode(k.sym) && e.key.scancode == conv.scancode(k.scancode)
    ensures e.key.modsState == conv.modsState(k.mod)
  {
    ProcessKey(KeyEvent(action, conv.keycode(k.sym), conv.scancode(k.scancode), k.repeat, conv.modsState(k.mod)))
  }

  /** `sc_screen_otg_process_mouse_motion`: the relative deltas pass through
      unchanged and the button mask is the one recorded in the event. */
  function ForwardMouseMotion(s: Screen, m: MotionInput, conv: Conversions): (e: Effect)
    requires s.hasMouse
    ensures e.ProcessMouseMotion? && e.motion.xrel == m.xrel && e.motion.yrel == m.yrel
    ensures e.motion.buttonsState == conv.buttonsState(m.state)
  {
    ProcessMouseMotion(MotionEvent(m.xrel, m.yrel, conv.buttonsState(m.state)))
  }

  /** `sc_screen_otg_process_mouse_button`: the button mask is the one
      current when the event is dispatched, not the one in the event. */
  function ForwardMouseButton(s: Screen, action: Action, button: uint8, buttons: uint32, conv: Conversions): (e: Effect)
    requires s.hasMouse
    ensures e.ProcessMouseClick? && e.click.action == action && e.click.button == conv.button(button)
    ensures e.click.buttonsState == conv.buttonsState(buttons)
  {
    ProcessMouseClick(ClickEvent(action, conv.button(button), conv.buttonsState(buttons)))
  }

  /** `sc_screen_otg_process_mouse_wheel`: both scroll amounts pass through
      unchanged, with the button mask current at dispatch. */
  function ForwardMouseWheel(s: Screen, w: WheelInput, buttons: uint32, conv: Conversions): (e: Effect)
    requires s.hasMouse
    ensures e.ProcessMouseScroll? && e.scroll.hscroll == w.x && e.scroll.vscroll == w.y
    ensures e.scroll.buttonsState == conv.buttonsState(buttons)
  {
    ProcessMouseScroll(ScrollEvent(w.x, w.y, conv.buttonsState(buttons)))
  }

  // ---------------------------------------------------------------------
  // Event handling, one function per case of the dispatch switch

  /** Window events: exposure redraws; focus loss releases capture when a
      mouse is attached. No window event forwards input or touches the
      pending capture key. */
  function HandleWindowEvent(s: Screen, kind: WindowEventKind): (r: Step)
    ensures SameDevices(s, r.screen) && r.screen.captureKeyPressed == s.captureKeyPressed
    ensures !r.effect.Forwards()
    ensures r.effect == Render <==> kind == Exposed
    ensures kind == FocusLost && s.hasMouse ==>
              !r.screen.captured && r.effect == SetRelativeMouseMode(false)
    ensures !(kind == FocusLost && s.hasMouse) ==> r.screen == s
    ensures kind != Exposed && !(kind == FocusLost && s.hasMouse) ==> r.effect == NoEffect
  {
    match kind
    case Exposed => Step(s, Render)
    case FocusLost => if s.hasMouse then SetMouseCapture(s, false) else Step(s, NoEffect)
    case OtherWindowEvent => Step(s, NoEffect)
  }

  /** Key press. With a mouse attached, a capture key is absorbed: it becomes
      the pending key when none is pending, and otherwise cancels the pending
      key, even when it is the same key pressed again (auto-repeat included).
      Any other key goes to the keyboard processor when there is one. */
  function HandleKeyDown(s: Screen, k: KeyInput, conv: Conversions): (r: Step)
    ensures SameDevices(s, r.screen) && r.screen.captured == s.captured
    ensures s.hasMouse && IsCaptureKey(k.sym) ==> r.effect == NoEffect
    ensures s.hasMouse && IsCaptureKey(k.sym) && s.captureKeyPressed == NoKey ==>
              r.screen.captureKeyPressed == k.sym
    ensures s.hasMouse && IsCaptureKey(k.sym) && s.captureKeyPressed != NoKey ==>
              r.screen.captureKeyPressed == NoKey
    ensures !(s.hasMouse && IsCaptureKey(k.sym)) ==>
              r.screen == s && (r.effect.ProcessKey? <==> s.hasKeyboard)
    ensures r.effect == NoEffect || r.effect.ProcessKey?
    ensures r.effect.ProcessKey? ==> s.hasKeyboard && r.effect == ForwardKey(s, Down, k, conv)
  {
    if s.hasMouse && IsCaptureKey(k.sym) then
      var pending := if s.captureKeyPressed == NoKey then k.sym else NoKey;
      Step(s.(captureKeyPressed := pending), NoEffect)
    else if s.hasKeyboard then
      Step(s, ForwardKey(s, Down, k, conv))
    else
      Step(s, NoEffect)
  }

  /** Key release. With a mouse attached, every release clears the pending
      key; releasing a capture key toggles capture exactly when it is the
      pending key, and is never forwarded. Every other release goes to the
      keyboard processor when there is one. */
  function HandleKeyUp(s: Screen, k: KeyInput, conv: Conversions): (r: Step)
    ensures SameDevices(s, r.screen)
    ensures s.hasMouse ==> r.screen.captureKeyPressed == NoKey
    ensures !s.hasMouse ==> r.screen == s
    ensures r.screen.captured != s.captured <==>
              s.hasMouse && IsCaptureKey(k.sym) && k.sym == s.captureKeyPressed
    ensures r.screen.captured != s.captured ==> r.effect == SetRelativeMouseMode(r.screen.captured)
    ensures r.effect.ProcessKey? <==> s.hasKeyboard && !(s.hasMouse && IsCaptureKey(k.sym))
    ensures r.effect == NoEffect || r.effect.ProcessKey? || r.effect.SetRelativeMouseMode?
    ensures r.effect.SetRelativeMouseMode? ==> r.screen.captured != s.captured
    ensures r.effect.ProcessKey? ==> s.hasKeyboard && r.effect == ForwardKey(s, Up, k, conv)
  {
    if s.hasMouse then
      var cap := s.captureKeyPressed;
      var cleared := s.(captureKeyPressed := NoKey);
      if IsCaptureKey(k.sym) then
        if k.sym == cap then ToggleMouseCapture(cleared) else Step(cleared, NoEffect)
      else if s.hasKeyboard then
        Step(cleared, ForwardKey(cleared, Up, k, conv))
      else
        Step(cleared, NoEffect)
    else if s.hasKeyboard then
      Step(s, ForwardKey(s, Up, k, conv))
    else
      Step(s, NoEffect)
  }

  /** Relative motion reaches the mouse processor only while captured. */
  function HandleMouseMotion(s: Screen, m: MotionInput, conv: Conversions): (r: Step)
    ensures r.screen == s
    ensures r.effect != NoEffect <==> s.hasMouse && s.captured
    ensures r.effect != NoEffect ==>
              r.effect == ProcessMouseMotion(MotionEvent(m.xrel, m.yrel, conv.buttonsState(m.state)))
  {
    if s.hasMouse && GetMouseCapture(s) then
      Step(s, ForwardMouseMotion(s, m, conv))
    else
      Step(s, NoEffect)
  }

  /** A button press reaches the mouse processor only while captured; an
      uncaptured press is dropped. */
  function HandleMouseButtonDown(s: Screen, button: uint8, buttons: uint32, conv: Conversions): (r: Step)
    ensures r.screen == s
    ensures r.effect != NoEffect <==> s.hasMouse && s.captured
    ensures r.effect != NoEffect ==>
              r.effect == ProcessMouseClick(ClickEvent(Down, conv.button(button), conv.buttonsState(buttons)))
  {
    if s.hasMouse && GetMouseCapture(s) then
      Step(s, ForwardMouseButton(s, Down, button, buttons, conv))
    else
      Step(s, NoEffect)
  }

  /** A button release while captured is forwarded; while not captured it is
      consumed and recaptures the mouse. Either way a mouse is captured
      afterwards. */
  function HandleMouseButtonUp(s: Screen, button: uint8, buttons: uint32, conv: Conversions): (r: Step)
    ensures !s.hasMouse ==> r == Step(s, NoEffect)
    ensures s.hasMouse ==> r.screen.captured
    ensures s.hasMouse && s.captured ==>
              r.screen == s &&
              r.effect == ProcessMouseClick(ClickEvent(Up, conv.button(button), conv.buttonsState(buttons)))
    ensures s.hasMouse && !s.captured ==>
              r.effect == SetRelativeMouseMode(true) &&
              SameDevices(s, r.screen) && r.screen.captureKeyPressed == s.captureKeyPressed
  {
    if s.hasMouse then
      if GetMouseCapture(s) then
        Step(s, ForwardMouseButton(s, Up, button, buttons, conv))
      else
        SetMouseCapture(s, true)
    else
      Step(s, NoEffect)
  }

  /** Scrolling reaches the mouse processor only while captured. */
  function HandleMouseWheel(s: Screen, w: WheelInput, buttons: uint32, conv: Conversions): (r: Step)
    ensures r.screen == s
    ensures r.effect != NoEffect <==> s.hasMouse && s.captured
    ensures r.effect != NoEffect ==>
              r.effect == ProcessMouseScroll(ScrollEvent(w.x, w.y, conv.buttonsState(buttons)))
  {
    if s.hasMouse && GetMouseCapture(s) then
      Step(s, ForwardMouseWheel(s, w, buttons, conv))
    else
      Step(s, NoEffect)
  }

  /** `sc_screen_otg_handle_event`. `buttons` is the mouse button mask SDL
      reports when the event is dispatched. The contract collects the
      policies that hold across all event kinds. */
  function HandleEvent(s: Screen, e: RawEvent, conv: Conversions, buttons: uint32): (r: Step)
    ensures SameDevices(s, r.screen)
    // Reachable states stay reachable.
    ensures Valid(s) ==> Valid(r.screen)
    // Without a mouse, neither capture nor the pending key ever changes.
    ensures !s.hasMouse ==> r.screen == s
    // Mouse input leaks to the device only while captured.
    ensures r.effect.ForwardsMouse() ==> s.hasMouse && s.captured && r.screen == s
    // Keys are forwarded only to an attached keyboard, and never a capture
    // key while a mouse is attached.
    ensures r.effect.ProcessKey? ==>
              s.hasKeyboard && (e.KeyDown? || e.KeyUp?) && !(s.hasMouse && IsCaptureKey(e.key.sym))
    // Capture is released only by focus loss or by releasing the pending
    // capture key.
    ensures s.captured && !r.screen.captured ==>
              e == WindowEvent(FocusLost) ||
              (e.KeyUp? && IsCaptureKey(e.key.sym) && e.key.sym == s.captureKeyPressed)
    // Capture is engaged only by a button release or by releasing the
    // pending capture key.
    ensures !s.captured && r.screen.captured ==>
              e.MouseButtonUp? ||
              (e.KeyUp? && IsCaptureKey(e.key.sym) && e.key.sym == s.captureKeyPressed)
    // Every change of capture is pushed to the platform.
    ensures r.screen.captured != s.captured ==> r.effect == SetRelativeMouseMode(r.screen.captured)
    // Only exposure redraws.
    ensures r.effect == Render <==> e == WindowEvent(Exposed)
    // The hook's event and event kinds the switch does not list do nothing.
    ensures e.HookEvent? || e.OtherEvent? ==> r == Step(s, NoEffect)
  {
    match e
    case WindowEvent(kind) => HandleWindowEvent(s, kind)
    case HookEvent => Step(s, NoEffect)
    case KeyDown(k) => HandleKeyDown(s, k, conv)
    case KeyUp(k) => HandleKeyUp(s, k, conv)
    case MouseMotion(m) => HandleMouseMotion(s, m, conv)
    case MouseButtonDown(b) => HandleMouseButtonDown(s, b, buttons, conv)
    case MouseButtonUp(b) => HandleMouseButtonUp(s, b, buttons, conv)
    case MouseWheel(w) => HandleMouseWheel(s, w, buttons, conv)
    case OtherEvent => Step(s, NoEffect)
  }

  /** Losing focus with a mouse attached leaves capture off, and losing it
      again changes nothing more. */
  lemma FocusLostReleasesIdempotently(s: Screen, conv: Conversions, buttons: uint32)
    requires s.hasMouse
    ensures var once := HandleEvent(s, WindowEvent(FocusLost), conv, buttons).screen;
            !once.captured &&
            HandleEvent(once, WindowEvent(FocusLost), conv, buttons).screen == once
  {
  }
}
