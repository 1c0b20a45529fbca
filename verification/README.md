# OTG window input state machine

This project models the input side of scrcpy's OTG-mode window (`app/src/usb/screen_otg.c`). In OTG mode there is no video. The window is only a focus target. While it has focus, it captures keyboard and mouse input and forwards it to the keyboard and mouse processors, which send HID events over USB.

The model is a pure step function. `ScreenOtg.HandleEvent` takes the window state (`Screen`), one raw SDL event and the mouse-button mask current at dispatch time. It returns the next state and exactly one `Effect`:

- nothing;
- a redraw;
- one call of `SDL_SetRelativeMouseMode`;
- one normalized event handed to the keyboard processor or the mouse processor (motion, click or scroll).

The state holds four things:

- whether a keyboard processor is attached;
- whether a mouse processor is attached;
- whether the mouse is captured, meaning relative mouse mode is on;
- the pending capture key (`mouse_capture_key_pressed`), where `0` means none.

Modules:

- `Types`: fixed-width integers and `Option`.
- `Keys`: the SDL key codes and the capture-key predicate.
- `Events`: raw events, normalized events and effects. It also holds the SDL conversion functions, which are parameters of the model.
- `ScreenOtg`: state, capture get/set/toggle, forwarders and the event handler, one function per case of the switch in `sc_screen_otg_handle_event`.
- `OtgInit`: window parameters and the initial state.
- `Chord`: runs over event sequences. It also gives a description of the capture-key chord that does not refer to the handler, and proves the handler matches it.
- `Scenarios`: short concrete histories.

A second capture-key press while a key is pending cancels it, even when it is the same key again, an auto-repeat included; the repeat flag is never consulted (`screen_otg.c:308-314`). Any key release clears the pending key (`screen_otg.c:326-328`). As a result, a release toggles capture exactly when the released key is the last of an odd number of capture-key presses since the previous key release (`Chord.ChordPending`, `Chord.PendingIsChord`). For example, down(K), down(K), up(K) does not toggle, and down(K), down(K), down(K), up(K) does.

## Model

| member | source | states |
|---|---|---|
| Keys.IsCaptureKey | app/src/usb/screen_otg.c:207-210 | a key toggles capture exactly when it is left Alt, left GUI or right GUI; none of these equals the "no pending key" value 0 |
| ScreenOtg.SetMouseCapture | app/src/usb/screen_otg.c:64-96 | capture reads back as the requested value; SDL is told once; devices and the pending key are unchanged |
| ScreenOtg.ToggleMouseCapture | app/src/usb/screen_otg.c:98-103 | capture becomes the negation of its current value, and nothing else changes |
| ScreenOtg.ToggleTwiceRestores | app/src/usb/screen_otg.c:98-103 | toggling twice gives back the original state |
| ScreenOtg.SetMouseCaptureIdempotent | app/src/usb/screen_otg.c:64-90 | setting the same capture value twice has the same outcome as setting it once |
| ScreenOtg.ForwardKey | app/src/usb/screen_otg.c:211-227 | requires an attached keyboard (`screen_otg.c` asserts it); the forwarded event has the given action, the converted key code, scan code and modifiers, and the raw repeat flag |
| ScreenOtg.ForwardMouseMotion | app/src/usb/screen_otg.c:229-244 | requires an attached mouse; the relative deltas pass through unchanged, with the button mask taken from the event |
| ScreenOtg.ForwardMouseButton | app/src/usb/screen_otg.c:246-264 | requires an attached mouse; one click with the converted button and the button mask at dispatch time, not the one in the event |
| ScreenOtg.ForwardMouseWheel | app/src/usb/screen_otg.c:266-284 | requires an attached mouse; both scroll amounts pass through, with the button mask at dispatch time |
| ScreenOtg.HandleWindowEvent | app/src/usb/screen_otg.c:289-300 | exposure and only exposure redraws; focus loss with a mouse releases capture with one SDL call; every other window event, and focus loss without a mouse, does nothing; no window event forwards input or touches the pending key |
| ScreenOtg.HandleKeyDown | app/src/usb/screen_otg.c:304-323 | with a mouse, a capture key is absorbed: it is armed if nothing is pending, and otherwise it cancels the pending key, even if it is the same key; capture is unchanged; other keys are forwarded exactly when a keyboard is attached, as the full converted press event |
| ScreenOtg.HandleKeyUp | app/src/usb/screen_otg.c:324-343 | with a mouse, pending is always cleared; capture flips exactly when the released key is a capture key equal to the pending one; SDL is called only when capture flips; capture-key releases are never forwarded; other releases are forwarded exactly when a keyboard is attached, as the full converted release event; with no mouse the state never changes |
| ScreenOtg.HandleMouseMotion | app/src/usb/screen_otg.c:344-348 | exactly one motion event is forwarded when a mouse is attached and captured, with the deltas of the input; otherwise nothing; the state is unchanged |
| ScreenOtg.HandleMouseButtonDown | app/src/usb/screen_otg.c:349-353 | exactly one press is forwarded when a mouse is attached and captured; otherwise nothing; the state is unchanged |
| ScreenOtg.HandleMouseButtonUp | app/src/usb/screen_otg.c:354-362 | with a mouse, the mouse is always captured afterwards; a captured release is forwarded as one click; an uncaptured release is consumed and recaptures; with no mouse nothing happens |
| ScreenOtg.HandleMouseWheel | app/src/usb/screen_otg.c:363-367 | exactly one scroll is forwarded when a mouse is attached and captured; otherwise nothing; the state is unchanged |
| ScreenOtg.HandleEvent | app/src/usb/screen_otg.c:286-369 | reachable states stay reachable; with no mouse the state never changes; mouse input is forwarded only while captured; keys are forwarded only to an attached keyboard, and capture keys never while a mouse is attached; capture is released only by focus loss or by releasing the pending key, and engaged only by a button release or by releasing the pending key; every change of capture is pushed to SDL; only exposure redraws; the hook's event and unlisted event kinds change nothing and do nothing |
| ScreenOtg.FocusLostReleasesIdempotently | app/src/usb/screen_otg.c:294-298 | with a mouse, focus loss leaves capture off, and a second focus loss changes nothing |
| OtgInit.WindowPosition | app/src/usb/screen_otg.c:131-134 | a requested coordinate passes through; the scrcpy "undefined" value becomes SDL's, and exactly that value does |
| OtgInit.WindowSize | app/src/usb/screen_otg.c:135-136 | a non-zero size passes through; 0 becomes 256; the result is never 0 |
| OtgInit.WindowFlags | app/src/usb/screen_otg.c:138-144 | high-DPI is always set; always-on-top and borderless are set exactly when requested; no other bit is set |
| OtgInit.WindowConfigOf | app/src/usb/screen_otg.c:122-146 | the window gets the title as given; a requested position passes through and SDL's undefined position appears exactly where none was requested; a non-zero size passes through and 0 becomes 256; high-DPI is always set, always-on-top and borderless exactly when requested, no other flag |
| OtgInit.InitialScreen | app/src/usb/screen_otg.c:117-120 | initially nothing is pending, the state is reachable, and the mouse is captured exactly when a mouse is attached |
| OtgInit.Init | app/src/usb/screen_otg.c:146-190 | initialization succeeds exactly when the window and renderer are created and, if an icon was loaded, its texture too; on success the state is the initial one, and relative mode is requested exactly when a mouse is attached; with no mouse no SDL call is made |
| Chord.Run | app/src/usb/screen_otg.c:286-369 | handling a sequence of events keeps the attached devices, keeps reachable states reachable, and changes nothing when no mouse is attached |
| Chord.PressesSinceRelease | app/src/usb/screen_otg.c:304-314 | the capture-key presses since the last key release, all of them capture keys |
| Chord.PendingIsChord | app/src/usb/screen_otg.c:304-328 | with a mouse, the handler's pending key after any history is the last of an odd number of capture-key presses since the last key release, and none otherwise |
| Chord.ReleaseTogglesIffChord | app/src/usb/screen_otg.c:324-337 | with a mouse, after any history, a key release flips capture exactly when it releases the armed chord key |
| Chord.KeyRunTogglesPerChord | app/src/usb/screen_otg.c:304-342 | with a mouse, over any sequence of key events, capture ends up flipped exactly when the number of completed chords is odd |
| Scenarios.PressReleaseToggles | app/src/usb/screen_otg.c:304-337 | down(K), up(K) of a capture key flips capture |
| Scenarios.SecondPressCancels | app/src/usb/screen_otg.c:308-314 | down(K), down(K'), then up(K) or up(K'), does not flip capture, also when K' is K |
| Scenarios.OtherReleaseCancels | app/src/usb/screen_otg.c:324-337 | down(K), up(any other key), up(K) does not flip capture |
| Scenarios.ReleaseRecapturesMotion | app/src/usb/screen_otg.c:344-361 | with a mouse, uncaptured: motion is dropped; a button release is not forwarded but recaptures, after which motion is forwarded with its deltas |
| Scenarios.MouseOnlySession | app/src/usb/screen_otg.c:304-346 | mouse but no keyboard, captured: motion (5, -3) is forwarded once with those deltas; a left-Alt press is absorbed and its release turns capture off with no key forwarded |

## Left out

- The Windows keyboard hook, its custom event and its install and uninstall calls (`screen_otg.c:9-60`, `126-128`, `201-203`). This is process-global OS plumbing, and as written it does not compile. Its event kind is modelled as `HookEvent`, which is handled by doing nothing, matching the `break` at line 303.
- Creating and destroying the window, renderer and texture, loading the icon, and rendering are calls into SDL. `Init` models only which creation outcomes make initialization fail. It does not model which resources are released on failure, and no claim is made that nothing leaks.
- The macOS pointer-warp workaround in `set_mouse_capture` (`screen_otg.c:66-85`) is a platform side effect.
- ScreenOtg.SetMouseCapture: `screen_otg.c` reads capture back from SDL and only logs a failed `SDL_SetRelativeMouseMode`. The model assumes every set takes effect.
- The conversion functions `sc_keycode_from_sdl`, `sc_scancode_from_sdl`, `sc_mods_state_from_sdl`, `sc_mouse_buttons_state_from_sdl` and `sc_mouse_button_from_sdl` are defined in files that are not part of this model. They are fields of a `Conversions` parameter, and nothing is assumed about them: no round trip and no "unknown" code.
- `sc_action_from_sdl_keyboard_type` and `sc_action_from_sdl_mousebutton_type` are also not part of this model. The model takes the action from the event kind: press gives `Down` and release gives `Up`.
- The button mask from `SDL_GetMouseState` (`screen_otg.c:252`, `272`) is external state. It is an opaque parameter of the step.
- The header defining `struct sc_screen_otg_params` and `SC_WINDOW_POSITION_UNDEFINED` is not part of this model. The model uses scrcpy's field widths (signed 16-bit positions, unsigned 16-bit sizes) and its sentinel `-0x8000`. The SDL constants (`SDL_WINDOWPOS_UNDEFINED`, the window flag bits, the key codes) are SDL2's.
- Logging.
