/** SDL key codes the OTG window reacts to, and the set of keys that toggle
    mouse capture. */
module Keys {
  import opened Types

  /** `SDL_Keycode` is a signed 32-bit integer. */
  type Keycode = int32

  /** `SDLK_UNKNOWN`; `mouse_capture_key_pressed` uses it to mean "no capture
      key is pending". */
  const NoKey: Keycode := 0

  /** SDL2 derives these key codes from scan codes 226, 227 and 231 by
      setting bit 30 (`SDL_SCANCODE_TO_KEYCODE`). */
  const LeftAlt: Keycode := 0x4000_00E2
  const LeftGui: Keycode := 0x4000_00E3
  const RightGui: Keycode := 0x4000_00E7

  const CaptureKeys: set<Keycode> := {LeftAlt, LeftGui, RightGui}

  /** A key toggles mouse capture exactly when it is left Alt, left GUI or
      right GUI; none of them is the "no key" value, so a pending capture
      key can be stored in the same field as "nothing pending". */
  function IsCaptureKey(key: Keycode): (b: bool)
    ensures b <==> key in CaptureKeys
    ensures b ==> key != NoKey
  {
    key == LeftAlt || key == LeftGui || key == RightGui
  }
}
