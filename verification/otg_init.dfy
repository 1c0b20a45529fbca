/** Initialization of the OTG window: the window parameters handed to SDL,
    and the initial input state. */
module OtgInit {
  import opened Types
  import opened Keys
  import opened Events
  import opened ScreenOtg

  /** scrcpy's "no position requested" value for `window_x` / `window_y`. */
  const WindowPositionUndefined: int16 := -0x8000

  /** `SDL_WINDOWPOS_UNDEFINED`: SDL chooses the placement. */
  const SdlWindowPosUndefined: int32 := 0x1FFF_0000

  /** Width and height used when none is requested. */
  const DefaultWindowSize: int32 := 256

  /** SDL window flag bits. */
  const SdlWindowBorderless: bv32 := 0x0000_0010
  const SdlWindowAllowHighDpi: bv32 := 0x0000_2000
  const SdlWindowAlwaysOnTop: bv32 := 0x0000_8000

  /** `struct sc_screen_otg_params`; the keyboard and mouse pointers are
      reduced to whether they are present. A size of 0 means "not requested". */
  datatype Params = Params(
    title: string,
    keyboard: bool,
    mouse: bool,
    alwaysOnTop: bool,
    windowX: int16,
    windowY: int16,
    windowWidth: uint16,
    windowHeight: uint16,
    windowBorderless: bool)

  /** The arguments of `SDL_CreateWindow`. */
  datatype WindowConfig = WindowConfig(title: string, x: int32, y: int32, width: int32, height: int32, flags: bv32)

  /** Outcomes of the SDL calls `sc_screen_otg_init` depends on: creating the
      window, the renderer and the icon texture, and loading the icon. */
  datatype Platform = Platform(windowCreated: bool, rendererCreated: bool, iconLoaded: bool, textureCreated: bool)

  /** A requested coordinate passes through; the scrcpy sentinel becomes
      SDL's, and no requested coordinate can be mistaken for it. */
  function WindowPosition(p: int16): (x: int32)
    ensures x == SdlWindowPosUndefined <==> p == WindowPositionUndefined
    ensures p != WindowPositionUndefined ==> x as int == p as int
  {
    if p != WindowPositionUndefined then p as int as int32 else SdlWindowPosUndefined
  }

  /** A requested size passes through; an unrequested one becomes 256. The
      window is never zero-sized. */
  function WindowSize(p: uint16): (n: int32)
    ensures 0 < n < 0x1_0000
    ensures p != 0 ==> n as int == p as int
    ensures p == 0 ==> n == DefaultWindowSize
  {
    if p != 0 then p as int as int32 else DefaultWindowSize
  }

  /** High-DPI is always requested; always-on-top and borderless exactly
      when asked for; no other flag is set. */
  function WindowFlags(alwaysOnTop: bool, borderless: bool): (f: bv32)
    ensures f & SdlWindowAllowHighDpi != 0
    ensures f & SdlWindowAlwaysOnTop != 0 <==> alwaysOnTop
    ensures f & SdlWindowBorderless != 0 <==> borderless
    ensures f & !(SdlWindowAllowHighDpi | SdlWindowAlwaysOnTop | SdlWindowBorderless) == 0
  {
    var f0 := SdlWindowAllowHighDpi;
    var f1 := if alwaysOnTop then f0 | SdlWindowAlwaysOnTop else f0;
    if borderless then f1 | SdlWindowBorderless else f1
  }

  /** The window `sc_screen_otg_init` asks SDL for. */
  function WindowConfigOf(p: Params): (w: WindowConfig)
    ensures w.title == p.title
    ensures w.x == SdlWindowPosUndefined <==> p.windowX == WindowPositionUndefined
    ensures w.y == SdlWindowPosUndefined <==> p.windowY == WindowPositionUndefined
    ensures p.windowX != WindowPositionUndefined ==> w.x as int == p.windowX as int
    ensures p.windowY != WindowPositionUndefined ==> w.y as int == p.windowY as int
    ensures w.width > 0 && w.height > 0
    ensures p.windowWidth != 0 ==> w.width as int == p.windowWidth as int
    ensures p.windowWidth == 0 ==> w.width == DefaultWindowSize
    ensures p.windowHeight != 0 ==> w.height as int == p.windowHeight as int
    ensures p.windowHeight == 0 ==> w.height == DefaultWindowSize
    ensures w.flags & SdlWindowAllowHighDpi != 0
    ensures w.flags & SdlWindowAlwaysOnTop != 0 <==> p.alwaysOnTop
    ensures w.flags & SdlWindowBorderless != 0 <==> p.windowBorderless
    ensures w.flags & !(SdlWindowAllowHighDpi | SdlWindowAlwaysOnTop | SdlWindowBorderless) == 0
  {
    WindowConfig(p.title, WindowPosition(p.windowX), WindowPosition(p.windowY),
                 WindowSize(p.windowWidth), WindowSize(p.windowHeight),
                 WindowFlags(p.alwaysOnTop, p.windowBorderless))
  }

  /** The input state right after a successful initialization: nothing is
      pending, and the mouse is captured exactly when a mouse is attached. */
  function InitialScreen(p: Params): (s: Screen)
    ensures Valid(s)
    ensures s.captureKeyPressed == NoKey
    ensures s.captured <==> p.mouse
    ensures s.hasKeyboard == p.keyboard && s.hasMouse == p.mouse
  {
    var s0 := Screen(p.keyboard, p.mouse, false, NoKey);
    if p.mouse then SetMouseCapture(s0, true).screen else s0
  }

  /** `sc_screen_otg_init`: fails when the window, the renderer, or the
      texture of a loaded icon cannot be created; a missing icon is not a
      failure. On success the mouse, if any, is captured. */
  function Init(p: Params, platform: Platform): (r: Option<Step>)
    ensures r.Some? <==>
              platform.windowCreated && platform.rendererCreated &&
              (platform.iconLoaded ==> platform.textureCreated)
    ensures r.Some? ==> r.value.screen == InitialScreen(p)
    ensures r.Some? ==> (r.value.effect == SetRelativeMouseMode(true) <==> p.mouse)
    ensures r.Some? && !p.mouse ==> r.value.effect == NoEffect
  {
    if !platform.windowCreated then None
    else if !platform.rendererCreated then None
    else if platform.iconLoaded && !platform.textureCreated then None
    else
      var s0 := Screen(p.keyboard, p.mouse, false, NoKey);
      if p.mouse then Some(SetMouseCapture(s0, true)) else Some(Step(s0, NoEffect))
  }
}
