/** Concrete event sequences showing the chord policy and the dispatch
    policy on short histories. */
module Scenarios {
  import opened Types
  import opened Keys
  import opened Events
  import opened ScreenOtg
  import opened Chord

  function Press(k: KeyInput): Input { Input(KeyDown(k), 0) }
  function Release(k: KeyInput): Input { Input(KeyUp(k), 0) }

  /** Pressing and releasing one capture key toggles capture. */
  lemma PressReleaseToggles(s: Screen, k: KeyInput, conv: Conversions)
    requires s.hasMouse && s.captureKeyPressed == NoKey && IsCaptureKey(k.sym)
    ensures Run(s, [Press(k), Release(k)], conv).captured == !s.captured
  {
    ReleaseTogglesIffChord(s, [Press(k)], k, 0, conv);
    assert [Press(k)][..0] == [];
  }

  /** A second capture-key press before the release cancels the chord, even
      when it is the same key again (an auto-repeat): releasing either key
      afterwards does not toggle. */
  lemma SecondPressCancels(s: Screen, k: KeyInput, k2: KeyInput, conv: Conversions)
    requires s.hasMouse && s.captureKeyPressed == NoKey
    requires IsCaptureKey(k.sym) && IsCaptureKey(k2.sym)
    ensures Run(s, [Press(k), Press(k2), Release(k)], conv).captured == s.captured
    ensures Run(s, [Press(k), Press(k2), Release(k2)], conv).captured == s.captured
  {
    var h := [Press(k), Press(k2)];
    assert h[..1] == [Press(k)] && h[..1][..0] == [];
    assert PressesSinceRelease([Press(k)]) == [k.sym];
    assert PressesSinceRelease(h) == [k.sym, k2.sym];
    assert Run(s, [], conv) == s;
    var t1 := Run(s, [Press(k)], conv);
    assert t1.captured == s.captured;
    assert Run(s, h, conv).captured == s.captured;
    ReleaseTogglesIffChord(s, h, k, 0, conv);
    ReleaseTogglesIffChord(s, h, k2, 0, conv);
    assert [Press(k), Press(k2), Release(k)] == h + [Release(k)];
    assert [Press(k), Press(k2), Release(k2)] == h + [Release(k2)];
  }

  /** Releasing any other key between the press and the release of a
      capture key cancels the chord. */
  lemma OtherReleaseCancels(s: Screen, k: KeyInput, other: KeyInput, conv: Conversions)
    requires s.hasMouse && s.captureKeyPressed == NoKey
    requires IsCaptureKey(k.sym) && other.sym != k.sym
    ensures Run(s, [Press(k), Release(other), Release(k)], conv).captured == s.captured
  {
    var h := [Press(k), Release(other)];
    assert h[..1] == [Press(k)] && h[..1][..0] == [];
    ReleaseTogglesIffChord(s, [Press(k)], other, 0, conv);
    ReleaseTogglesIffChord(s, h, k, 0, conv);
    assert [Press(k), Release(other), Release(k)] == h + [Release(k)];
  }

  /** With a mouse but no keyboard and the mouse captured, relative motion is
      forwarded once with its deltas, and a left-Alt press and release
      releases capture without anything reaching a keyboard processor. */
  lemma MouseOnlySession(s: Screen, m: MotionInput, alt: KeyInput, conv: Conversions, buttons: uint32)
    requires s.hasMouse && !s.hasKeyboard && s.captured && s.captureKeyPressed == NoKey
    requires m.xrel == 5 && m.yrel == -3 && alt.sym == LeftAlt
    ensures var r1 := HandleEvent(s, MouseMotion(m), conv, buttons);
            var r2 := HandleEvent(r1.screen, KeyDown(alt), conv, buttons);
            var r3 := HandleEvent(r2.screen, KeyUp(alt), conv, buttons);
            && r1.effect == ProcessMouseMotion(MotionEvent(5, -3, conv.buttonsState(m.state)))
            && r2.effect == NoEffect
            && r3.effect == SetRelativeMouseMode(false)
            && !r3.screen.captured
  {
  }

  /** With a mouse attached but not captured, motion is dropped; a button
      release is consumed and recaptures, after which the same motion is
      forwarded. */
  lemma ReleaseRecapturesMotion(s: Screen, m: MotionInput, button: uint8, conv: Conversions, buttons: uint32)
    requires s.hasMouse && !s.captured
    ensures HandleEvent(s, MouseMotion(m), conv, buttons).effect == NoEffect
    ensures var r1 := HandleEvent(s, MouseButtonUp(button), conv, buttons);
            var r2 := HandleEvent(r1.screen, MouseMotion(m), conv, buttons);
            && !r1.effect.Forwards()
            && r2.effect == ProcessMouseMotion(MotionEvent(m.xrel, m.yrel, conv.buttonsState(m.state)))
  {
  }
}
