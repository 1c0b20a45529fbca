/** Runs of the event handler over a sequence of dispatched events, and the
    capture-key chord they recognise, described independently of the
    handler. */
module Chord {
  import opened Types
  import opened Keys
  import opened Events
  import opened ScreenOtg

  /** One dispatched event together with the mouse button mask SDL reports
      at dispatch time. */
  datatype Input = Input(event: RawEvent, buttons: uint32)

  /** The state after handling `h` in order, starting from `s`. */
  function Run(s: Screen, h: seq<Input>, conv: Conversions): (t: Screen)
    ensures SameDevices(s, t)
    ensures Valid(s) ==> Valid(t)
    ensures !s.hasMouse ==> t == s
  {
    if |h| == 0 then s
    else
      var last := h[|h| - 1];
      HandleEvent(Run(s, h[..|h| - 1], conv), last.event, conv, last.buttons).screen
  }

  /** The capture keys pressed since the most recent key release of any
      key, in order. */
  function PressesSinceRelease(h: seq<Input>): (d: seq<Keycode>)
    ensures forall i :: 0 <= i < |d| ==> IsCaptureKey(d[i])
  {
    if |h| == 0 then []
    else
      var prefix := PressesSinceRelease(h[..|h| - 1]);
      match h[|h| - 1].event
      case KeyUp(_) => []
      case KeyDown(k) => if IsCaptureKey(k.sym) then prefix + [k.sym] else prefix
      case _ => prefix
  }

  /** The chord a release would complete: after an odd number of capture-key
      presses since the last release, the last of them; otherwise none.
      Each further press alternately arms and cancels the chord. */
  function ChordPending(h: seq<Input>): Keycode {
    var d := PressesSinceRelease(h);
    if |d| % 2 == 1 then d[|d| - 1] else NoKey
  }

  /** With a mouse attached, the handler's pending key is exactly the chord
      the history has armed. */
  lemma {:induction false} PendingIsChord(s: Screen, h: seq<Input>, conv: Conversions)
    requires s.hasMouse && s.captureKeyPressed == NoKey
    ensures Run(s, h, conv).captureKeyPressed == ChordPending(h)
  {
    if |h| > 0 {
      var prefix := h[..|h| - 1];
      PendingIsChord(s, prefix, conv);
      var d := PressesSinceRelease(prefix);
      var t := Run(s, prefix, conv);
      assert t.hasMouse;
      match h[|h| - 1].event
      case KeyDown(k) =>
        if IsCaptureKey(k.sym) {
          assert PressesSinceRelease(h) == d + [k.sym];
          if |d| % 2 == 1 {
            assert IsCaptureKey(d[|d| - 1]);
          }
        }
      case _ =>
    }
  }

  /** With a mouse attached, a key release toggles capture exactly when it
      releases the armed chord key. */
  lemma ReleaseTogglesIffChord(s: Screen, h: seq<Input>, k: KeyInput, buttons: uint32, conv: Conversions)
    requires s.hasMouse && s.captureKeyPressed == NoKey
    ensures Run(s, h + [Input(KeyUp(k), buttons)], conv).captured != Run(s, h, conv).captured
            <==> IsCaptureKey(k.sym) && ChordPending(h) == k.sym
  {
    assert (h + [Input(KeyUp(k), buttons)])[..|h|] == h;
    PendingIsChord(s, h, conv);
  }

  /** The history consists of key presses and releases only. */
  predicate KeyEventsOnly(h: seq<Input>) {
    forall i :: 0 <= i < |h| ==> h[i].event.KeyDown? || h[i].event.KeyUp?
  }

  /** `e`, arriving after `prefix`, releases the armed chord key. */
  predicate CompletesChord(prefix: seq<Input>, e: RawEvent) {
    e.KeyUp? && IsCaptureKey(e.key.sym) && ChordPending(prefix) == e.key.sym
  }

  /** How many releases in `h` complete a chord. */
  function CompletedChords(h: seq<Input>): nat {
    if |h| == 0 then 0
    else
      var prefix := h[..|h| - 1];
      CompletedChords(prefix) + (if CompletesChord(prefix, h[|h| - 1].event) then 1 else 0)
  }

  /** Over key events alone, with a mouse attached, capture ends up flipped
      exactly when an odd number of chords were completed. */
  lemma {:induction false} KeyRunTogglesPerChord(s: Screen, h: seq<Input>, conv: Conversions)
    requires s.hasMouse && s.captureKeyPressed == NoKey
    requires KeyEventsOnly(h)
    ensures Run(s, h, conv).captured == (s.captured != (CompletedChords(h) % 2 == 1))
  {
    if |h| > 0 {
      var prefix := h[..|h| - 1];
      assert KeyEventsOnly(prefix) by {
        forall i | 0 <= i < |prefix| ensures prefix[i].event.KeyDown? || prefix[i].event.KeyUp? {
          assert prefix[i] == h[i];
        }
      }
      KeyRunTogglesPerChord(s, prefix, conv);
      PendingIsChord(s, prefix, conv);
    }
  }
}
