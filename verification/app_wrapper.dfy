/**
 * The app wrapper over SDL2, in both of its copies (`okapp.h` and
 * `ok_app.h`, which agree on everything modelled here): the character
 * replacement applied to the base path, the composition of asset paths with
 * `snprintf` length semantics and the two-pass allocation built on it, the
 * window-mode flags, and the translation of SDL events into app events.
 *
 * The platform the wrapper is compiled for, the base path SDL reports and
 * the window's flags are parameters.
 */
module AppWrapper {
  import opened Base

  // ---------------------------------------------------------------------------
  // Character replacement
  // ---------------------------------------------------------------------------

  /** `s` with every `from` turned into `to`, every other character kept. */
  function Replaced(s: string, from: char, to: char): (r: string)
    ensures |r| == |s|
    ensures forall i :: 0 <= i < |s| ==> r[i] == (if s[i] == from then to else s[i])
  {
    if s == [] then []
    else [if s[0] == from then to else s[0]] + Replaced(s[1..], from, to)
  }

  /**
   * The in-place loop over a C string: every character before the
   * terminator is compared with `from` and replaced by `to`; the terminator
   * and the bytes after it are left alone.
   */
  method ReplaceChars(buffer: seq<char>, from: char, to: char) returns (r: seq<char>)
    requires NUL in buffer
    ensures |r| == |buffer|
    ensures r[..|CText(buffer)|] == Replaced(CText(buffer), from, to)
    ensures r[|CText(buffer)|..] == buffer[|CText(buffer)|..]
  {
    ghost var text := CText(buffer);
    CTextEndsBeforeNul(buffer);
    r := buffer;
    var i := 0;
    while r[i] != NUL
      invariant 0 <= i <= |text|
      invariant i < |text| ==> buffer[i] != NUL
      invariant |r| == |buffer|
      invariant forall j :: 0 <= j < i ==> r[j] == (if text[j] == from then to else text[j])
      invariant forall j :: i <= j < |buffer| ==> r[j] == buffer[j]
      decreases |text| - i
    {
      assert buffer[i] == text[i];
      if r[i] == from {
        r := r[i := to];
      }
      i := i + 1;
      assert i < |text| ==> buffer[i] == text[i];
    }
    ghost var replaced := Replaced(text, from, to);
    assert r[..i] == replaced by {
      forall j | 0 <= j < i
        ensures r[..i][j] == replaced[j]
      {
      }
    }
  }

  /** Where `from` and `to` differ, no `from` is left after the replacement. */
  lemma {:induction false} NoFromLeft(s: string, from: char, to: char)
    requires from != to
    ensures from !in Replaced(s, from, to)
  {
    var r := Replaced(s, from, to);
    forall k | 0 <= k < |r|
      ensures r[k] != from
    {
      assert r[k] == (if s[k] == from then to else s[k]);
    }
  }

  /** Replacing twice is replacing once. */
  lemma {:induction false} ReplaceIdempotent(s: string, from: char, to: char)
    ensures Replaced(Replaced(s, from, to), from, to) == Replaced(s, from, to)
  {
    var once := Replaced(s, from, to);
    var twice := Replaced(once, from, to);
    assert forall i :: 0 <= i < |s| ==> twice[i] == once[i] by {
      forall i | 0 <= i < |s|
        ensures twice[i] == once[i]
      {
        assert once[i] == (if s[i] == from then to else s[i]);
        assert twice[i] == (if once[i] == from then to else once[i]);
      }
    }
  }

  /** When `to` did not occur, replacing back restores the original string. */
  lemma {:induction false} ReplaceRoundTrip(s: string, from: char, to: char)
    requires to !in s
    ensures Replaced(Replaced(s, from, to), to, from) == s
  {
    var there := Replaced(s, from, to);
    var back := Replaced(there, to, from);
    forall i | 0 <= i < |s|
      ensures back[i] == s[i]
    {
      assert there[i] == (if s[i] == from then to else s[i]);
      assert back[i] == (if there[i] == to then from else there[i]);
      assert s[i] != to;
    }
  }

  // ---------------------------------------------------------------------------
  // Asset paths
  // ---------------------------------------------------------------------------

  /** The platform the wrapper is compiled for. */
  datatype Platform = Desktop | Android | Emscripten

  /** What a bounded `snprintf` call leaves behind: its return value and the C string it stores. */
  datatype Printed = Printed(ret: int, stored: Option<string>)

  /**
   * `snprintf` with a buffer of `size` bytes and `full` as the complete
   * output: nothing is stored for a zero size, otherwise as much of `full`
   * as fits before the terminator; the return value is the full length, or
   * -1 when that length does not fit an `int`.
   */
  function Snprintf(size: nat, full: string): (p: Printed)
    ensures InInt32(|full|) ==> p.ret == |full|
    ensures !InInt32(|full|) ==> p.ret == -1 && p.stored == None
    ensures InInt32(|full|) && size > 0 ==>
      p.stored.Some? && |p.stored.value| < size && p.stored.value <= full &&
      (|full| < size ==> p.stored.value == full)
    ensures size == 0 ==> p.stored == None
  {
    if !InInt32(|full|) then Printed(-1, None)
    else if size == 0 then Printed(|full|, None)
    else if |full| < size then Printed(|full|, Some(full))
    else Printed(|full|, Some(full[..size - 1]))
  }

  /** A `const char*` argument: NULL, or the characters of a C string. */
  predicate IsCStringOrNull(o: Option<string>) {
    o.Some? ==> IsCString(o.value)
  }

  const ASSETS_DIR: string := "assets/"
  const DESKTOP_ASSETS_DIR: string := "../../" + ASSETS_DIR

  /**
   * The complete path of an asset, or None when there is none: no file name,
   * or, on desktop, no base path.
   */
  function AssetPath(platform: Platform, fileName: Option<string>, basePath: Option<string>): (path: Option<string>)
    requires IsCStringOrNull(fileName) && IsCStringOrNull(basePath)
    ensures path.Some? <==> fileName.Some? && (platform == Desktop ==> basePath.Some?)
    ensures path.Some? ==>
      |fileName.value| <= |path.value| && path.value[|path.value| - |fileName.value|..] == fileName.value
    ensures path.Some? && platform == Desktop ==> basePath.value <= path.value
    ensures path.Some? ==> IsCString(path.value)
  {
    if fileName.None? then None
    else
      match platform
      case Android => Some(fileName.value)
      case Emscripten => Some(ASSETS_DIR + fileName.value)
      case Desktop => if basePath.None? then None else Some(basePath.value + DESKTOP_ASSETS_DIR + fileName.value)
  }

  /**
   * `okapp_getAssetPath`: -1 when there is no path; otherwise what `snprintf`
   * returns and stores for the complete path.
   */
  function GetAssetPath(platform: Platform, size: nat, fileName: Option<string>, basePath: Option<string>): (p: Printed)
    requires IsCStringOrNull(fileName) && IsCStringOrNull(basePath)
    ensures fileName.None? ==> p == Printed(-1, None)
    ensures platform == Desktop && basePath.None? ==> p == Printed(-1, None)
    ensures AssetPath(platform, fileName, basePath).Some? ==>
      p == Snprintf(size, AssetPath(platform, fileName, basePath).value)
  {
    var path := AssetPath(platform, fileName, basePath);
    if path.None? then Printed(-1, None) else Snprintf(size, path.value)
  }

  /** The path on each platform: the name, `assets/` and the name, or the base path, `../../assets/` and the name. */
  lemma {:induction false} AssetPathOnPlatforms(fileName: string, basePath: Option<string>)
    requires IsCString(fileName) && IsCStringOrNull(basePath)
    ensures AssetPath(Android, Some(fileName), basePath) == Some(fileName)
    ensures AssetPath(Emscripten, Some(fileName), basePath) == Some("assets/" + fileName)
    ensures basePath.Some? ==>
      AssetPath(Desktop, Some(fileName), basePath) == Some(basePath.value + "../../assets/" + fileName)
    ensures basePath.None? ==> AssetPath(Desktop, Some(fileName), basePath) == None
  {
    assert DESKTOP_ASSETS_DIR == "../../assets/";
  }

  /**
   * The two-pass allocation: the first call, with no buffer, asks for the
   * length; a positive length gets a buffer one byte longer, which the
   * second call fills. A non-positive answer to either call gives null.
   */
  function MallocAssetPath(platform: Platform, fileName: Option<string>, basePath: Option<string>): (r: Option<string>)
    requires IsCStringOrNull(fileName) && IsCStringOrNull(basePath)
    ensures r.Some? <==>
      var path := AssetPath(platform, fileName, basePath);
      path.Some? && 0 < |path.value| <= INT32_MAX
    ensures r.Some? ==> r == AssetPath(platform, fileName, basePath)
  {
    var query := GetAssetPath(platform, 0, fileName, basePath);
    if query.ret > 0 then
      var fill := GetAssetPath(platform, query.ret + 1, fileName, basePath);
      if fill.ret > 0 then fill.stored else None
    else None
  }

  /** A buffer one byte shorter than the length plus one holds only a truncated path, yet the return value is the full length. */
  lemma {:induction false} ShortBufferTruncates(platform: Platform, fileName: Option<string>, basePath: Option<string>, size: nat)
    requires IsCStringOrNull(fileName) && IsCStringOrNull(basePath)
    requires AssetPath(platform, fileName, basePath).Some?
    requires 0 < size <= |AssetPath(platform, fileName, basePath).value| <= INT32_MAX
    ensures GetAssetPath(platform, size, fileName, basePath).ret == |AssetPath(platform, fileName, basePath).value|
    ensures GetAssetPath(platform, size, fileName, basePath).stored
            == Some(AssetPath(platform, fileName, basePath).value[..size - 1])
  {
  }

  // ---------------------------------------------------------------------------
  // Window mode
  // ---------------------------------------------------------------------------

  /** The SDL2 window flags for real and desktop full screen: the desktop flag includes the real one's bit. */
  const SDL_WINDOW_FULLSCREEN: bv32 := 0x0000_0001
  const SDL_WINDOW_FULLSCREEN_DESKTOP: bv32 := 0x0000_1001

  datatype WindowMode = Windowed | FullscreenWindow | Fullscreen

  /** The full-screen flags `okapp_setWindowMode` passes to SDL for a mode. */
  function WindowModeFlags(mode: WindowMode): (flags: bv32)
    ensures flags & !SDL_WINDOW_FULLSCREEN_DESKTOP == 0
  {
    match mode
    case Windowed => 0
    case FullscreenWindow => SDL_WINDOW_FULLSCREEN_DESKTOP
    case Fullscreen => SDL_WINDOW_FULLSCREEN
  }

  /**
   * The window's flags after `okapp_setWindowMode`: SDL replaces the
   * full-screen bits and keeps every other flag.
   */
  function SetWindowMode(flags: bv32, mode: WindowMode): (r: bv32)
    ensures r & !SDL_WINDOW_FULLSCREEN_DESKTOP == flags & !SDL_WINDOW_FULLSCREEN_DESKTOP
    ensures r & SDL_WINDOW_FULLSCREEN_DESKTOP == WindowModeFlags(mode)
  {
    (flags & !SDL_WINDOW_FULLSCREEN_DESKTOP) | WindowModeFlags(mode)
  }

  /**
   * `okapp_getWindowMode` as written: it tests the desktop flag with `!= 0`,
   * and since that flag includes the real full-screen bit, a real
   * full-screen window is reported as a full-screen desktop window and
   * FULLSCREEN is never returned.
   */
  function GetWindowModeAsWritten(flags: bv32): (mode: WindowMode)
    ensures mode != Fullscreen
    ensures mode == Windowed <==> flags & SDL_WINDOW_FULLSCREEN_DESKTOP == 0
  {
    if flags & SDL_WINDOW_FULLSCREEN_DESKTOP != 0 then FullscreenWindow
    else if flags & SDL_WINDOW_FULLSCREEN != 0 then Fullscreen
    else Windowed
  }

  /** `okapp_getWindowMode` as intended: the desktop mode needs all of its bits. */
  function GetWindowMode(flags: bv32): (mode: WindowMode)
    ensures mode == FullscreenWindow <==> flags & SDL_WINDOW_FULLSCREEN_DESKTOP == SDL_WINDOW_FULLSCREEN_DESKTOP
    ensures mode == Windowed <==> flags & SDL_WINDOW_FULLSCREEN == 0
  {
    if flags & SDL_WINDOW_FULLSCREEN_DESKTOP == SDL_WINDOW_FULLSCREEN_DESKTOP then FullscreenWindow
    else if flags & SDL_WINDOW_FULLSCREEN != 0 then Fullscreen
    else Windowed
  }

  /** The mode read back after setting one is the mode set, whatever the other flags. */
  lemma {:induction false} WindowModeRoundTrip(flags: bv32, mode: WindowMode)
    ensures GetWindowMode(SetWindowMode(flags, mode)) == mode
  {
  }

  /** As written, setting FULLSCREEN reads back as FULLSCREEN_WINDOW. */
  lemma {:induction false} FullscreenReadsBackAsWindow(flags: bv32)
    ensures GetWindowModeAsWritten(SetWindowMode(flags, Fullscreen)) == FullscreenWindow
    ensures GetWindowMode(SetWindowMode(flags, Fullscreen)) == Fullscreen
  {
  }

  /** For the windowed and desktop full-screen modes, the reading as written is right. */
  lemma {:induction false} WindowModeReadingsAgree(flags: bv32, mode: WindowMode)
    requires mode != Fullscreen
    ensures GetWindowModeAsWritten(SetWindowMode(flags, mode)) == mode
  {
  }

  // ---------------------------------------------------------------------------
  // Event translation
  // ---------------------------------------------------------------------------

  /** SDL2's key code of the Android back key, and the mouse id SDL gives mouse events it emulates from touches. */
  const SDLK_AC_BACK: int := 0x4000_010E
  const SDL_TOUCH_MOUSEID: int := 0xFFFF_FFFF

  /**
   * The SDL events the main loop looks at; pointer coordinates are left
   * out. Touch and finger ids are 64-bit, mouse ids 32-bit unsigned.
   */
  datatype SdlEvent =
    | QuitEvent
    | KeyDown(sym: int, scancode: int)
    | KeyUp(sym: int, scancode: int)
    | FingerDown(touchId: int, fingerId: int)
    | FingerUp(touchId: int, fingerId: int)
    | FingerMotion(touchId: int, fingerId: int)
    | MouseButtonDown(which: int, button: int)
    | MouseButtonUp(which: int, button: int)
    | MouseMotion(which: int)
    | MouseWheel
    | WindowEvent(ownWindow: bool, sizeChanged: bool)
    | OtherEvent

  datatype KeyEventType = KeyPressed | KeyReleased
  datatype PointerEventType = PointerDown | PointerUp | PointerMove | PointerScroll

  /** The events handed to the app's callbacks. */
  datatype AppEvent =
    | KeyEvent(keyType: KeyEventType, keyCode: int, scanCode: int)
    | PointerEvent(pointerType: PointerEventType, sourceId: int, index: int)
    | SizeChanged

  /** Which callbacks the app registered (a NULL callback is skipped). */
  datatype Callbacks = Callbacks(onKey: bool, onPointer: bool, onSizeChanged: bool)

  /** What the main loop does with one event: the app events it delivers and whether it queues quit. */
  datatype Step = Step(delivered: seq<AppEvent>, quit: bool)

  predicate IsTouchMouse(which: int) {
    which == SDL_TOUCH_MOUSEID
  }

  /** An app event reaches the app only through a callback it registered. */
  predicate Permitted(cb: Callbacks, a: AppEvent) {
    && (a.KeyEvent? ==> cb.onKey)
    && (a.PointerEvent? ==> cb.onPointer)
    && (a.SizeChanged? ==> cb.onSizeChanged)
  }

  /** One turn of the event `switch` in the main loop. */
  function Translate(cb: Callbacks, e: SdlEvent): (s: Step)
    ensures |s.delivered| <= 1
    ensures s.quit <==> e.QuitEvent? || (e.KeyUp? && e.sym == SDLK_AC_BACK)
    ensures (e.MouseButtonDown? || e.MouseButtonUp?) && IsTouchMouse(e.which) ==> s == Step([], false)
    ensures e.MouseMotion? && IsTouchMouse(e.which) ==> s == Step([], false)
    ensures forall k :: 0 <= k < |s.delivered| ==> Permitted(cb, s.delivered[k])
  {
    match e
    case QuitEvent => Step([], true)
    case KeyDown(sym, scancode) =>
      Step(if cb.onKey then [KeyEvent(KeyPressed, sym, scancode)] else [], false)
    case KeyUp(sym, scancode) =>
      Step(if cb.onKey then [KeyEvent(KeyReleased, sym, scancode)] else [], sym == SDLK_AC_BACK)
    case FingerDown(touchId, fingerId) =>
      Step(if cb.onPointer then [PointerEvent(PointerDown, Wrap32(touchId), Wrap32(fingerId))] else [], false)
    case FingerUp(touchId, fingerId) =>
      Step(if cb.onPointer then [PointerEvent(PointerUp, Wrap32(touchId), Wrap32(fingerId))] else [], false)
    case FingerMotion(touchId, fingerId) =>
      Step(if cb.onPointer then [PointerEvent(PointerMove, Wrap32(touchId), Wrap32(fingerId))] else [], false)
    case MouseButtonDown(which, button) =>
      Step(if !IsTouchMouse(which) && cb.onPointer then [PointerEvent(PointerDown, -1, button)] else [], false)
    case MouseButtonUp(which, button) =>
      Step(if !IsTouchMouse(which) && cb.onPointer then [PointerEvent(PointerUp, -1, button)] else [], false)
    case MouseMotion(which) =>
      Step(if !IsTouchMouse(which) && cb.onPointer then [PointerEvent(PointerMove, -1, -1)] else [], false)
    case MouseWheel =>
      Step(if cb.onPointer then [PointerEvent(PointerScroll, -1, -1)] else [], false)
    case WindowEvent(ownWindow, sizeChanged) =>
      Step(if ownWindow && sizeChanged && cb.onSizeChanged then [SizeChanged] else [], false)
    case OtherEvent => Step([], false)
  }

  /** With a key callback, key presses and releases reach the app one for one, codes copied. */
  lemma {:induction false} KeyEventsOneToOne(cb: Callbacks, sym: int, scancode: int)
    requires cb.onKey
    ensures Translate(cb, KeyDown(sym, scancode)).delivered == [KeyEvent(KeyPressed, sym, scancode)]
    ensures Translate(cb, KeyUp(sym, scancode)).delivered == [KeyEvent(KeyReleased, sym, scancode)]
  {
  }

  /** Every pointer event the app gets from a real mouse carries source id -1. */
  lemma {:induction false} MouseEventsHaveNoSource(cb: Callbacks, e: SdlEvent)
    requires e.MouseButtonDown? || e.MouseButtonUp? || e.MouseMotion? || e.MouseWheel?
    ensures forall k :: 0 <= k < |Translate(cb, e).delivered| ==>
      Translate(cb, e).delivered[k].PointerEvent? && Translate(cb, e).delivered[k].sourceId == -1
  {
  }

  /** The events polled in one frame, handled in order. */
  function MainLoop(cb: Callbacks, events: seq<SdlEvent>, done: bool): (r: Step)
    ensures |r.delivered| <= |events|
    ensures forall k :: 0 <= k < |r.delivered| ==> Permitted(cb, r.delivered[k])
    decreases |events|
  {
    if events == [] then Step([], done)
    else
      var first := Translate(cb, events[0]);
      var rest := MainLoop(cb, events[1..], done || first.quit);
      Step(first.delivered + rest.delivered, rest.quit)
  }

  /** The turns of the event `switch` for a frame's events, in polling order. */
  function Turns(cb: Callbacks, events: seq<SdlEvent>): (ts: seq<Step>)
    ensures |ts| == |events|
    ensures forall k :: 0 <= k < |events| ==> ts[k] == Translate(cb, events[k])
    decreases |events|
  {
    if events == [] then [] else [Translate(cb, events[0])] + Turns(cb, events[1..])
  }

  /** The turns of two batches are the turns of the first, then those of the second. */
  lemma {:induction false} TurnsSplit(cb: Callbacks, a: seq<SdlEvent>, b: seq<SdlEvent>)
    ensures Turns(cb, a + b) == Turns(cb, a) + Turns(cb, b)
    decreases |a|
  {
    if a == [] {
      assert a + b == b;
    } else {
      assert (a + b)[0] == a[0] && (a + b)[1..] == a[1..] + b;
      TurnsSplit(cb, a[1..], b);
    }
  }

  /** A loop over turns already taken: their deliveries in order, and a quit flag that latches. */
  function Run(ts: seq<Step>, done: bool): (r: Step)
    decreases |ts|
  {
    if ts == [] then Step([], done)
    else
      var rest := Run(ts[1..], done || ts[0].quit);
      Step(ts[0].delivered + rest.delivered, rest.quit)
  }

  /** The frame loop is the run of its turns. */
  lemma {:induction false} MainLoopIsRun(cb: Callbacks, events: seq<SdlEvent>, done: bool)
    ensures MainLoop(cb, events, done) == Run(Turns(cb, events), done)
    decreases |events|
  {
    if events != [] {
      var ts := Turns(cb, events);
      assert ts[0] == Translate(cb, events[0]) && ts[1..] == Turns(cb, events[1..]);
      MainLoopIsRun(cb, events[1..], done || ts[0].quit);
    }
  }

  /** Running two lists of turns in sequence is running their concatenation. */
  lemma {:induction false} RunSplit(a: seq<Step>, b: seq<Step>, done: bool)
    ensures Run(a + b, done).delivered == Run(a, done).delivered + Run(b, done).delivered
    ensures Run(a + b, done).quit == Run(b, Run(a, done).quit).quit
    decreases |a|
  {
    if a == [] {
      assert a + b == b;
    } else {
      var q := done || a[0].quit;
      assert (a + b)[0] == a[0] && (a + b)[1..] == a[1..] + b;
      RunSplit(a[1..], b, q);
      RunIgnoresDone(b, q, done);
    }
  }

  /** The deliveries of a run do not depend on the quit flag it starts with: the loop drains the queue. */
  lemma {:induction false} RunIgnoresDone(ts: seq<Step>, d1: bool, d2: bool)
    ensures Run(ts, d1).delivered == Run(ts, d2).delivered
    decreases |ts|
  {
    if ts != [] {
      RunIgnoresDone(ts[1..], d1 || ts[0].quit, d2 || ts[0].quit);
    }
  }

  /**
   * Handling two batches of events in turn is handling their concatenation:
   * the deliveries of the first batch come first, and the quit flag carries over.
   */
  lemma MainLoopSplit(cb: Callbacks, a: seq<SdlEvent>, b: seq<SdlEvent>, done: bool)
    ensures MainLoop(cb, a + b, done).delivered == MainLoop(cb, a, done).delivered + MainLoop(cb, b, done).delivered
    ensures MainLoop(cb, a + b, done).quit == MainLoop(cb, b, MainLoop(cb, a, done).quit).quit
  {
    var ta, tb := Turns(cb, a), Turns(cb, b);
    TurnsSplit(cb, a, b);
    MainLoopIsRun(cb, a + b, done);
    MainLoopIsRun(cb, a, done);
    MainLoopIsRun(cb, b, done);
    MainLoopIsRun(cb, b, Run(ta, done).quit);
    RunSplit(ta, tb, done);
  }

  /** One more polled event appends exactly its own translation to what the app receives. */
  lemma MainLoopDeliversInOrder(cb: Callbacks, events: seq<SdlEvent>, e: SdlEvent, done: bool)
    ensures MainLoop(cb, events + [e], done).delivered == MainLoop(cb, events, done).delivered + Translate(cb, e).delivered
  {
    MainLoopSplit(cb, events, [e], done);
    assert [e][1..] == [];
  }

  /** After a frame the app is done iff it was already, or some event asked to quit. */
  lemma {:induction false} MainLoopQuits(cb: Callbacks, events: seq<SdlEvent>, done: bool)
    ensures MainLoop(cb, events, done).quit <==>
      done || exists k :: 0 <= k < |events| && Translate(cb, events[k]).quit
    decreases |events|
  {
    if events != [] {
      MainLoopQuits(cb, events[1..], done || Translate(cb, events[0]).quit);
      if Translate(cb, events[0]).quit {
        assert 0 < |events| && Translate(cb, events[0]).quit;
      }
      forall k | 0 < k < |events|
        ensures Translate(cb, events[k]) == Translate(cb, events[1..][k - 1])
      {
      }
      if exists k :: 0 <= k < |events| && Translate(cb, events[k]).quit {
        var k :| 0 <= k < |events| && Translate(cb, events[k]).quit;
        if k > 0 {
          assert Translate(cb, events[1..][k - 1]).quit;
        }
      }
    }
  }

  /** A frame of touch-emulated mouse events delivers nothing. */
  lemma {:induction false} EmulatedMouseDropped(cb: Callbacks, events: seq<SdlEvent>, done: bool)
    requires forall k :: 0 <= k < |events| ==>
      (events[k].MouseButtonDown? || events[k].MouseButtonUp? || events[k].MouseMotion?) && IsTouchMouse(events[k].which)
    ensures MainLoop(cb, events, done) == Step([], done)
    decreases |events|
  {
    if events != [] {
      EmulatedMouseDropped(cb, events[1..], done);
    }
  }
}
