/**
 * The state rules of the SDF text demo: how the font atlas grows when
 * Fontstash reports it full, and what the key and pointer handlers do to
 * the demo's flags and the window. Drawing, fonts and the floating-point
 * pan and zoom are not part of this model.
 */
module SdfDemo {
  import opened Base
  import opened AppWrapper

  // ---------------------------------------------------------------------------
  // Atlas growth
  // ---------------------------------------------------------------------------

  /** The atlas's size after one growth step: expanded, or reset to the largest texture. */
  datatype Atlas = Atlas(width: int, height: int, reset: bool)

  /**
   * `fontStashEexpandAtlas`: the smaller side doubles (the height on a tie);
   * if either side then exceeds the largest texture size the atlas is reset
   * to a square of that size.
   */
  function ExpandAtlas(w: int, h: int, maxSize: int): (a: Atlas)
    requires w < h ==> InInt32(2 * w)
    requires w >= h ==> InInt32(2 * h)
    ensures a.reset ==> a.width == maxSize && a.height == maxSize
    ensures !a.reset ==> a.width <= maxSize && a.height <= maxSize
    ensures !a.reset && w < h ==> a.width == 2 * w && a.height == h
    ensures !a.reset && w >= h ==> a.width == w && a.height == 2 * h
    ensures a.reset <==> (if w < h then 2 * w > maxSize || h > maxSize else w > maxSize || 2 * h > maxSize)
  {
    var w' := if w < h then 2 * w else w;
    var h' := if w < h then h else 2 * h;
    if w' > maxSize || h' > maxSize then Atlas(maxSize, maxSize, true)
    else Atlas(w', h', false)
  }

  /** Whatever the starting size, the atlas never exceeds the largest texture in either side. */
  lemma {:induction false} AtlasWithinMax(w: int, h: int, maxSize: int)
    requires w < h ==> InInt32(2 * w)
    requires w >= h ==> InInt32(2 * h)
    ensures ExpandAtlas(w, h, maxSize).width <= maxSize
    ensures ExpandAtlas(w, h, maxSize).height <= maxSize
  {
  }

  /** An atlas within the largest texture never shrinks when it grows. */
  lemma {:induction false} AtlasNeverShrinks(w: int, h: int, maxSize: int)
    requires 0 <= w <= maxSize && 0 <= h <= maxSize && maxSize <= INT32_MAX / 2
    ensures ExpandAtlas(w, h, maxSize).width >= w
    ensures ExpandAtlas(w, h, maxSize).height >= h
  {
  }

  /**
   * Starting from a square, the atlas stays a square or a rectangle twice as
   * high as it is wide: growth alternates between the height and the width.
   */
  predicate AtlasShape(w: int, h: int) {
    0 < w && (h == w || h == 2 * w)
  }

  lemma {:induction false} AtlasShapeKept(w: int, h: int, maxSize: int)
    requires AtlasShape(w, h) && AtlasShape(maxSize, maxSize) && InInt32(2 * h)
    ensures AtlasShape(ExpandAtlas(w, h, maxSize).width, ExpandAtlas(w, h, maxSize).height)
  {
  }

  /** A square at the largest size stays there: every further growth is a reset. */
  lemma {:induction false} FullAtlasStaysAtMax(maxSize: int)
    requires 0 < maxSize && InInt32(2 * maxSize)
    ensures ExpandAtlas(maxSize, maxSize, maxSize) == Atlas(maxSize, maxSize, true)
  {
  }

  // ---------------------------------------------------------------------------
  // Key and pointer handlers
  // ---------------------------------------------------------------------------

  /** SDL2's escape key code; the demo's other keys are plain characters. */
  const SDLK_ESCAPE: int := 27
  const KEY_RELOAD: int := 'r' as int
  const KEY_CACHE: int := 'c' as int
  const KEY_FULLSCREEN: int := 'f' as int

  /** The demo's integer flags, as booleans. */
  datatype DemoState = DemoState(showCache: bool, dragging: bool)

  /** What a key press leaves behind: the flags, the window's flags, and the requests it made. */
  datatype KeyOutcome = KeyOutcome(state: DemoState, windowFlags: bv32, quit: bool, reloadShaders: bool)

  /**
   * `onKeyEvent`: only key presses count. Escape asks to quit, `r` reloads
   * the shaders, `c` flips whether the atlas is shown, and `f` switches the
   * window to desktop full screen, or back to windowed when it already is.
   */
  function OnKeyEvent(s: DemoState, windowFlags: bv32, e: AppEvent): (o: KeyOutcome)
    requires e.KeyEvent?
    ensures e.keyType == KeyReleased ==> o == KeyOutcome(s, windowFlags, false, false)
    ensures o.quit <==> e.keyType == KeyPressed && e.keyCode == SDLK_ESCAPE
    ensures o.reloadShaders <==> e.keyType == KeyPressed && e.keyCode == KEY_RELOAD
    ensures o.state.dragging == s.dragging
    ensures o.state.showCache != s.showCache <==> e.keyType == KeyPressed && e.keyCode == KEY_CACHE
    ensures o.windowFlags != windowFlags ==> e.keyType == KeyPressed && e.keyCode == KEY_FULLSCREEN
  {
    if e.keyType != KeyPressed then KeyOutcome(s, windowFlags, false, false)
    else if e.keyCode == SDLK_ESCAPE then KeyOutcome(s, windowFlags, true, false)
    else if e.keyCode == KEY_RELOAD then KeyOutcome(s, windowFlags, false, true)
    else if e.keyCode == KEY_CACHE then KeyOutcome(s.(showCache := !s.showCache), windowFlags, false, false)
    else if e.keyCode == KEY_FULLSCREEN then
      var mode := if GetWindowMode(windowFlags) != FullscreenWindow then FullscreenWindow else Windowed;
      KeyOutcome(s, SetWindowMode(windowFlags, mode), false, false)
    else KeyOutcome(s, windowFlags, false, false)
  }

  /** Pressing `c` twice restores whether the atlas is shown. */
  lemma {:induction false} CacheToggleTwice(s: DemoState, windowFlags: bv32, scanCode: int)
    ensures
      var press := KeyEvent(KeyPressed, KEY_CACHE, scanCode);
      OnKeyEvent(OnKeyEvent(s, windowFlags, press).state, windowFlags, press).state == s
  {
  }

  /** `f` goes to desktop full screen from any other mode and back to windowed from it. */
  lemma {:induction false} FullscreenKeySwitches(s: DemoState, windowFlags: bv32, scanCode: int)
    ensures
      var after := OnKeyEvent(s, windowFlags, KeyEvent(KeyPressed, KEY_FULLSCREEN, scanCode)).windowFlags;
      GetWindowMode(after) == (if GetWindowMode(windowFlags) == FullscreenWindow then Windowed else FullscreenWindow)
  {
    WindowModeRoundTrip(windowFlags, FullscreenWindow);
    WindowModeRoundTrip(windowFlags, Windowed);
  }

  /** Two presses of `f` from a windowed window return it to windowed, other flags untouched. */
  lemma {:induction false} FullscreenKeyTwice(s: DemoState, windowFlags: bv32, scanCode: int)
    requires GetWindowMode(windowFlags) == Windowed
    ensures
      var press := KeyEvent(KeyPressed, KEY_FULLSCREEN, scanCode);
      var once := OnKeyEvent(s, windowFlags, press);
      var twice := OnKeyEvent(once.state, once.windowFlags, press);
      GetWindowMode(twice.windowFlags) == Windowed &&
      twice.windowFlags & !SDL_WINDOW_FULLSCREEN_DESKTOP == windowFlags & !SDL_WINDOW_FULLSCREEN_DESKTOP
  {
    FullscreenKeySwitches(s, windowFlags, scanCode);
    var press := KeyEvent(KeyPressed, KEY_FULLSCREEN, scanCode);
    var once := OnKeyEvent(s, windowFlags, press);
    FullscreenKeySwitches(once.state, once.windowFlags, scanCode);
  }

  /**
   * `onPointerEvent`: a press starts a drag and a release ends it; moves and
   * scrolls keep the flag (they pan and zoom, which this model leaves out).
   */
  function OnPointerEvent(s: DemoState, e: AppEvent): (r: DemoState)
    requires e.PointerEvent?
    ensures r.showCache == s.showCache
    ensures e.pointerType == PointerDown ==> r.dragging
    ensures e.pointerType == PointerUp ==> !r.dragging
    ensures e.pointerType != PointerDown && e.pointerType != PointerUp ==> r == s
  {
    match e.pointerType
    case PointerDown => s.(dragging := true)
    case PointerUp => s.(dragging := false)
    case _ => s
  }

  /** Between a press and a release, moves keep the drag going; the release ends it. */
  lemma {:induction false} DragSequence(s: DemoState, moves: nat, down: AppEvent, move: AppEvent, up: AppEvent)
    requires down.PointerEvent? && down.pointerType == PointerDown
    requires move.PointerEvent? && move.pointerType == PointerMove
    requires up.PointerEvent? && up.pointerType == PointerUp
    ensures DragAfterMoves(OnPointerEvent(s, down), move, moves).dragging
    ensures !OnPointerEvent(DragAfterMoves(OnPointerEvent(s, down), move, moves), up).dragging
  {
    MovesKeepState(OnPointerEvent(s, down), move, moves);
  }

  /** The state after `n` identical move events. */
  function DragAfterMoves(s: DemoState, move: AppEvent, n: nat): DemoState
    requires move.PointerEvent? && move.pointerType == PointerMove
  {
    if n == 0 then s else DragAfterMoves(OnPointerEvent(s, move), move, n - 1)
  }

  lemma {:induction false} MovesKeepState(s: DemoState, move: AppEvent, n: nat)
    requires move.PointerEvent? && move.pointerType == PointerMove
    ensures DragAfterMoves(s, move, n) == s
  {
    if n > 0 {
      MovesKeepState(OnPointerEvent(s, move), move, n - 1);
    }
  }
}
