/**
 * The public configuration calls of `oklog.h` and the lazy initialisation
 * that each of them runs first.
 *
 * Every call takes the context and returns the updated one. The first call
 * that initialises the logger installs the default colours, resolves the
 * `AUTO` colour mode and installs the default format of the build; `Env`
 * supplies the two facts that depend on the machine and the build.
 */
module LogApi {
  import opened Base
  import opened Decimal
  import opened LogTypes
  import opened LogColor
  import opened LogFormat
  import opened LogFormatFacts
  import opened LogFormatCases

  /** Each colour index is either "none" or inside its palette. */
  predicate InPalette(spec: ColorSpec) {
    && (spec.fgAnsi == COLOR_NONE || InAnsiRange(spec.fgAnsi))
    && (spec.bgAnsi == COLOR_NONE || InAnsiRange(spec.bgAnsi))
    && (spec.fgAnsi256 == COLOR_NONE || InAnsi256Range(spec.fgAnsi256))
    && (spec.bgAnsi256 == COLOR_NONE || InAnsi256Range(spec.bgAnsi256))
  }

  /** The label colours installed at initialisation, indexed by level. */
  function DefaultLabelColors(): (cs: seq<ColorSpec>)
    ensures |cs| == NUM_LOG_LEVELS
    // Every index starts at "none" and only palette colours are set.
    ensures cs[LEVEL_ALL] == NoColors
    ensures forall i :: 0 <= i < |cs| ==> InPalette(cs[i])
    // Every level from VERBOSE to FATAL gets a label foreground in both palettes.
    ensures forall i :: LEVEL_VERBOSE <= i <= LEVEL_FATAL ==> InAnsiRange(cs[i].fgAnsi) && InAnsi256Range(cs[i].fgAnsi256)
  {
    [NoColors,
     ColorSpec(COLOR_BRIGHT_CYAN, 45, COLOR_NONE, COLOR_NONE),
     ColorSpec(COLOR_BRIGHT_CYAN, 45, COLOR_NONE, COLOR_NONE),
     ColorSpec(COLOR_BRIGHT_GREEN, 40, COLOR_NONE, COLOR_NONE),
     ColorSpec(COLOR_BRIGHT_YELLOW, 220, COLOR_NONE, COLOR_NONE),
     ColorSpec(COLOR_BRIGHT_RED, 160, COLOR_NONE, COLOR_NONE),
     ColorSpec(COLOR_BRIGHT_RED, 255, COLOR_NONE, 160)]
  }

  /** The message colours installed at initialisation: INFO messages are not coloured. */
  function DefaultMessageColors(): (cs: seq<ColorSpec>)
    ensures |cs| == NUM_LOG_LEVELS
    ensures cs[LEVEL_ALL] == NoColors && cs[LEVEL_INFO] == NoColors
    ensures forall i :: 0 <= i < |cs| ==> InPalette(cs[i])
    // VERBOSE and DEBUG messages are dimmed in 256-colour mode only.
    ensures forall i :: LEVEL_VERBOSE <= i <= LEVEL_DEBUG ==> cs[i].fgAnsi == COLOR_NONE && InAnsi256Range(cs[i].fgAnsi256)
    ensures forall i :: LEVEL_WARNING <= i <= LEVEL_FATAL ==> InAnsiRange(cs[i].fgAnsi) && InAnsi256Range(cs[i].fgAnsi256)
  {
    [NoColors,
     ColorSpec(COLOR_NONE, 240, COLOR_NONE, COLOR_NONE),
     ColorSpec(COLOR_NONE, 240, COLOR_NONE, COLOR_NONE),
     NoColors,
     ColorSpec(COLOR_BRIGHT_YELLOW, 220, COLOR_NONE, COLOR_NONE),
     ColorSpec(COLOR_BRIGHT_RED, 160, COLOR_NONE, COLOR_NONE),
     ColorSpec(COLOR_BRIGHT_RED, 255, COLOR_NONE, 160)]
  }

  /**
   * The mode a request resolves to. `AUTO` becomes 256 colours when the
   * output accepts escape codes and no colours otherwise.
   */
  function ResolveMode(mode: ColorMode, env: Env): (r: ColorMode)
    ensures r != ModeAuto
    ensures mode != ModeAuto ==> r == mode
    ensures mode == ModeAuto ==> (r == ModeAnsi256 <==> env.terminalColors) && (r == ModeNone <==> !env.terminalColors)
  {
    if mode != ModeAuto then mode
    else if env.terminalColors then ModeAnsi256
    else ModeNone
  }

  /**
   * `oklog_setColorMode` once the logger is initialised. Both caches are
   * regenerated, but only when the resolved mode differs from the old one.
   */
  function SetColorModeCore(c: LogContext, env: Env, mode: ColorMode): (r: LogContext)
    requires Shaped(c)
    ensures Shaped(r) && r.colorMode == ResolveMode(mode, env)
    ensures r.colorMode == c.colorMode ==> r == c
    ensures r.colorMode != c.colorMode ==> LevelCachesFresh(r) && FieldCachesFresh(r)
    ensures r == c.(colorMode := r.colorMode, labelColorCode := r.labelColorCode,
                    messageColorCode := r.messageColorCode, fields := r.fields)
    ensures forall i :: 0 <= i < |c.fields| ==> r.fields[i] == c.fields[i].(colorCode := r.fields[i].colorCode)
  {
    var m := ResolveMode(mode, env);
    if m == c.colorMode then c
    else UpdateFieldColorCache(UpdateLogLevelColorCache(c.(colorMode := m)))
  }

  /** `oklog_setFormat` on the build's default format, which never runs past its end. */
  function InstallDefaultFormat(c: LogContext, debugBuild: bool): (r: LogContext)
    requires Shaped(c)
    ensures ApplyFormat(c, DefaultFormatFor(debugBuild), AsWritten) == Some(r)
    ensures r.fieldCount == |DefaultSpecsFor(debugBuild)|
  {
    DefaultFormatAsWritten(c, debugBuild, 0);
    ApplyFormat(c, DefaultFormatFor(debugBuild), AsWritten).value
  }

  /**
   * `okimpllog_confirmInit`: nothing once initialised; otherwise all colours
   * are reset to the defaults, the colour mode is set to `AUTO`, and the
   * filter and format are set for the build.
   */
  function ConfirmInit(c: LogContext, env: Env): (r: LogContext)
    requires Shaped(c)
    ensures Shaped(r) && r.initDone
    ensures c.initDone ==> r == c
    ensures !c.initDone ==>
      && r.logLevelFilter == (if env.debugBuild then LEVEL_DEBUG else LEVEL_INFO)
      && r.colorMode == ResolveMode(ModeAuto, env)
      && r.filterCallback == c.filterCallback
      && r.labelColors == DefaultLabelColors() && r.messageColors == DefaultMessageColors()
      && r.fieldCount == |DefaultSpecsFor(env.debugBuild)|
  {
    if c.initDone then c
    else
      var c1 := c.(initDone := true, labelColors := DefaultLabelColors(), messageColors := DefaultMessageColors());
      var c2 := SetColorModeCore(c1, env, ModeAuto);
      var c3 := c2.(logLevelFilter := if env.debugBuild then LEVEL_DEBUG else LEVEL_INFO);
      InstallDefaultFormat(c3, env.debugBuild)
  }

  /**
   * The fields initialisation installs are those of the build's default
   * format: the static context's slots hold no old trailer bytes for the
   * reset as written to leave behind.
   */
  lemma {:induction false} InitFields(c: LogContext, env: Env, m: nat)
    requires Shaped(c) && !c.initDone && m < |DefaultSpecsFor(env.debugBuild)|
    requires c.fields[m].padEnd == ZeroPadEnd
    ensures FieldMatches(ConfirmInit(c, env).fields[m], DefaultSpecsFor(env.debugBuild)[m])
  {
    var c1 := c.(initDone := true, labelColors := DefaultLabelColors(), messageColors := DefaultMessageColors());
    var c3 := SetColorModeCore(c1, env, ModeAuto).(logLevelFilter := if env.debugBuild then LEVEL_DEBUG else LEVEL_INFO);
    DefaultFormatAsWritten(c3, env.debugBuild, m);
  }

  /** Initialising the static context installs the fields of the build's default format. */
  lemma {:induction false} StaticInitFields(env: Env, m: nat)
    requires m < |DefaultSpecsFor(env.debugBuild)|
    ensures FieldMatches(ConfirmInit(StaticContext(), env).fields[m], DefaultSpecsFor(env.debugBuild)[m])
  {
    InitFields(StaticContext(), env, m);
  }

  /**
   * Between calls the context is either the untouched static one or an
   * initialised one whose caches agree with its colours.
   */
  ghost predicate Reachable(c: LogContext) {
    if c.initDone then Valid(c) else c == StaticContext()
  }

  /** The clamp of `oklog_setLogLevelFilter`. */
  function ClampLevel(level: int): (r: int)
    ensures IsLevel(r)
    ensures IsLevel(level) ==> r == level
    ensures level > LEVEL_SILENT ==> r == LEVEL_SILENT
    ensures level < LEVEL_ALL ==> r == LEVEL_ALL
  {
    if level > LEVEL_SILENT then LEVEL_SILENT
    else if level < LEVEL_ALL then LEVEL_ALL
    else level
  }

  /** `oklog_setLogLevelFilter`: only the (clamped) filter changes. */
  function SetLogLevelFilter(c: LogContext, env: Env, level: int): (r: LogContext)
    requires Shaped(c)
    ensures r == ConfirmInit(c, env).(logLevelFilter := r.logLevelFilter)
    ensures r.logLevelFilter == ClampLevel(level)
  {
    ConfirmInit(c, env).(logLevelFilter := ClampLevel(level))
  }

  /** `oklog_getLogLevelFilter`, with the context it initialises. */
  function GetLogLevelFilter(c: LogContext, env: Env): (r: (LogContext, int))
    requires Shaped(c)
    ensures r.0 == ConfirmInit(c, env) && r.1 == r.0.logLevelFilter
  {
    var c1 := ConfirmInit(c, env);
    (c1, c1.logLevelFilter)
  }

  /** `oklog_setFilterCallback`: None removes the callback. */
  function SetFilterCallback(c: LogContext, env: Env, callback: Option<FilterCallback>): (r: LogContext)
    requires Shaped(c)
    ensures r == ConfirmInit(c, env).(filterCallback := callback)
  {
    ConfirmInit(c, env).(filterCallback := callback)
  }

  /**
   * `oklog_setFormat` as written: each field it adds clears only the first
   * byte of its `padEnd`. None when the parser would step past the end of
   * the format, which the C code does for some malformed formats. Only the
   * fields change.
   */
  function SetFormat(c: LogContext, env: Env, fmt: string): (r: Option<LogContext>)
    requires Shaped(c) && IsCString(fmt)
    ensures r.Some? ==> r.value == ConfirmInit(c, env).(fields := r.value.fields, fieldCount := r.value.fieldCount)
    ensures r.Some? ==> Shaped(r.value) && FieldCachesFresh(r.value) && r.value.fieldCount <= MAX_FIELD_COUNT
  {
    ApplyFormat(ConfirmInit(c, env), fmt, AsWritten)
  }

  /** `oklog_setFormat` with each added field's whole `padEnd` cleared, as evidently intended. */
  function SetFormatCorrected(c: LogContext, env: Env, fmt: string): (r: Option<LogContext>)
    requires Shaped(c) && IsCString(fmt)
    ensures r.Some? ==> r.value == ConfirmInit(c, env).(fields := r.value.fields, fieldCount := r.value.fieldCount)
    ensures r.Some? ==> Shaped(r.value) && FieldCachesFresh(r.value) && r.value.fieldCount <= MAX_FIELD_COUNT
  {
    ApplyFormat(ConfirmInit(c, env), fmt, Corrected)
  }

  /**
   * A format of keyword segments, set as written: one field per segment, of
   * the segment's keyword, printing its trailer followed by whatever bytes of
   * the slot's old `padEnd` the trailer did not cover.
   */
  lemma {:induction false} SetFormatSegments(c: LogContext, env: Env, specs: seq<FieldSpec>, m: nat) returns (r: LogContext)
    requires Shaped(c) && |specs| <= MAX_FIELD_COUNT && m < |specs|
    requires forall q :: 0 <= q < |specs| ==> TrailerOk(specs[q].trailer)
    ensures IsCString(FormatOf(specs))
    ensures SetFormat(c, env, FormatOf(specs)) == Some(r)
    ensures Shaped(r) && r.fieldCount == |specs|
    ensures r.fields[m].kind == KindOf(specs[m].kw) && r.fields[m].startPadding == 0
    ensures TrailerOk(specs[m].trailer)
    ensures CText(r.fields[m].padEnd) == StaleTrailer(ConfirmInit(c, env).fields[m].padEnd, specs[m].trailer)
  {
    r := AsWrittenSegments(ConfirmInit(c, env), specs, m);
  }

  /**
   * The same format set with the corrected reset: field `m` prints exactly
   * the `m`-th keyword and its trailer, whatever the slot held before.
   */
  lemma {:induction false} SetFormatCorrectedSegments(c: LogContext, env: Env, specs: seq<FieldSpec>, m: nat)
    requires Shaped(c) && |specs| <= MAX_FIELD_COUNT && m < |specs|
    requires forall q :: 0 <= q < |specs| ==> TrailerOk(specs[q].trailer)
    ensures IsCString(FormatOf(specs))
    ensures SetFormatCorrected(c, env, FormatOf(specs)).Some?
    ensures SetFormatCorrected(c, env, FormatOf(specs)).value.fieldCount == |specs|
    ensures FieldMatches(SetFormatCorrected(c, env, FormatOf(specs)).value.fields[m], specs[m])
  {
    FormatRoundTrip(ConfirmInit(c, env), specs, m);
  }

  /** `oklog_setColorMode`. */
  function SetColorMode(c: LogContext, env: Env, mode: ColorMode): (r: LogContext)
    requires Shaped(c)
    ensures Shaped(r) && r.initDone && r.colorMode == ResolveMode(mode, env)
    ensures r.colorMode == ConfirmInit(c, env).colorMode ==> r == ConfirmInit(c, env)
    ensures r.logLevelFilter == ConfirmInit(c, env).logLevelFilter && r.fieldCount == ConfirmInit(c, env).fieldCount
    ensures r.labelColors == ConfirmInit(c, env).labelColors && r.messageColors == ConfirmInit(c, env).messageColors
  {
    SetColorModeCore(ConfirmInit(c, env), env, mode)
  }

  /** `oklog_getColorMode`: never `AUTO` once initialised. */
  function GetColorMode(c: LogContext, env: Env): (r: (LogContext, ColorMode))
    requires Shaped(c)
    ensures r.0 == ConfirmInit(c, env) && r.1 == r.0.colorMode
    // AUTO is only ever a request: a logger reached through the API reports a resolved mode.
    ensures Reachable(c) ==> Valid(r.0) && r.1 != ModeAuto
  {
    ConfirmInitValidWhenReachable(c, env);
    var c1 := ConfirmInit(c, env);
    (c1, c1.colorMode)
  }

  /** A single 256-colour code is at most 11 characters. */
  lemma Single256Length(color: int)
    ensures |Sgr256(color, -1)| < COLOR_CODE_SIZE && |Sgr256(-1, color)| < COLOR_CODE_SIZE
  {
    if InAnsi256Range(color) {
      DigitsLengthBound(color);
    }
  }

  /** A single 16-colour code is at most 7 characters. */
  lemma SingleAnsiLength(color: int)
    ensures |SgrAnsi(color, -1)| < COLOR_CODE_SIZE && |SgrAnsi(-1, color)| < COLOR_CODE_SIZE
  {
    if InAnsiRange(color) {
      DigitsLengthBound(if color < 8 then color else color - 8);
    }
  }

  /**
   * `oklog_foregroundColor` and `oklog_backgroundColor` into the public
   * 12-byte `OKLOG_ColorCode`: in a colour mode the one code always fits.
   */
  function ColorCodeFor(c: LogContext, env: Env, background: bool, color: int, color256: int): (r: (LogContext, Generated))
    requires Shaped(c)
    ensures r.0 == ConfirmInit(c, env)
    ensures r.0.colorMode == ModeAnsi ==>
      r.1 == Generated(if background then SgrAnsi(-1, color) else SgrAnsi(color, -1), true)
    ensures r.0.colorMode == ModeAnsi256 ==>
      r.1 == Generated(if background then Sgr256(-1, color256) else Sgr256(color256, -1), true)
    ensures r.0.colorMode == ModeNone ==> r.1 == Generated("", false)
  {
    var c1 := ConfirmInit(c, env);
    SingleAnsiLength(color);
    Single256Length(color256);
    (c1, GenerateColorCode(c1.colorMode, COLOR_CODE_SIZE, background, color, color256))
  }

  /** The levels whose colours can be changed: VERBOSE to FATAL. */
  predicate ColoredLevel(level: int)
    // Exactly the message levels: neither the ALL nor the SILENT filter value,
    // and always an index into the colour tables.
    ensures ColoredLevel(level) <==> IsLevel(level) && level != LEVEL_ALL && level != LEVEL_SILENT
    ensures ColoredLevel(level) ==> 0 <= level < NUM_LOG_LEVELS
  {
    LEVEL_ALL < level < LEVEL_SILENT
  }

  /**
   * `oklog_setLabelColor`: for VERBOSE to FATAL, replaces that level's label
   * colours and regenerates the level caches; any other level is ignored
   * without even initialising the logger.
   */
  function SetLabelColor(c: LogContext, env: Env, level: int, spec: ColorSpec): (r: LogContext)
    requires Shaped(c)
    ensures !ColoredLevel(level) ==> r == c
    ensures ColoredLevel(level) ==>
      && Shaped(r) && LevelCachesFresh(r)
      && r.labelColors == ConfirmInit(c, env).labelColors[level := spec]
      && r == ConfirmInit(c, env).(labelColors := r.labelColors, labelColorCode := r.labelColorCode,
                                   messageColorCode := r.messageColorCode)
  {
    if !ColoredLevel(level) then c
    else
      var c1 := ConfirmInit(c, env);
      UpdateLogLevelColorCache(c1.(labelColors := c1.labelColors[level := spec]))
  }

  /** `oklog_setMessageColor`, the same for the message colours. */
  function SetMessageColor(c: LogContext, env: Env, level: int, spec: ColorSpec): (r: LogContext)
    requires Shaped(c)
    ensures !ColoredLevel(level) ==> r == c
    ensures ColoredLevel(level) ==>
      && Shaped(r) && LevelCachesFresh(r)
      && r.messageColors == ConfirmInit(c, env).messageColors[level := spec]
      && r == ConfirmInit(c, env).(messageColors := r.messageColors, labelColorCode := r.labelColorCode,
                                   messageColorCode := r.messageColorCode)
  {
    if !ColoredLevel(level) then c
    else
      var c1 := ConfirmInit(c, env);
      UpdateLogLevelColorCache(c1.(messageColors := c1.messageColors[level := spec]))
  }

  /** `oklog_getLogLevelName`, defined for the eight levels. */
  function GetLogLevelName(level: int): (name: string)
    requires IsLevel(level)
    ensures |name| > 0
  {
    ["ALL", "VERBOSE", "DEBUG", "INFO", "WARN", "ERROR", "FATAL", "SILENT"][level]
  }

  /** `oklog_getLogLevelNameShort`. */
  function GetLogLevelNameShort(level: int): (name: string)
    requires IsLevel(level)
    ensures |name| == 1
  {
    ["A", "V", "D", "I", "W", "E", "F", "S"][level]
  }

  /**
   * `okimpllog_checkLogFilter`: a callback alone decides; without one a
   * message passes when its level is at least the filter and below SILENT.
   */
  function CheckLogFilter(c: LogContext, level: int, tag: Option<string>): (pass: bool)
    ensures c.filterCallback.Some? ==> (pass <==> c.filterCallback.value(level, tag))
    ensures c.filterCallback.None? ==> (pass <==> c.logLevelFilter <= level < LEVEL_SILENT)
  {
    match c.filterCallback
    case Some(callback) => callback(level, tag)
    case None => c.logLevelFilter <= level && level < LEVEL_SILENT
  }

  /** Where the path separators of the platform are. */
  predicate IsSeparator(ch: char, windows: bool) {
    ch == '/' || (windows && ch == '\\')
  }

  /** The position just after the last separator, 0 when there is none. */
  function BaseStart(file: string, windows: bool): (k: nat)
    ensures k <= |file|
    ensures k > 0 ==> IsSeparator(file[k - 1], windows)
    ensures forall j :: k <= j < |file| ==> !IsSeparator(file[j], windows)
  {
    if file == [] then 0
    else if IsSeparator(file[|file| - 1], windows) then |file|
    else BaseStart(file[..|file| - 1], windows)
  }

  /**
   * `okimpllog_getFilename`: the whole path, or the part after its last
   * separator (`/`, or on Windows whichever of `/` and `\` comes last).
   */
  function GetFilename(file: string, fullpath: bool, windows: bool): (name: string)
    ensures fullpath ==> name == file
    ensures !fullpath ==>
      && |name| <= |file| && file[|file| - |name|..] == name
      && (forall j :: 0 <= j < |name| ==> !IsSeparator(name[j], windows))
      && (|name| < |file| ==> IsSeparator(file[|file| - |name| - 1], windows))
  {
    if fullpath then file
    else
      var k := BaseStart(file, windows);
      assert forall j :: 0 <= j < |file| - k ==> file[k..][j] == file[k + j];
      file[k..]
  }

  /** `ConfirmInitValid` for any context, as an implication. */
  lemma ConfirmInitValidWhenReachable(c: LogContext, env: Env)
    requires Shaped(c)
    ensures Reachable(c) ==> Valid(ConfirmInit(c, env))
  {
    if Reachable(c) {
      ConfirmInitValid(c, env);
    }
  }

  /** Initialisation from the static context, or from an initialised valid one, leaves a valid context. */
  lemma {:induction false} ConfirmInitValid(c: LogContext, env: Env)
    requires Shaped(c) && Reachable(c)
    ensures Valid(ConfirmInit(c, env))
  {
    if !c.initDone {
      var c1 := c.(initDone := true, labelColors := DefaultLabelColors(), messageColors := DefaultMessageColors());
      var c2 := SetColorModeCore(c1, env, ModeAuto);
      if c2.colorMode == c1.colorMode {
        // The mode stays NONE: the caches stay the empty ones of the static context.
        assert LevelCachesFresh(c2);
      }
    }
  }

  /** Changing the colour mode keeps every cache fresh, although caches are only regenerated on a change. */
  lemma {:induction false} SetColorModeValid(c: LogContext, env: Env, mode: ColorMode)
    requires Shaped(c) && Reachable(c)
    ensures Valid(SetColorMode(c, env, mode))
  {
    ConfirmInitValid(c, env);
  }

  /** Setting a level's colours keeps the context valid. */
  lemma {:induction false} SetColorsValid(c: LogContext, env: Env, level: int, spec: ColorSpec)
    requires Shaped(c) && Reachable(c)
    ensures Reachable(SetLabelColor(c, env, level, spec))
    ensures Reachable(SetMessageColor(c, env, level, spec))
  {
    ConfirmInitValid(c, env);
  }

  /** A new format, set either way, keeps the context valid. */
  lemma {:induction false} SetFormatValid(c: LogContext, env: Env, fmt: string)
    requires Shaped(c) && Reachable(c) && IsCString(fmt)
    ensures SetFormat(c, env, fmt).Some? ==> Valid(SetFormat(c, env, fmt).value)
    ensures SetFormatCorrected(c, env, fmt).Some? ==> Valid(SetFormatCorrected(c, env, fmt).value)
  {
    ConfirmInitValid(c, env);
  }

  /** Setting the filter or the callback keeps the context valid. */
  lemma {:induction false} SetFilterValid(c: LogContext, env: Env, level: int, callback: Option<FilterCallback>)
    requires Shaped(c) && Reachable(c)
    ensures Valid(SetLogLevelFilter(c, env, level))
    ensures Valid(SetFilterCallback(c, env, callback))
  {
    ConfirmInitValid(c, env);
  }

  /** Setting the same colour mode twice is the same as setting it once. */
  lemma {:induction false} SetColorModeIdempotent(c: LogContext, env: Env, mode: ColorMode)
    requires Shaped(c)
    ensures SetColorMode(SetColorMode(c, env, mode), env, mode) == SetColorMode(c, env, mode)
  {
  }

  /** Setting the same label colours twice is the same as setting them once. */
  lemma {:induction false} SetLabelColorIdempotent(c: LogContext, env: Env, level: int, spec: ColorSpec)
    requires Shaped(c)
    ensures SetLabelColor(SetLabelColor(c, env, level, spec), env, level, spec) == SetLabelColor(c, env, level, spec)
  {
    if ColoredLevel(level) {
      var r := SetLabelColor(c, env, level, spec);
      assert r.labelColors[level := spec] == r.labelColors;
    }
  }

  /**
   * Without a callback, after `oklog_setLogLevelFilter(f)` a message passes
   * exactly when its level is at least the clamped `f` and below SILENT.
   */
  lemma {:induction false} FilterAfterSetLevel(c: LogContext, env: Env, f: int, level: int, tag: Option<string>)
    requires Shaped(c) && ConfirmInit(c, env).filterCallback.None?
    ensures CheckLogFilter(SetLogLevelFilter(c, env, f), level, tag) <==> ClampLevel(f) <= level < LEVEL_SILENT
  {
  }

  /** Without a callback, a SILENT filter lets nothing through, and an ALL filter everything below SILENT. */
  lemma {:induction false} FilterExtremes(c: LogContext, level: int, tag: Option<string>)
    requires c.filterCallback.None?
    ensures c.logLevelFilter == LEVEL_SILENT ==> !CheckLogFilter(c, level, tag)
    ensures c.logLevelFilter == LEVEL_ALL ==> (CheckLogFilter(c, level, tag) <==> LEVEL_ALL <= level < LEVEL_SILENT)
  {
  }

  /** Without a callback, lowering the filter never blocks a message that passed before. */
  lemma {:induction false} FilterMonotone(c: LogContext, f: int, level: int, tag: Option<string>)
    requires c.filterCallback.None? && f <= c.logLevelFilter
    ensures CheckLogFilter(c, level, tag) ==> CheckLogFilter(c.(logLevelFilter := f), level, tag)
  {
  }

  /** The short level name is the first letter of the long one, and different levels have different names. */
  lemma LevelNames(a: int, b: int)
    requires IsLevel(a) && IsLevel(b)
    ensures GetLogLevelNameShort(a) == GetLogLevelName(a)[..1]
    ensures a != b ==> GetLogLevelName(a) != GetLogLevelName(b) && GetLogLevelNameShort(a) != GetLogLevelNameShort(b)
  {
  }

  /** The short file name of `dir/name` is `name`, when `name` has no separator. */
  lemma {:induction false} FilenameOfJoin(dir: string, name: string, windows: bool)
    requires forall j :: 0 <= j < |name| ==> !IsSeparator(name[j], windows)
    ensures GetFilename(dir + "/" + name, false, windows) == name
  {
    var file := dir + "/" + name;
    BaseStartAfter(file, windows, |dir| + 1);
    assert file[|dir| + 1..] == name;
  }

  /** A separator followed by none marks where the base name starts. */
  lemma {:induction false} BaseStartAfter(file: string, windows: bool, k: nat)
    requires 0 < k <= |file| && IsSeparator(file[k - 1], windows)
    requires forall j :: k <= j < |file| ==> !IsSeparator(file[j], windows)
    ensures BaseStart(file, windows) == k
    decreases |file|
  {
    if k < |file| {
      var p := file[..|file| - 1];
      assert forall j :: k <= j < |p| ==> p[j] == file[j];
      BaseStartAfter(p, windows, k);
    }
  }
}
