/**
 * The state of the single-header logger `oklog.h`: log levels, colour modes,
 * the parsed output fields and the one global logging context.
 *
 * The C context is a static struct; here it is an immutable value that each
 * operation takes and returns.
 */
module LogTypes {
  import opened Base

  // Log levels. ALL and SILENT exist only for filtering.
  const LEVEL_ALL: int := 0
  const LEVEL_VERBOSE: int := 1
  const LEVEL_DEBUG: int := 2
  const LEVEL_INFO: int := 3
  const LEVEL_WARNING: int := 4
  const LEVEL_ERROR: int := 5
  const LEVEL_FATAL: int := 6
  const LEVEL_SILENT: int := 7

  /** Levels that own a colour definition: ALL up to FATAL. */
  const NUM_LOG_LEVELS: nat := 7

  const MAX_FIELD_COUNT: nat := 10

  /** Size of the public `OKLOG_ColorCode` buffer: room for one 256-colour code. */
  const COLOR_CODE_SIZE: nat := 12

  /** Size of the cached codes: room for a foreground and a background code. */
  const CACHE_CODE_SIZE: nat := 2 * COLOR_CODE_SIZE - 1

  /** Bytes of the `padEnd` array of a field, terminator included. */
  const PAD_END_SIZE: nat := 6

  // The named 16 colours used by the defaults; -1 means "no colour".
  const COLOR_NONE: int := -1
  const COLOR_CYAN: int := 6
  const COLOR_BRIGHT_RED: int := 9
  const COLOR_BRIGHT_GREEN: int := 10
  const COLOR_BRIGHT_YELLOW: int := 11
  const COLOR_BRIGHT_BLUE: int := 12
  const COLOR_BRIGHT_CYAN: int := 14

  predicate IsLevel(level: int) {
    LEVEL_ALL <= level <= LEVEL_SILENT
  }

  /** `AUTO` is only ever a request: the context stores what it resolved to. */
  datatype ColorMode = ModeAuto | ModeNone | ModeAnsi | ModeAnsi256

  /** The four colour indices kept per level and per coloured field. */
  datatype ColorSpec = ColorSpec(fgAnsi: int, fgAnsi256: int, bgAnsi: int, bgAnsi256: int)

  const NoColors: ColorSpec := ColorSpec(COLOR_NONE, COLOR_NONE, COLOR_NONE, COLOR_NONE)

  /** What a zero-initialised colour array holds: index 0, which is black. */
  const ZeroColors: ColorSpec := ColorSpec(0, 0, 0, 0)

  /** What a field prints. A time field carries its `strftime` format. */
  datatype FieldKind =
    | PlainText
    | Time(timeFormat: string)
    | Level
    | LevelShort
    | File
    | FileShort
    | Tag
    | Message

  /** Which colour code a field is wrapped in. */
  datatype ColorType = NoColor | OwnCode | LabelColor | MessageColor

  /**
   * One output field. `padEnd` is the raw six-byte array: the text printed
   * after the field is its C string, that is, the bytes before the first NUL.
   * `colorCode` is the field's own cached code, used when `colorType` is
   * `OwnCode`.
   */
  datatype Field = Field(
    kind: FieldKind,
    startPadding: int,
    padEnd: PadEnd,
    colorType: ColorType,
    color: ColorSpec,
    colorCode: string)

  const ZeroPadEnd: PadEnd := [NUL, NUL, NUL, NUL, NUL, NUL]

  const ZeroField: Field := Field(PlainText, 0, ZeroPadEnd, NoColor, ZeroColors, "")

  /** The user's filter: given a level and an optional tag, keep the message? */
  type FilterCallback = (int, Option<string>) -> bool

  /**
   * The global context. `fields` holds all ten slots, of which the first
   * `fieldCount` are in use; the others keep whatever an earlier format left.
   */
  datatype LogContext = LogContext(
    logLevelFilter: int,
    colorMode: ColorMode,
    filterCallback: Option<FilterCallback>,
    initDone: bool,
    fields: seq<Field>,
    fieldCount: nat,
    labelColors: seq<ColorSpec>,
    messageColors: seq<ColorSpec>,
    labelColorCode: seq<string>,
    messageColorCode: seq<string>)

  /** The zero-initialised static context, with filter ALL and mode NONE. */
  function StaticContext(): (c: LogContext)
    ensures !c.initDone && c.fieldCount == 0 && c.colorMode == ModeNone
    ensures Shaped(c)
  {
    LogContext(
      LEVEL_ALL, ModeNone, None, false,
      seq(MAX_FIELD_COUNT, _ => ZeroField), 0,
      seq(NUM_LOG_LEVELS, _ => ZeroColors), seq(NUM_LOG_LEVELS, _ => ZeroColors),
      seq(NUM_LOG_LEVELS, _ => ""), seq(NUM_LOG_LEVELS, _ => ""))
  }

  /** A `padEnd` array: six bytes, the last one the terminator no write reaches. */
  type PadEnd = raw: seq<char> | |raw| == PAD_END_SIZE && raw[PAD_END_SIZE - 1] == NUL
    witness [NUL, NUL, NUL, NUL, NUL, NUL]

  /** The fixed sizes of the context's arrays. */
  predicate Shaped(c: LogContext) {
    && |c.fields| == MAX_FIELD_COUNT
    && c.fieldCount <= MAX_FIELD_COUNT
    && |c.labelColors| == NUM_LOG_LEVELS
    && |c.messageColors| == NUM_LOG_LEVELS
    && |c.labelColorCode| == NUM_LOG_LEVELS
    && |c.messageColorCode| == NUM_LOG_LEVELS
  }

  /** Where a program gets the configuration the logger cannot compute itself. */
  datatype Env = Env(
    // Whether the `AUTO` colour check succeeds: standard output is a terminal
    // (or, on Windows, a console that accepts virtual-terminal sequences).
    terminalColors: bool,
    // Whether the build defines DEBUG or OKLOG_NO_RELEASE_STRIPPING.
    debugBuild: bool,
    // Whether the build targets Windows, where `\` also separates paths.
    windows: bool)
}
