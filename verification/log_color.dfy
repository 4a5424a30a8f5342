/**
 * ANSI colour escape codes of the logger: the 16-colour and the 256-colour
 * select-graphic-rendition codes, built into bounded buffers, and the caches
 * of those codes kept in the context.
 */
module LogColor {
  import opened Base
  import opened Decimal
  import opened LogBuffer
  import opened LogTypes

  const ESC: char := 27 as char

  const FG_PREFIX_ANSI: string := [ESC] + "[3"
  const BG_PREFIX_ANSI: string := [ESC] + "[4"
  const FG_PREFIX_ANSI256: string := [ESC] + "[38;5;"
  const BG_PREFIX_ANSI256: string := [ESC] + "[48;5;"
  const RESET_CODE: string := [ESC] + "[0m"

  /** A generated code and the C return value (1 written, 0 not). */
  datatype Generated = Generated(code: string, ok: bool)

  predicate InAnsiRange(color: int) {
    0 <= color < 16
  }

  predicate InAnsi256Range(color: int) {
    0 <= color < 256
  }

  /**
   * The code of one 16-colour index after its prefix: colours 8 to 15 are
   * written as their dark counterpart followed by `;1`.
   */
  function AnsiTail(color: int): string
    requires InAnsiRange(color)
  {
    if color < 8 then IntToDecimal(color) + "m" else IntToDecimal(color - 8) + ";1m"
  }

  /** One index's part of a 16-colour code, or nothing for an index out of range. */
  function AnsiPart(prefix: string, color: int): string {
    if InAnsiRange(color) then prefix + AnsiTail(color) else ""
  }

  /** One index's part of a 256-colour code, or nothing for an index out of range. */
  function Ansi256Part(prefix: string, color: int): string {
    if InAnsi256Range(color) then prefix + IntToDecimal(color) + "m" else ""
  }

  /** The complete 16-colour code for a pair of indices; out-of-range ones are skipped. */
  function SgrAnsi(fg: int, bg: int): string {
    AnsiPart(FG_PREFIX_ANSI, fg) + AnsiPart(BG_PREFIX_ANSI, bg)
  }

  /** The complete 256-colour code for a pair of indices; out-of-range ones are skipped. */
  function Sgr256(fg: int, bg: int): string {
    Ansi256Part(FG_PREFIX_ANSI256, fg) + Ansi256Part(BG_PREFIX_ANSI256, bg)
  }

  /**
   * One colour's three appends (prefix, number, suffix), stopping at the
   * first that does not fit. The chain succeeds exactly when the whole piece
   * fits, and then appends all of it.
   */
  function AppendColor(text: string, bufferSize: nat, prefix: string, value: int, suffix: string): (r: Option<string>)
    requires INT32_MIN < value <= INT32_MAX
    ensures r.Some? <==> |text| + |prefix| + |IntToDecimal(value)| + |suffix| < bufferSize
    ensures r.Some? ==> r.value == text + prefix + IntToDecimal(value) + suffix
  {
    var a := AppendString(text, |text|, bufferSize, prefix);
    if a.length < 0 then None
    else
      var b := AppendInt(a.text, a.length, bufferSize, value);
      if b.length < 0 then None
      else
        var c := AppendString(b.text, b.length, bufferSize, suffix);
        if c.length < 0 then None else Some(c.text)
  }

  /** One pass of the 16-colour loop: an index out of range appends nothing. */
  function AppendAnsiPart(text: string, bufferSize: nat, prefix: string, color: int): (r: Option<string>)
    requires |text| < bufferSize
    ensures r.Some? <==> |text| + |AnsiPart(prefix, color)| < bufferSize
    ensures r.Some? ==> r.value == text + AnsiPart(prefix, color)
  {
    if !InAnsiRange(color) then Some(text)
    else if color < 8 then AppendColor(text, bufferSize, prefix, color, "m")
    else AppendColor(text, bufferSize, prefix, color - 8, ";1m")
  }

  /** One pass of the 256-colour loop: an index out of range appends nothing. */
  function AppendAnsi256Part(text: string, bufferSize: nat, prefix: string, color: int): (r: Option<string>)
    requires |text| < bufferSize
    ensures r.Some? <==> |text| + |Ansi256Part(prefix, color)| < bufferSize
    ensures r.Some? ==> r.value == text + Ansi256Part(prefix, color)
  {
    if !InAnsi256Range(color) then Some(text)
    else AppendColor(text, bufferSize, prefix, color, "m")
  }

  /**
   * `okimpllog_generateColorCodeAnsi`: the code is written whole or the
   * buffer is cleared and 0 returned.
   */
  function GenerateColorCodeAnsi(bufferSize: nat, fg: int, bg: int): (r: Generated)
    ensures r.ok <==> 0 < bufferSize && |SgrAnsi(fg, bg)| < bufferSize
    ensures r.code == if r.ok then SgrAnsi(fg, bg) else ""
  {
    if bufferSize == 0 then Generated("", false)
    else
      var first := AppendAnsiPart("", bufferSize, FG_PREFIX_ANSI, fg);
      assert first.Some? ==> first.value == AnsiPart(FG_PREFIX_ANSI, fg) by {
        assert "" + AnsiPart(FG_PREFIX_ANSI, fg) == AnsiPart(FG_PREFIX_ANSI, fg);
      }
      if first.None? then Generated("", false)
      else
        var second := AppendAnsiPart(first.value, bufferSize, BG_PREFIX_ANSI, bg);
        if second.None? then Generated("", false) else Generated(second.value, true)
  }

  /** `okimpllog_generateColorCodeAnsi256`, with the same all-or-nothing result. */
  function GenerateColorCodeAnsi256(bufferSize: nat, fg: int, bg: int): (r: Generated)
    ensures r.ok <==> 0 < bufferSize && |Sgr256(fg, bg)| < bufferSize
    ensures r.code == if r.ok then Sgr256(fg, bg) else ""
  {
    if bufferSize == 0 then Generated("", false)
    else
      var first := AppendAnsi256Part("", bufferSize, FG_PREFIX_ANSI256, fg);
      assert first.Some? ==> first.value == Ansi256Part(FG_PREFIX_ANSI256, fg) by {
        assert "" + Ansi256Part(FG_PREFIX_ANSI256, fg) == Ansi256Part(FG_PREFIX_ANSI256, fg);
      }
      if first.None? then Generated("", false)
      else
        var second := AppendAnsi256Part(first.value, bufferSize, BG_PREFIX_ANSI256, bg);
        if second.None? then Generated("", false) else Generated(second.value, true)
  }

  /**
   * `okimpllog_generateColorCode`: a single foreground or background code in
   * the context's mode; no code at all when colours are off.
   */
  function GenerateColorCode(mode: ColorMode, bufferSize: nat, background: bool, ansi: int, ansi256: int): (r: Generated)
    ensures mode == ModeAnsi ==> r == GenerateColorCodeAnsi(bufferSize, if background then -1 else ansi, if background then ansi else -1)
    ensures mode == ModeAnsi256 ==> r == GenerateColorCodeAnsi256(bufferSize, if background then -1 else ansi256, if background then ansi256 else -1)
    ensures mode == ModeNone || mode == ModeAuto ==> r == Generated("", false)
  {
    if bufferSize == 0 then Generated("", false)
    else
      match mode
      case ModeAnsi =>
        GenerateColorCodeAnsi(bufferSize, if background then -1 else ansi, if background then ansi else -1)
      case ModeAnsi256 =>
        GenerateColorCodeAnsi256(bufferSize, if background then -1 else ansi256, if background then ansi256 else -1)
      case _ => Generated("", false)
  }

  /** At most two digits and `;1m`: a 16-colour code is at most 14 characters. */
  lemma SgrAnsiLength(fg: int, bg: int)
    ensures |SgrAnsi(fg, bg)| <= 14
  {
    if InAnsiRange(fg) {
      DigitsLengthBound(if fg < 8 then fg else fg - 8);
    }
    if InAnsiRange(bg) {
      DigitsLengthBound(if bg < 8 then bg else bg - 8);
    }
  }

  /** At most three digits per index: a 256-colour pair is at most 22 characters. */
  lemma Sgr256Length(fg: int, bg: int)
    ensures |Sgr256(fg, bg)| <= 2 * (COLOR_CODE_SIZE - 1)
  {
    if InAnsi256Range(fg) {
      DigitsLengthBound(fg);
    }
    if InAnsi256Range(bg) {
      DigitsLengthBound(bg);
    }
  }

  /**
   * The code cached for a colour definition in a mode, as the cache updates
   * compute it into a `2 * 12 - 1` byte buffer. That buffer is exactly large
   * enough: the cached code is never cut off.
   */
  function CacheCode(mode: ColorMode, spec: ColorSpec): (code: string)
    ensures mode == ModeAnsi ==> code == SgrAnsi(spec.fgAnsi, spec.bgAnsi)
    ensures mode == ModeAnsi256 ==> code == Sgr256(spec.fgAnsi256, spec.bgAnsi256)
    ensures mode == ModeNone || mode == ModeAuto ==> code == ""
  {
    SgrAnsiLength(spec.fgAnsi, spec.bgAnsi);
    Sgr256Length(spec.fgAnsi256, spec.bgAnsi256);
    match mode
    case ModeAnsi => GenerateColorCodeAnsi(CACHE_CODE_SIZE, spec.fgAnsi, spec.bgAnsi).code
    case ModeAnsi256 => GenerateColorCodeAnsi256(CACHE_CODE_SIZE, spec.fgAnsi256, spec.bgAnsi256).code
    case _ => ""
  }

  /** The per-level caches hold the codes of the per-level colours. */
  predicate LevelCachesFresh(c: LogContext)
    requires Shaped(c)
  {
    forall i :: 0 <= i < NUM_LOG_LEVELS ==>
      c.labelColorCode[i] == CacheCode(c.colorMode, c.labelColors[i])
      && c.messageColorCode[i] == CacheCode(c.colorMode, c.messageColors[i])
  }

  /** Every field in use that has its own colour holds that colour's code. */
  predicate FieldCachesFresh(c: LogContext)
    requires Shaped(c)
  {
    forall i :: 0 <= i < c.fieldCount ==>
      c.fields[i].colorType == OwnCode ==> c.fields[i].colorCode == CacheCode(c.colorMode, c.fields[i].color)
  }

  /**
   * What holds of the context between calls: fixed array sizes, a resolved
   * colour mode, and caches that agree with the colour definitions.
   */
  predicate Valid(c: LogContext) {
    && Shaped(c)
    && c.colorMode != ModeAuto
    && LevelCachesFresh(c)
    && FieldCachesFresh(c)
  }

  predicate IsAnsiMode(mode: ColorMode) {
    mode == ModeAnsi || mode == ModeAnsi256
  }

  /**
   * `okimpllog_updateFieldColorCache`: in an ANSI mode, regenerates the code
   * of each field in use that has its own colour; otherwise clears the code
   * of every field in use.
   */
  function UpdateFieldColorCache(c: LogContext): (r: LogContext)
    requires Shaped(c)
    ensures Shaped(r) && FieldCachesFresh(r)
    ensures r == c.(fields := r.fields)
    ensures forall i :: 0 <= i < |c.fields| ==>
      r.fields[i] == c.fields[i].(colorCode := r.fields[i].colorCode)
    ensures forall i :: c.fieldCount <= i < |c.fields| ==> r.fields[i] == c.fields[i]
  {
    c.(fields := seq(|c.fields|, i requires 0 <= i < |c.fields| =>
      if i >= c.fieldCount then c.fields[i]
      else if !IsAnsiMode(c.colorMode) then c.fields[i].(colorCode := "")
      else if c.fields[i].colorType == OwnCode then c.fields[i].(colorCode := CacheCode(c.colorMode, c.fields[i].color))
      else c.fields[i]))
  }

  /** `okimpllog_updateLogLevelColorCache`: regenerates the label and message code of every level. */
  function UpdateLogLevelColorCache(c: LogContext): (r: LogContext)
    requires Shaped(c)
    ensures Shaped(r) && LevelCachesFresh(r)
    ensures r == c.(labelColorCode := r.labelColorCode, messageColorCode := r.messageColorCode)
  {
    c.(labelColorCode := seq(NUM_LOG_LEVELS, i requires 0 <= i < NUM_LOG_LEVELS => CacheCode(c.colorMode, c.labelColors[i])),
       messageColorCode := seq(NUM_LOG_LEVELS, i requires 0 <= i < NUM_LOG_LEVELS => CacheCode(c.colorMode, c.messageColors[i])))
  }

  /** `oklog_getResetColorCode`: the code that ends a coloured field, empty when colours are off. */
  function GetResetColorCode(c: LogContext): (code: string)
    ensures code == "" <==> c.colorMode == ModeNone
  {
    if c.colorMode == ModeNone then "" else RESET_CODE
  }

  /** With colours off every cached code is empty. */
  lemma NoColorModeCachesEmpty(c: LogContext)
    requires Valid(c) && c.colorMode == ModeNone
    ensures forall i :: 0 <= i < NUM_LOG_LEVELS ==> c.labelColorCode[i] == "" && c.messageColorCode[i] == ""
    ensures forall i :: 0 <= i < c.fieldCount && c.fields[i].colorType == OwnCode ==> c.fields[i].colorCode == ""
  {
  }
}
