/**
 * `oklog_log` on a terminal build: what one log call prints, as a string.
 *
 * The printing itself is left to the caller: the text of the formatted
 * message (what `vprintf` prints for the format and its arguments) and the
 * clock (what `strftime` prints for a time format at the moment of the
 * call) are inputs.
 */
module LogEmit {
  import opened Base
  import opened Decimal
  import opened LogTypes
  import opened LogColor
  import opened LogApi

  /** The bytes of the buffer a time field is formatted into. */
  const TIME_BUFFER_SIZE: nat := 30

  /**
   * One log call: its level, the optional tag and source position, the raw
   * message format (checked for a trailing newline) and the text it formats to.
   */
  datatype LogCall = LogCall(
    level: int,
    tag: Option<string>,
    file: Option<string>,
    line: int,
    format: Option<string>,
    text: string)

  /** The levels a message can be printed at: the colour caches hold one entry for each of them. */
  predicate PrintableLevel(level: int) {
    LEVEL_ALL <= level < LEVEL_SILENT
  }

  /**
   * The calls `oklog_log` can make without reading past the colour caches:
   * a printable level, or a call the filter turns away before the caches are
   * read. Without a callback the filter turns away SILENT and every level
   * outside the table; a callback decides for itself, and one that lets such
   * a level through makes `oklog_log` index past the caches.
   */
  predicate SafeCall(c: LogContext, level: int, tag: Option<string>) {
    PrintableLevel(level) ||
    (!CheckLogFilter(c, level, tag) && (c.filterCallback.None? ==> LEVEL_ALL <= c.logLevelFilter))
  }

  function Spaces(n: nat): (s: string)
    ensures |s| == n && forall j :: 0 <= j < n ==> s[j] == ' '
  {
    seq(n, _ => ' ')
  }

  /** The text a field prints, before its `padEnd`. */
  function FieldBody(f: Field, call: LogCall, clock: string -> string, windows: bool): (b: string)
    requires PrintableLevel(call.level)
    // A time is printed whole, and only when it fits the 30-byte buffer with its terminator.
    ensures f.kind.Time? ==> |b| < TIME_BUFFER_SIZE && (b == "" || b == clock(f.kind.timeFormat))
    // A level prints its name, or the name's first letter.
    ensures f.kind.Level? ==> |b| > 0 && b == GetLogLevelName(call.level)
    ensures f.kind.LevelShort? ==> |b| == 1 && b == GetLogLevelNameShort(call.level)
    // A NULL tag or file prints nothing; a file is followed by `:` and the line in decimal.
    ensures f.kind.Tag? && call.tag.None? ==> b == ""
    ensures f.kind.Tag? && call.tag.Some? ==> b == call.tag.value
    ensures (f.kind.File? || f.kind.FileShort?) ==> (b == "" <==> call.file.None?)
    ensures (f.kind.File? || f.kind.FileShort?) && call.file.Some? ==>
      var d := ":" + IntToDecimal(call.line);
      |d| <= |b| && b[|b| - |d|..] == d &&
      b == GetFilename(call.file.value, f.kind.File?, windows) + d
    ensures f.kind.Message? ==> b == call.text
    ensures f.kind.PlainText? ==> b == ""
  {
    match f.kind
    case Time(timeFormat) =>
      // The time is printed only when all of it fits the buffer with its terminator.
      var t := clock(timeFormat);
      if 0 < |t| < TIME_BUFFER_SIZE then t else ""
    case Level => GetLogLevelName(call.level)
    case LevelShort => GetLogLevelNameShort(call.level)
    case Tag => if call.tag.Some? then call.tag.value else ""
    case File =>
      if call.file.Some? then GetFilename(call.file.value, true, windows) + ":" + IntToDecimal(call.line) else ""
    case FileShort =>
      if call.file.Some? then GetFilename(call.file.value, false, windows) + ":" + IntToDecimal(call.line) else ""
    case Message => call.text
    case PlainText => ""
  }

  /** The colour code a field is wrapped in: its own, its level's label or message code, or none. */
  function FieldCode(c: LogContext, f: Field, level: int): (code: string)
    requires Shaped(c) && PrintableLevel(level)
    ensures f.colorType.NoColor? ==> code == ""
    // With fresh caches, a level colour is the code the level's colours have in the current mode.
    ensures LevelCachesFresh(c) && f.colorType.LabelColor? ==> code == CacheCode(c.colorMode, c.labelColors[level])
    ensures LevelCachesFresh(c) && f.colorType.MessageColor? ==> code == CacheCode(c.colorMode, c.messageColors[level])
    ensures f.colorType.OwnCode? ==> code == f.colorCode
  {
    match f.colorType
    case OwnCode => f.colorCode
    case LabelColor => c.labelColorCode[level]
    case MessageColor => c.messageColorCode[level]
    case NoColor => ""
  }

  /**
   * One field: spaces up to its start column when the output is not there
   * yet, then the coloured body and its `padEnd`. The column counts every
   * printed character except the colour codes.
   */
  function EmitField(c: LogContext, f: Field, call: LogCall, clock: string -> string, windows: bool, col: int)
    : (r: (string, int))
    requires Shaped(c) && PrintableLevel(call.level)
    ensures r.1 >= col && (f.startPadding > 0 ==> r.1 >= f.startPadding)
    ensures 0 <= col < f.startPadding ==> |r.0| >= f.startPadding - col && r.0[..f.startPadding - col] == Spaces(f.startPadding - col)
  {
    var pad := if f.startPadding > 0 && col < f.startPadding then f.startPadding - col else 0;
    var code := FieldCode(c, f, call.level);
    var body := FieldBody(f, call, clock, windows);
    var reset := if code != "" then GetResetColorCode(c) else "";
    (Spaces(pad) + code + body + reset + CText(f.padEnd), col + pad + |body| + |CText(f.padEnd)|)
  }

  /** The fields in use from index `i` on, starting at column `col`. */
  function EmitFrom(c: LogContext, call: LogCall, clock: string -> string, windows: bool, i: nat, col: int)
    : (r: (string, int))
    requires Shaped(c) && PrintableLevel(call.level) && i <= c.fieldCount
    decreases c.fieldCount - i
  {
    if i == c.fieldCount then ("", col)
    else
      var first := EmitField(c, c.fields[i], call, clock, windows, col);
      var rest := EmitFrom(c, call, clock, windows, i + 1, first.1);
      (first.0 + rest.0, rest.1)
  }

  /**
   * The newline check at the end of `oklog_log` as written: it compares the
   * first character with the digit `'0'` instead of the terminator, so a
   * message that starts with `0` gets no newline, and an empty message makes
   * it read the byte before the message (None).
   */
  function NewlineAsWritten(format: Option<string>): (r: Option<string>)
    ensures format.None? ==> r == Some("")
    ensures format.Some? && format.value != [] && format.value[0] == '0' ==> r == Some("")
    ensures r.None? <==> format == Some([])
  {
    match format
    case None => Some("")
    case Some(s) =>
      if s != [] && s[0] == '0' then Some("")
      else if s == [] then None
      else if s[|s| - 1] != '\n' then Some("\n")
      else Some("")
  }

  /** The check as intended: a newline follows any non-empty message that does not end in one. */
  function Newline(format: Option<string>): (r: string)
    ensures r == "\n" <==> format.Some? && format.value != [] && format.value[|format.value| - 1] != '\n'
    ensures r != "\n" ==> r == ""
  {
    if format.Some? && format.value != [] && format.value[|format.value| - 1] != '\n' then "\n" else ""
  }

  /** The two checks agree except on messages starting with `0` and on the empty message. */
  lemma NewlineChecksAgree(format: Option<string>)
    requires format.Some? ==> format.value != [] && format.value[0] != '0'
    ensures NewlineAsWritten(format) == Some(Newline(format))
  {
  }

  /** `"0 items"` does not end in a newline, yet as written none is added. */
  lemma ZeroMessageGetsNoNewline()
    ensures NewlineAsWritten(Some("0 items")) == Some("")
    ensures Newline(Some("0 items")) == "\n"
  {
  }

  /** What a printed call writes: the fields, then the newline. */
  function Printed(c: LogContext, call: LogCall, clock: string -> string, windows: bool): (out: string)
    requires Shaped(c) && PrintableLevel(call.level)
  {
    EmitFrom(c, call, clock, windows, 0, 0).0 + Newline(call.format)
  }

  /**
   * `oklog_log` as written: the filter is checked before the logger is
   * initialised, so the very first call is filtered by the static context
   * (filter ALL, no callback) rather than by the build's default filter.
   * None when the newline check reads before an empty message.
   */
  function LogAsWritten(c: LogContext, env: Env, call: LogCall, clock: string -> string): (r: Option<(LogContext, string)>)
    requires Shaped(c) && SafeCall(c, call.level, call.tag)
    ensures !CheckLogFilter(c, call.level, call.tag) ==> r == Some((c, ""))
    ensures !PrintableLevel(call.level) ==> r == Some((c, ""))
    ensures CheckLogFilter(c, call.level, call.tag) ==>
      (r.Some? <==> call.format != Some([])) &&
      (r.Some? ==> r.value.0 == ConfirmInit(c, env))
    ensures r.Some? && CheckLogFilter(c, call.level, call.tag) ==>
      PrintableLevel(call.level) &&
      r.value.1 == EmitFrom(ConfirmInit(c, env), call, clock, env.windows, 0, 0).0 + NewlineAsWritten(call.format).value
    ensures CheckLogFilter(c, call.level, call.tag) && (call.format.Some? ==> call.format.value != [] && call.format.value[0] != '0') ==>
      PrintableLevel(call.level) && r == Some((ConfirmInit(c, env), Printed(ConfirmInit(c, env), call, clock, env.windows)))
  {
    if !CheckLogFilter(c, call.level, call.tag) then Some((c, ""))
    else
      var c1 := ConfirmInit(c, env);
      var nl := NewlineAsWritten(call.format);
      if nl.None? then None
      else Some((c1, EmitFrom(c1, call, clock, env.windows, 0, 0).0 + nl.value))
  }

  /**
   * `oklog_log` as intended: the logger is initialised first, so the
   * build's default filter applies from the first call on; a message that
   * does not pass, SILENT and out-of-range levels included, prints nothing.
   */
  function Log(c: LogContext, env: Env, call: LogCall, clock: string -> string): (r: (LogContext, string))
    requires Shaped(c) && SafeCall(c, call.level, call.tag)
    ensures r.0 == ConfirmInit(c, env)
    ensures !PrintableLevel(call.level) ==> r.1 == ""
    ensures !CheckLogFilter(r.0, call.level, call.tag) ==> r.1 == ""
    ensures CheckLogFilter(r.0, call.level, call.tag) ==>
      PrintableLevel(call.level) && r.1 == Printed(r.0, call, clock, env.windows)
  {
    var c1 := ConfirmInit(c, env);
    if CheckLogFilter(c1, call.level, call.tag) then
      // A call that passes a filter it is safe for is at a printable level.
      assert PrintableLevel(call.level);
      (c1, Printed(c1, call, clock, env.windows))
    else (c1, "")
  }

  /**
   * In a release build, a first VERBOSE message passes the filter of the
   * static context and is printed, although the filter the logger installs
   * for the build is INFO; initialising first prints nothing.
   */
  lemma FirstVerboseMessage(env: Env, call: LogCall, clock: string -> string)
    requires !env.debugBuild && call.level == LEVEL_VERBOSE && call.format == Some("x")
    ensures LogAsWritten(StaticContext(), env, call, clock).Some?
    ensures LogAsWritten(StaticContext(), env, call, clock).value.1
            == Printed(ConfirmInit(StaticContext(), env), call, clock, env.windows)
    ensures LogAsWritten(StaticContext(), env, call, clock).value.1 != ""
    ensures Log(StaticContext(), env, call, clock).1 == ""
  {
    var c0 := StaticContext();
    var c1 := ConfirmInit(c0, env);
    assert CheckLogFilter(c0, call.level, call.tag);
    assert !CheckLogFilter(c1, call.level, call.tag);
    assert Newline(call.format) == "\n";
  }

  /** With colours off every field's code is empty. */
  lemma {:induction false} NoColorCodes(c: LogContext, f: Field, level: int)
    requires Valid(c) && c.colorMode == ModeNone && PrintableLevel(level)
    requires f.colorType == OwnCode ==> f.colorCode == ""
    ensures FieldCode(c, f, level) == ""
  {
    NoColorModeCachesEmpty(c);
  }

  /**
   * With colours off, the column `oklog_log` keeps is exactly the number of
   * characters printed so far: every printed character is counted.
   */
  lemma {:induction false} ColumnCountsOutput(c: LogContext, call: LogCall, clock: string -> string, windows: bool, i: nat, col: int)
    requires Valid(c) && c.colorMode == ModeNone && PrintableLevel(call.level) && i <= c.fieldCount
    ensures EmitFrom(c, call, clock, windows, i, col).1 == col + |EmitFrom(c, call, clock, windows, i, col).0|
    decreases c.fieldCount - i
  {
    if i < c.fieldCount {
      NoColorModeCachesEmpty(c);
      NoColorCodes(c, c.fields[i], call.level);
      var first := EmitField(c, c.fields[i], call, clock, windows, col);
      ColumnCountsOutput(c, call, clock, windows, i + 1, first.1);
    }
  }
}
