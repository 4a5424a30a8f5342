# sdf_text_sample in Dafny

A model of the support code of a small C demo that renders signed-distance-field
text with Fontstash on top of SDL2 and OpenGL:

- `oklog.h`, a single-header logger. It has eight levels (ALL to SILENT), a
  level filter or a filter callback, and a line layout parsed from a format
  string such as `{time_short} {level_short} {tag} {file_short} {message}`
  into at most ten fields. Colours come as 16-colour or 256-colour ANSI
  escape codes, and are cached per level and per field.
- The OpenGL helper, in both of its copies (`okgl_helper.h`,
  `ok_gl_helper.h`). The model covers the GLSL preambles it prepends when
  converting shaders to a target GL or GLES version, its error names and its
  4x4 matrix setters.
- The SDL application wrapper, in both of its copies (`okapp.h`, `ok_app.h`).
  The model covers asset paths, the window mode, the replacement of path
  separators, and how the main loop turns SDL events into the app's key,
  pointer and size callbacks.
- The demo itself (`sdf_text_app.c`). The model covers atlas growth when
  Fontstash reports the atlas full, and the key and pointer handlers.

The model is written as pure functions over immutable values:

- The logger's global context is a `LogContext` value that each API function
  takes and returns.
- C strings are `string`s. Fixed character arrays are sequences that may hold
  bytes after their terminator; `CText` reads the C string out of one.
- A NULL pointer is `None`.
- The terminal check, the build flags, the clock and the text `vprintf` would
  print are inputs.

Each module follows one part of the source:

| module | file | models |
|---|---|---|
| `Base` | `base.dfy` | `Option`, 32-bit ranges and wrap-around, C strings |
| `Decimal` | `decimal.dfy` | decimal text of integers, `strtol` |
| `LogBuffer` | `log_buffer.dfy` | `okimpllog_appendString` and `okimpllog_appendInt` |
| `LogTypes` | `log_types.dfy` | levels, colour modes, fields and the context |
| `LogColor` | `log_color.dfy` | ANSI code generation and the colour caches |
| `LogFormat` | `log_format.dfy` | the `oklog_setFormat` parser |
| `LogFormatFacts` | `log_format_facts.dfy` | the parser round trip |
| `LogFormatCases` | `log_format_cases.dfy` | the default formats, plus concrete cases |
| `LogApi` | `log_context.dfy` | initialisation and the public setters and getters |
| `LogEmit` | `log_emit.dfy` | what `oklog_log` prints |
| `GlHelper` | `gl_helper.dfy` | the GL helper |
| `AppWrapper` | `app_wrapper.dfy` | the app wrapper |
| `SdfDemo` | `sdf_demo.dfy` | the demo |

Where the two copies of a helper differ only in macro names or layout, one
definition models both. A parameter selects the build: `isES` for GL ES, and
`Platform` for Android, Emscripten or desktop.

## Model

| member | source | states |
|---|---|---|
| Base.CText | source/okwrapper/oklog.h:709-710 | the C string a character array prints is a prefix of it with no NUL, followed by the terminator when it is shorter |
| Base.CTextEndsBeforeNul | source/okwrapper/okapp.h:244-251 | an array that holds a NUL has its C string strictly before its end, so a scan for the terminator stops inside the array |
| Base.Wrap32 | source/okwrapper/okapp.h:576-577 | the conversion of a 64-bit id to `int` always lands in the 32-bit range and leaves in-range values unchanged |
| Base.Wrap32KeepsLowBits | source/okwrapper/okapp.h:576-577 | the converted value differs from the original by a multiple of 2^32: only the low 32 bits survive |
| Decimal.DigitValue | source/okwrapper/oklog.h:1016-1018 | the digit character for a value below ten reads back as that value |
| Decimal.IntToDecimal | source/okwrapper/oklog.h:1003-1029 | the text of a value is a `-` exactly for a negative value, followed by at least one digit |
| Decimal.ReverseTwice | source/okwrapper/oklog.h:1034-1042 | reversing the digit run twice restores it |
| Decimal.RevDigitsIsReversed | source/okwrapper/oklog.h:1015-1029 | the digits the loop emits, least significant first, are the decimal digits in reverse |
| Decimal.DigitsRoundTrip | source/okwrapper/oklog.h:1015-1029 | the decimal digits of `n` have the value `n` |
| Decimal.DecimalRoundTrip | source/okwrapper/oklog.h:1003-1044 | the text written for any integer is an optional `-` and digits, and it parses back to that integer |
| Decimal.NoLeadingZero | source/okwrapper/oklog.h:1015-1023 | the loop writes a leading zero exactly for the value zero |
| Decimal.DigitsLengthBound | source/okwrapper/oklog.h:1062-1116 | colour indices below 10, 100 and 1000 take at most 1, 2 and 3 digits |
| Decimal.LeadingDigits | source/okwrapper/oklog.h:405-407 | the part `strtol` consumes is the longest all-digit prefix of the name |
| Decimal.StrtolToInt | source/okwrapper/oklog.h:410 | `(int) strtol` of a name is an `int`; a value that fits is read exactly; a larger one saturates to INT_MAX where `long` has 32 bits (Windows), and on a 64-bit `long` keeps its low 32 bits, or all ones past LONG_MAX |
| LogBuffer.AppendString | source/okwrapper/oklog.h:969-984 | the value is appended iff the text, the value and the terminator fit the buffer; the result is the new length, or -1 with the text untouched |
| LogBuffer.AppendInt | source/okwrapper/oklog.h:987-1045 | the decimal text of the value is appended whole iff it fits with the terminator, otherwise the text is restored and -1 returned |
| LogBuffer.WriteDigitsReversed | source/okwrapper/oklog.h:1013-1029 | the digit loop succeeds iff all digits fit before the terminator slot, and then it has written exactly the reversed digits |
| LogBuffer.ReverseSuffix | source/okwrapper/oklog.h:1034-1042 | the swap loop keeps the prefix and reverses the digit run |
| LogBuffer.AppendIntByReversal | source/okwrapper/oklog.h:987-1045 | the sign, the reversed digit loop and the swap loop together meet the all-or-nothing contract of `AppendInt` |
| LogBuffer.WriteNumber | source/okwrapper/oklog.h:1013-1044 | after the room checks, the number is written in the right order iff its digits fit, else the text is restored |
| LogBuffer.SignAndDigits | source/okwrapper/oklog.h:1003-1011 | a `-` for a negative value, followed by the digits of its magnitude, is its decimal text |
| LogColor.AppendColor | source/okwrapper/oklog.h:1108-1115 | prefix, number and `m` are appended together iff all of them fit, otherwise the chain stops |
| LogColor.AppendAnsiPart | source/okwrapper/oklog.h:1062-1084 | one pass of the 16-colour loop appends the index's code iff it fits; an index outside 0..15 appends nothing |
| LogColor.AppendAnsi256Part | source/okwrapper/oklog.h:1105-1117 | one pass of the 256-colour loop appends the index's code iff it fits; an index outside 0..255 appends nothing |
| LogColor.GenerateColorCodeAnsi | source/okwrapper/oklog.h:1052-1093 | the 16-colour code is produced whole, and 1 returned, iff it fits the buffer; otherwise the buffer is cleared and 0 returned |
| LogColor.GenerateColorCodeAnsi256 | source/okwrapper/oklog.h:1095-1126 | the same all-or-nothing result for the 256-colour code |
| LogColor.GenerateColorCode | source/okwrapper/oklog.h:1128-1143 | a single foreground or background code in the current mode, and nothing when colours are off |
| LogColor.SgrAnsiLength | source/okwrapper/oklog.h:1062-1084 | a 16-colour pair code is at most 14 characters |
| LogColor.Sgr256Length | source/okwrapper/oklog.h:264 | a 256-colour pair code fits the `2 * 12 - 1` byte cache with its terminator |
| LogColor.CacheCode | source/okwrapper/oklog.h:320-321 | the code cached in the 23-byte arrays is the complete code for the mode, never cut off |
| LogColor.UpdateFieldColorCache | source/okwrapper/oklog.h:1145-1173 | every field in use with its own colour then holds its colour's code, and nothing else in the context changes |
| LogColor.UpdateLogLevelColorCache | source/okwrapper/oklog.h:1175-1206 | every level's label and message code then matches its colours, and nothing else changes |
| LogColor.GetResetColorCode | source/okwrapper/oklog.h:813-815 | the reset code is empty exactly when colours are off |
| LogColor.NoColorModeCachesEmpty | source/okwrapper/oklog.h:1168-1172 | in a consistent context with colours off, every cached code is empty |
| LogFormat.KeywordRank | source/okwrapper/oklog.h:417-484 | each keyword has one turn in the order in which the parser tries them |
| LogFormat.MatchKeywordIsFirstPrefix | source/okwrapper/oklog.h:417-484 | `memcmp` over the name's length selects the first keyword in table order that the name is a prefix of, and none if there is no such keyword |
| LogFormat.MatchFromIsFirstPrefix | source/okwrapper/oklog.h:417-484 | the same, for the keywords from a given turn on |
| LogFormat.ConfigureField | source/okwrapper/oklog.h:418-483 | a keyword sets its field's kind and colour type, and the tag and file fields get their own colours (cyan/30, bright blue/68) |
| LogFormat.ResetField | source/okwrapper/oklog.h:909-923 | a reused slot becomes a plain field with no padding, no colour and an empty `padEnd` |
| LogFormat.AddField | source/okwrapper/oklog.h:909-923 | the next slot is taken iff fewer than ten are in use; no other slot changes |
| LogFormat.ApplyName | source/okwrapper/oklog.h:405-488 | a name starting with a digit adds a padding field iff `strtol` reads it as positive; a keyword name adds that keyword's field; any other name changes nothing |
| LogFormat.ApplyPadding | source/okwrapper/oklog.h:407-415 | a positive width adds a plain field starting at that column, when a slot is free |
| LogFormat.ApplyKeyword | source/okwrapper/oklog.h:417-484 | a keyword adds its field when a slot is free, and otherwise leaves no field current |
| LogFormat.CloseBrace | source/okwrapper/oklog.h:403-406 | the name ends at the first `}` after the `{`, or at the end of the text |
| LogFormat.PadLength | source/okwrapper/oklog.h:493-499 | the trailer copy stops at the room left, the end of the text or the next `{`, whichever comes first |
| LogFormat.Overlay | source/okwrapper/oklog.h:494-496 | the copied text lands at the start of `padEnd`, and the later bytes keep what they held |
| LogFormat.CopyPad | source/okwrapper/oklog.h:491-501 | at most five characters up to the next `{` go into the current field, and only that field changes |
| LogFormat.ParseStep | source/okwrapper/oklog.h:392-504 | each pass of the loop moves forward and never removes a field |
| LogFormat.PlainStep | source/okwrapper/oklog.h:393-398 | a plain character starts a plain field and moves forward |
| LogFormat.AfterPlaceholder | source/okwrapper/oklog.h:484-503 | after a `}` the scan moves on without changing the field count, or steps past the terminator when no field is current |
| LogFormat.Parse | source/okwrapper/oklog.h:389-504 | the parse keeps the slots consistent and only adds fields |
| LogFormat.ApplyFormat | source/okwrapper/oklog.h:382-507 | a completed parse leaves at most ten fields with fresh colour codes, and the mode and level caches untouched |
| LogFormatFacts.ExactNamesSelectTheirKeyword | source/okwrapper/oklog.h:417-484 | each keyword's full name selects that keyword, despite the prefix matching |
| LogFormatFacts.NamesDiffer | source/okwrapper/oklog.h:417-484 | no keyword's name is a prefix of a name the parser tries earlier |
| LogFormatFacts.AbbreviatedNames | source/okwrapper/oklog.h:417-484 | `{}` selects the message, `{t}` the long time, `{ta}` the tag, `{f}` the full file, and `{tags}` nothing |
| LogFormatFacts.OverlayOnCleared | source/okwrapper/oklog.h:491-501 | a short trailer copied over a cleared `padEnd` is exactly the C string it then holds |
| LogFormatFacts.SegmentField | source/okwrapper/oklog.h:417-501 | a keyword placeholder and its trailer make the keyword's field with no start padding |
| LogFormatFacts.SegmentStep | source/okwrapper/oklog.h:392-504 | one pass over `{keyword}trailer` adds exactly that segment's field and stops at the next `{` |
| LogFormatFacts.KeywordPlaceholder | source/okwrapper/oklog.h:403-484 | a keyword's own placeholder closes where its name ends and selects that keyword |
| LogFormatFacts.TrailerStep | source/okwrapper/oklog.h:491-503 | the text after a keyword's `}` is copied into that keyword's field |
| LogFormatFacts.PlaceholderStep | source/okwrapper/oklog.h:399-489 | a `{` with a closing `}` applies the name between them |
| LogFormatFacts.CopyPadSegment | source/okwrapper/oklog.h:491-501 | copying the trailer into the field just added gives that segment's state |
| LogFormatFacts.KeywordSlot | source/okwrapper/oklog.h:909-923 | a keyword with a free slot puts its configured, reset field in that slot |
| LogFormatFacts.ParseSegments | source/okwrapper/oklog.h:392-504 | a format of keyword segments parses to one field per segment, in order, and earlier slots are kept |
| LogFormatFacts.ParseContinues | source/okwrapper/oklog.h:392-504 | the loop continues from wherever one pass leaves it |
| LogFormatFacts.CorrectedFieldMatches | source/okwrapper/oklog.h:909-923 | with the whole `padEnd` cleared, a segment's field prints its keyword and its own trailer |
| LogFormatFacts.OverlayText | source/okwrapper/oklog.h:491-501 | a trailer copied over the start of a `padEnd` prints as the trailer followed by whatever C string the older bytes after it hold |
| LogFormatFacts.AsWrittenFieldText | source/okwrapper/oklog.h:909-923 | as written, a reused field prints nothing after it when the trailer is empty, and otherwise the trailer followed by the stale bytes of the old `padEnd` |
| LogFormatFacts.AsWrittenSegments | source/okwrapper/oklog.h:382-507 | as written, a format of keyword segments parses into one field per segment, each with its keyword and no padding, printing its trailer followed by the stale tail of the old `padEnd` |
| LogFormatFacts.FormatRoundTrip | source/okwrapper/oklog.h:382-507 | formatting a list of keyword segments and parsing it back gives that list, field by field |
| LogFormatFacts.ClearedSlotResetsAgree | source/okwrapper/oklog.h:909-923 | on a slot whose `padEnd` is all NUL, the reset as written and the corrected one give the same field, which prints exactly its trailer |
| LogFormatFacts.AsWrittenRoundTrip | source/okwrapper/oklog.h:382-507 | as written, a format of keyword segments parses into as many fields, and every slot that held no old trailer bytes gives back its segment |
| LogFormatFacts.FormatApplies | source/okwrapper/oklog.h:382-507 | a format of keyword segments never makes the parser overrun, for either reset |
| LogFormatFacts.FormatHasNoNul | source/okwrapper/oklog.h:389-392 | a format built from keyword names and C-string trailers is itself a C string |
| LogFormatCases.DefaultFormatIsSegments | source/okwrapper/oklog.h:255-257 | the default format is the keyword segments short time, short level, tag and short file, each followed by a space, then the message |
| LogFormatCases.StrippedFormatIsSegments | source/okwrapper/oklog.h:259-261 | the release format is the segments short time and short level, each followed by a space, then the message |
| LogFormatCases.DefaultFormatField | source/okwrapper/oklog.h:899-906 | the build's default format parses, in any context, into its five (or three) fields in order |
| LogFormatCases.DefaultFormatAsWritten | source/okwrapper/oklog.h:899-906 | with the reset as written, the default format parses in any context into five (or three) fields, and into the default fields wherever the slot held no old trailer bytes |
| LogFormatCases.StalePadEndAsWritten | source/okwrapper/oklog.h:917 | as written, `{tag} -> {message}` then `{tag} {message}` leaves the tag printing ` -> ` instead of one space |
| LogFormatCases.AsWrittenTwoFormats | source/okwrapper/oklog.h:909-923 | as written, two formats in a row leave the first field with the second trailer over the older bytes |
| LogFormatCases.AsWrittenOverlay | source/okwrapper/oklog.h:917 | as written, only byte 0 of a reused `padEnd` is cleared before the trailer is copied |
| LogFormatCases.StalePadEndCorrected | source/okwrapper/oklog.h:909-923 | with the whole `padEnd` cleared, the second format's tag prints its own space |
| LogFormatCases.LonePlaceholderOverruns | source/okwrapper/oklog.h:484-503 | a format that is a single placeholder adding no field makes the loop step past the terminator |
| LogFormatCases.LonePaddingColumn | source/okwrapper/oklog.h:407-415 | a lone `{N}` with a positive width is a single plain field starting at column N |
| LogApi.ResolveMode | source/okwrapper/oklog.h:754-789 | AUTO becomes 256 colours on a terminal and no colours otherwise; any other request is kept |
| LogApi.DefaultLabelColors | source/okwrapper/oklog.h:862-884 | ALL has no colours, every index is "none" or inside its palette, and each level from VERBOSE to FATAL has a label foreground in both palettes |
| LogApi.DefaultMessageColors | source/okwrapper/oklog.h:862-893 | ALL and INFO messages have no colours, VERBOSE and DEBUG are dimmed in 256-colour mode only, WARNING to FATAL have a foreground in both palettes |
| LogApi.SetColorModeCore | source/okwrapper/oklog.h:749-796 | the mode becomes the resolved request; the caches are regenerated iff it changed, and nothing else changes |
| LogApi.InstallDefaultFormat | source/okwrapper/oklog.h:899-906 | initialisation installs the build's default format through `oklog_setFormat` as written, which completes with five (or three) fields |
| LogApi.ConfirmInit | source/okwrapper/oklog.h:849-907 | it does nothing once initialised; otherwise it installs the default colours, the AUTO mode, the build's filter (DEBUG or INFO) and the build's format |
| LogApi.InitFields | source/okwrapper/oklog.h:899-906 | each field installed at initialisation into a slot with no old trailer bytes prints its default keyword and trailer |
| LogApi.StaticInitFields | source/okwrapper/oklog.h:899-906 | initialising the static context installs exactly the fields of the build's default format |
| LogApi.ClampLevel | source/okwrapper/oklog.h:362-367 | the filter is clamped into ALL..SILENT, and a valid level is kept |
| LogApi.SetLogLevelFilter | source/okwrapper/oklog.h:359-370 | after initialisation only the filter changes, to the clamped level |
| LogApi.GetLogLevelFilter | source/okwrapper/oklog.h:372-375 | it initialises the logger and returns the filter then in force |
| LogApi.SetFilterCallback | source/okwrapper/oklog.h:377-380 | after initialisation only the callback changes |
| LogApi.SetFormat | source/okwrapper/oklog.h:382-507 | as written (only byte 0 of a reused `padEnd` cleared): it initialises, then parses the new format; only the fields change, and a completed parse keeps the context shaped with fresh field codes |
| LogApi.SetFormatSegments | source/okwrapper/oklog.h:382-507 | as written, a format of keyword segments installs one field per segment with its keyword, printing its trailer over the stale bytes the initialised context held |
| LogApi.SetFormatCorrected | source/okwrapper/oklog.h:909-923 | the same call with the whole `padEnd` cleared on reuse: same contract as `SetFormat` |
| LogApi.SetFormatCorrectedSegments | source/okwrapper/oklog.h:382-507 | with the whole `padEnd` cleared, a format of keyword segments installs exactly one field per segment, each printing its keyword and its own trailer |
| LogApi.SetColorMode | source/okwrapper/oklog.h:749-796 | after initialisation the mode becomes the resolved request; filter, fields and colours are unchanged |
| LogApi.GetColorMode | source/okwrapper/oklog.h:798-801 | it initialises and returns the mode then in force; for a logger reached through the API that context is consistent and the mode is never AUTO |
| LogApi.Single256Length | source/okwrapper/oklog.h:116-118 | a single 256-colour code fits the public 12-byte colour code |
| LogApi.SingleAnsiLength | source/okwrapper/oklog.h:116-118 | a single 16-colour code fits the public 12-byte colour code |
| LogApi.ColorCodeFor | source/okwrapper/oklog.h:803-811 | the foreground or background code always fits in a colour mode, and is empty with 0 returned when colours are off |
| LogApi.SetLabelColor | source/okwrapper/oklog.h:817-829 | a level from VERBOSE to FATAL gets the new label colours and fresh caches; any other level changes nothing, not even initialisation |
| LogApi.SetMessageColor | source/okwrapper/oklog.h:831-843 | the same, for the message colours |
| LogApi.ColoredLevel | source/okwrapper/oklog.h:818 | the levels whose colours can be set are exactly the message levels, neither ALL nor SILENT, and each indexes the colour tables |
| LogApi.GetLogLevelName | source/okwrapper/oklog.h:325-327 | each level has a non-empty name |
| LogApi.GetLogLevelNameShort | source/okwrapper/oklog.h:330-332 | each level has a one-letter short name |
| LogApi.LevelNames | source/okwrapper/oklog.h:324-332 | the short name is the first letter of the long one, and different levels have different names |
| LogApi.CheckLogFilter | source/okwrapper/oklog.h:950-959 | a callback alone decides; without one a message passes iff its level is at least the filter and below SILENT |
| LogApi.BaseStart | source/okwrapper/oklog.h:929-946 | the base name starts just after the last separator, and no separator follows it |
| LogApi.GetFilename | source/okwrapper/oklog.h:925-948 | the full path, or the part after the last `/` (on Windows, after the later of `/` and `\`) |
| LogApi.FilenameOfJoin | source/okwrapper/oklog.h:939-945 | the short name of `dir/name` is `name` |
| LogApi.ConfirmInitValid | source/okwrapper/oklog.h:849-907 | initialisation leaves every cache consistent with its colours |
| LogApi.SetColorModeValid | source/okwrapper/oklog.h:791-795 | the caches stay consistent although they are regenerated only when the mode changes |
| LogApi.SetColorsValid | source/okwrapper/oklog.h:817-843 | setting a level's colours keeps the context consistent |
| LogApi.SetFormatValid | source/okwrapper/oklog.h:382-507 | a new format keeps the context consistent, as written and with the corrected reset |
| LogApi.SetFilterValid | source/okwrapper/oklog.h:359-380 | setting the filter or the callback keeps the context consistent |
| LogApi.SetColorModeIdempotent | source/okwrapper/oklog.h:749-796 | setting the same colour mode twice equals setting it once |
| LogApi.SetLabelColorIdempotent | source/okwrapper/oklog.h:817-829 | setting the same label colours twice equals setting them once |
| LogApi.FilterAfterSetLevel | source/okwrapper/oklog.h:359-370 | without a callback, after setting the filter a message passes iff its level is at least the clamped filter and below SILENT |
| LogApi.FilterExtremes | source/okwrapper/oklog.h:955 | without a callback, SILENT blocks every message and ALL passes every level below SILENT |
| LogApi.FilterMonotone | source/okwrapper/oklog.h:955 | without a callback, lowering the filter never blocks a message that passed before |
| LogEmit.EmitField | source/okwrapper/oklog.h:621-711 | a field starting beyond the current column is preceded by exactly the missing spaces, and the column never goes back |
| LogEmit.NewlineAsWritten | source/okwrapper/oklog.h:714-720 | as written, a message starting with `0` gets no newline, and an empty message makes the check read before the message |
| LogEmit.Newline | source/okwrapper/oklog.h:714-720 | a newline is added iff the message is non-empty and does not end in one |
| LogEmit.NewlineChecksAgree | source/okwrapper/oklog.h:714-720 | the check as written and the intended one agree on a missing message and on every non-empty message that does not start with `0` |
| LogEmit.ZeroMessageGetsNoNewline | source/okwrapper/oklog.h:714 | `0 items` gets no newline as written, but one as intended |
| LogEmit.LogAsWritten | source/okwrapper/oklog.h:609-722 | as written, a message that fails the current filter, or has a level outside ALL..FATAL, prints nothing and initialises nothing; one that passes initialises the logger and prints its fields followed by the newline as written, and exactly `Printed` when the message does not start with `0`; an empty message reads before the buffer |
| LogEmit.Log | source/okwrapper/oklog.h:609-722 | as intended, the logger is initialised first; a message prints its fields and newline iff it passes the filter then in force, and a level outside ALL..FATAL prints nothing |
| LogEmit.FirstVerboseMessage | source/okwrapper/oklog.h:611-615 | in a release build, a first VERBOSE message is printed as written, although the INFO filter installed for the build would block it |
| LogEmit.NoColorCodes | source/okwrapper/oklog.h:626-645 | with colours off, no field is wrapped in a colour code |
| LogEmit.ColumnCountsOutput | source/okwrapper/oklog.h:617-711 | with colours off, the column `oklog_log` tracks equals the number of characters printed |
| LogEmit.FieldCode | source/okwrapper/oklog.h:625-640 | a field's colour code is its own code, or, with fresh caches, the code of its level's label or message colours in the current mode, or nothing |
| LogEmit.FieldBody | source/okwrapper/oklog.h:646-700 | a time is printed whole and only if it fits the 30-byte buffer; a level prints its name, or its one-letter short name; a tag prints itself and a NULL tag or file nothing; a file prints its (short) name, `:` and the line; the message is the formatted text |
| GlHelper.Preamble | source/okwrapper/okgl_helper.h:366-502 | a preamble is added exactly for major version 2 and above; each is the source's literal, piece by piece |
| GlHelper.JoinContains | source/okwrapper/okgl_helper.h:366-502 | every piece of a preamble literal occurs in the preamble |
| GlHelper.FragmentLinesMap | source/okwrapper/okgl_helper.h:448-501 | a version 3 or 4 fragment preamble declares its output variable and defines `gl_FragColor` as it |
| GlHelper.ConvertShader | source/okwrapper/okgl_helper.h:352-425 | the result is the build's preamble followed by the unchanged source, or NULL for a missing source or a failed allocation |
| GlHelper.ConvertIgnoresMinor | source/okwrapper/okgl_helper.h:355 | the minor version does not affect the result |
| GlHelper.UnmappedVersionKeepsSource | source/ok_gl_helper/ok_gl_helper.h:298-365 | a major version below 2 returns a copy of the source unchanged |
| GlHelper.PreambleVersionLine | source/ok_gl_helper/ok_gl_helper.h:307-356 | each preamble starts with the `#version` line for its build and major version |
| GlHelper.Version3Mappings | source/ok_gl_helper/ok_gl_helper.h:388-441 | from version 3, fragment preambles declare `fragmentOut` and map `gl_FragColor` to it, and vertex preambles map `attribute` to `in` |
| GlHelper.GetErrorString | source/okwrapper/okgl_helper.h:168-190 | the five known error codes have names, and every other code is `<unknown>` |
| GlHelper.ErrorNamesDistinct | source/ok_gl_helper/ok_gl_helper.h:112-134 | different known codes have different names |
| GlHelper.UnitMatrix | source/okwrapper/okgl_helper.h:287-307 | ones on the diagonal and zeros elsewhere |
| GlHelper.SetTranslation | source/okwrapper/okgl_helper.h:309-313 | it writes entries 12 to 14 and leaves the others |
| GlHelper.SetScale | source/okwrapper/okgl_helper.h:314-318 | it writes entries 0, 5 and 10 and leaves the others |
| GlHelper.SettersCommute | source/ok_gl_helper/ok_gl_helper.h:252-261 | translation and scale can be set in either order |
| GlHelper.TranslationOverrides | source/ok_gl_helper/ok_gl_helper.h:252-256 | a second translation replaces the first |
| AppWrapper.Replaced | source/okwrapper/okapp.h:244-251 | every `from` becomes `to`, and every other character is kept |
| AppWrapper.ReplaceChars | source/ok_platform_wrapper/ok_app.h:213-220 | the in-place loop replaces the characters before the terminator and leaves the terminator and later bytes alone |
| AppWrapper.NoFromLeft | source/okwrapper/okapp.h:389 | after replacing `\` by `/`, no `\` is left in the base path |
| AppWrapper.ReplaceIdempotent | source/okwrapper/okapp.h:244-251 | replacing twice is replacing once |
| AppWrapper.ReplaceRoundTrip | source/okwrapper/okapp.h:244-251 | when `to` did not occur, replacing back restores the string |
| AppWrapper.Snprintf | source/okwrapper/okapp.h:266-278 | the return value is the full length; nothing is stored for a zero size; otherwise as much as fits before the terminator is stored |
| AppWrapper.AssetPath | source/okwrapper/okapp.h:253-280 | a path exists iff there is a file name and, on desktop, a base path; the file name ends it, on desktop the base path starts it, and it is a C string |
| AppWrapper.GetAssetPath | source/ok_platform_wrapper/ok_app.h:222-244 | -1 for a missing file name or desktop base path; otherwise what `snprintf` returns and stores for the path |
| AppWrapper.AssetPathOnPlatforms | source/okwrapper/okapp.h:264-278 | the name on Android, `assets/` and the name on Emscripten, and the base path, `../../assets/` and the name on desktop |
| AppWrapper.MallocAssetPath | source/okwrapper/okapp.h:282-295 | the two-pass allocation returns the whole path iff there is one and it is non-empty |
| AppWrapper.ShortBufferTruncates | source/ok_platform_wrapper/ok_app.h:246-259 | a buffer too short stores a strict prefix of the path, yet the return value is the full length |
| AppWrapper.WindowModeFlags | source/okwrapper/okapp.h:197-209 | the flags passed to SDL for a mode use only the full-screen bits |
| AppWrapper.SetWindowMode | source/okwrapper/okapp.h:194-212 | the full-screen bits are replaced by the mode's flags, and every other window flag is kept |
| AppWrapper.GetWindowModeAsWritten | source/okwrapper/okapp.h:214-225 | as written, FULLSCREEN is never reported, and WINDOWED is reported iff no full-screen bit is set |
| AppWrapper.GetWindowMode | source/ok_platform_wrapper/ok_app.h:183-194 | as intended, desktop full screen needs all of its bits, and WINDOWED means the real full-screen bit is clear |
| AppWrapper.WindowModeRoundTrip | source/okwrapper/okapp.h:194-225 | the mode read back after setting one is the mode set, whatever the other flags |
| AppWrapper.FullscreenReadsBackAsWindow | source/ok_platform_wrapper/ok_app.h:186-190 | as written, setting FULLSCREEN reads back as FULLSCREEN_WINDOW |
| AppWrapper.WindowModeReadingsAgree | source/okwrapper/okapp.h:214-225 | for the windowed and desktop modes, the reading as written is right |
| AppWrapper.Translate | source/okwrapper/okapp.h:535-685 | each event delivers at most one app event and only to a registered callback; quit is queued iff the event is QUIT or a release of the back key; touch-emulated mouse events deliver nothing |
| AppWrapper.KeyEventsOneToOne | source/ok_platform_wrapper/ok_app.h:520-544 | key presses and releases reach the app one for one, with their codes copied |
| AppWrapper.MouseEventsHaveNoSource | source/okwrapper/okapp.h:605-665 | every pointer event from a real mouse carries source id -1 |
| AppWrapper.MainLoop | source/ok_platform_wrapper/ok_app.h:513-668 | one frame delivers at most one app event per SDL event, each to a callback the app registered |
| AppWrapper.Turns | source/okwrapper/okapp.h:535-536 | the loop takes one turn of the `switch` per polled event, in polling order |
| AppWrapper.TurnsSplit | source/okwrapper/okapp.h:535-536 | the turns of two batches of events are the first batch's turns followed by the second's |
| AppWrapper.MainLoopIsRun | source/okwrapper/okapp.h:535-685 | a frame is the run of its turns: their deliveries concatenated in order, with a quit flag that stays set once a turn sets it |
| AppWrapper.RunIgnoresDone | source/okwrapper/okapp.h:535 | the events delivered do not depend on an earlier quit: the loop drains the queue |
| AppWrapper.RunSplit | source/okwrapper/okapp.h:535-685 | running two lists of turns in sequence is running their concatenation |
| AppWrapper.MainLoopSplit | source/ok_platform_wrapper/ok_app.h:513-668 | handling two batches of events in turn delivers the first batch's events, then the second's, and carries the quit flag over |
| AppWrapper.MainLoopDeliversInOrder | source/okwrapper/okapp.h:535-685 | one more polled event appends exactly its own translation to what the app receives |
| AppWrapper.MainLoopQuits | source/okwrapper/okapp.h:535-685 | after a frame the app is done iff it was done already or some event asked to quit |
| AppWrapper.EmulatedMouseDropped | source/ok_platform_wrapper/ok_app.h:585-608 | a frame of touch-emulated mouse events delivers nothing and does not quit |
| SdfDemo.ExpandAtlas | source/sdf_text_app.c:592-609 | the smaller side doubles (the height on a tie); the atlas resets to max×max iff a side would exceed the maximum texture size |
| SdfDemo.AtlasWithinMax | source/sdf_text_app.c:603-607 | the atlas never exceeds the maximum texture size in either side |
| SdfDemo.AtlasNeverShrinks | source/sdf_text_app.c:596-607 | an atlas within the maximum never shrinks when it grows |
| SdfDemo.AtlasShapeKept | source/sdf_text_app.c:596-601 | starting from a square, the atlas stays square or twice as high as wide |
| SdfDemo.FullAtlasStaysAtMax | source/sdf_text_app.c:603-604 | a square at the maximum size stays there: every further growth is a reset |
| SdfDemo.OnKeyEvent | source/sdf_text_app.c:268-288 | releases change nothing; Escape quits, `r` reloads, `c` flips the atlas view, and only `f` touches the window |
| SdfDemo.CacheToggleTwice | source/sdf_text_app.c:277-278 | pressing `c` twice restores whether the atlas is shown |
| SdfDemo.FullscreenKeySwitches | source/sdf_text_app.c:280-285 | `f` switches to desktop full screen from any other mode, and back to windowed from it |
| SdfDemo.FullscreenKeyTwice | source/sdf_text_app.c:280-285 | two presses of `f` from windowed return to windowed and leave the other flags alone |
| SdfDemo.OnPointerEvent | source/sdf_text_app.c:290-310 | a press starts a drag, a release ends it, and moves and scrolls keep it |
| SdfDemo.DragSequence | source/sdf_text_app.c:290-303 | between a press and a release the drag goes on through any number of moves, and the release ends it |
| SdfDemo.MovesKeepState | source/sdf_text_app.c:297-303 | move events do not change the demo's flags |

## Left out

- `oklog_parseCommandLineOptions` (`oklog.h:725-747`) is not modelled. It reads `argv` entries with pointer arithmetic that can run past the array, and it only calls the setters that are modelled.
- The Android and SDL log back ends of `oklog_log` (`oklog.h:517-605`) are not modelled. They hand the message to the platform logger and have no formatting of their own.
- `printf`, `vprintf`, `strftime` and `fflush` are left out as I/O. The formatted message text and the clock's output are inputs, and the model returns the printed text as a string.
- AUTO colour detection (`isatty`, or the Windows console mode) is left out. It is the input `Env.terminalColors`, and its Windows code page call is left out.
- The filter callback is left out as a call into user code. It is an arbitrary function value.
- LogFormat.ApplyName: a padding width is read as on an LP64 platform, with a 64-bit `long`. On Windows `long` has 32 bits, and a width above INT_MAX reads as INT_MAX instead. Decimal.StrtolToInt models both, and they agree on every width that fits an `int`.
- LogApi.InitFields: stated for slots that hold no old trailer bytes. The only uninitialised context the program has is the static one, whose slots are all cleared (`StaticInitFields`); on any other context the reset as written can leave stale bytes behind (`LogFormatFacts.AsWrittenSegments`).
- LogEmit.LogAsWritten and LogEmit.Log: a call at SILENT or a level outside ALL..SILENT is accepted whenever the filter turns it away, by the callback or, without one, by the level filter. A callback that lets such a level through is excluded (`SafeCall`), because the source then reads the colour caches out of bounds (`oklog.h:632-636`).
- LogBuffer.AppendInt: INT_MIN is excluded by the precondition. The source negates the value, which overflows; every caller passes a colour index from -1 to 255.
- LogColor.GenerateColorCode: a zero-sized or NULL buffer is modelled as returning an empty code. The source returns 0 without writing, and leaves the buffer as it was.
- The GL matrix entries are real numbers; single-precision rounding is left out. `okgl_projection2d` and the other float-only helpers are left out.
- OpenGL driver calls (shader compilation, program linking, `glGetError`, `glGetIntegerv`) are left out as foreign calls. The maximum texture size is a parameter of `SdfDemo.ExpandAtlas`.
- GlHelper.ConvertShader: a failed allocation is a parameter (`allocOk`).
- The GLSL preambles are the source's string literals, written piece by piece as they appear between the line continuations, including the source's own typos (`define lowp` without `#`, `varying ouy`). GlHelper.Preamble states only which versions get one; its text is the definition itself.
- SDL window and GL context creation, event polling, timers, file loading and `SDL_Delay` are left out as I/O. The main loop is modelled from the list of polled events on.
- `okapp_queueQuit`'s call to `emscripten_cancel_main_loop` is left out. The model records only that quit was queued.
- Floating-point pointer coordinates, wheel clamping, the zoom and pan arithmetic in the demo, and `SDL_GL_GetDrawableSize` are left out. Pointer events carry their type, source and index only.
- AppWrapper.MallocAssetPath: a failed `malloc` is not modelled. The source passes the NULL buffer on to `snprintf` without checking it.
- AppWrapper.MallocAssetPath: the signed overflow of `pathLength + 1` for a path of INT_MAX characters (`okapp.h:285`) is not modelled; the buffer size is computed without wrap-around.
- AppWrapper.Snprintf: the case where the length exceeds `INT_MAX` is modelled as storing nothing. C leaves the buffer contents unspecified then.
- Fontstash itself (glyph packing, atlas textures, text drawing) is left out. It is third-party code; only the demo's growth rule around it is modelled.
- SdfDemo.OnKeyEvent: the shader reload on `r` is modelled as a flag. Reloading runs the GL compilation that is left out above.
- SdfDemo.OnKeyEvent uses the corrected GetWindowMode. As written, the toggle behaves the same for the two modes it sets (`AppWrapper.WindowModeReadingsAgree`).
- The platform detection headers (`okplatform.h`, `ok_platform.h`) are left out. The platform and the GL ES build are parameters.
- The SDL2 and OpenGL constants (`SDL_WINDOW_FULLSCREEN` = 0x1, `SDL_WINDOW_FULLSCREEN_DESKTOP` = 0x1001, `SDLK_AC_BACK`, `SDL_TOUCH_MOUSEID`, `SDLK_ESCAPE`, the GL error codes) come from the SDL2 and OpenGL headers. Those headers are not part of this model.

## Findings

| source | as written | input that shows it | evidently intended | confidence | as-written member | corrected member |
|---|---|---|---|---|---|---|
| source/okwrapper/oklog.h:917 | `okimpllog_addField` clears only the first byte of a reused `padEnd`, so a shorter trailer keeps the tail of the old one | `oklog_setFormat("{tag} -> {message}")` then `oklog_setFormat("{tag} {message}")`: the tag prints ` -> ` | a reused field prints only its own trailer | not executed | LogFormatCases.StalePadEndAsWritten | LogFormatCases.StalePadEndCorrected |
| source/okwrapper/oklog.h:714 | the newline check compares the first character with `'0'` instead of the terminator | `oklog_log(..., "0 items")` prints no newline; `""` reads the byte before the message | add a newline to every non-empty message that lacks one | not executed | LogEmit.ZeroMessageGetsNoNewline | LogEmit.Newline |
| source/okwrapper/oklog.h:611-615 | the filter is checked before the logger is initialised | the first call, `oklog_log(VERBOSE, ...)` in a release build, is printed although the INFO filter installed for the build blocks it | initialise first, so the build's filter applies from the first call | not executed | LogEmit.FirstVerboseMessage | LogEmit.Log |
| source/okwrapper/okapp.h:217 | `getWindowMode` tests `SDL_WINDOW_FULLSCREEN_DESKTOP` (0x1001) with `!= 0`, which the real full-screen bit 0x1 alone satisfies (also `ok_app.h:186`) | `okapp_setWindowMode(OKAPP_WINDOW_MODE_FULLSCREEN)` then `okapp_getWindowMode()` returns FULLSCREEN_WINDOW | report FULLSCREEN for real full screen: test that all desktop bits are set | not executed | AppWrapper.FullscreenReadsBackAsWindow | AppWrapper.WindowModeRoundTrip |

The logger's `LogApi.SetFormat` and the default format installed by `LogApi.ConfirmInit` keep the reset as written, so the API model prints what the program prints; `LogApi.SetFormatCorrected` is the same call with the whole `padEnd` cleared, and `LogApi.SetFormatCorrectedSegments` proves the intended property of it for every format of keyword segments.
