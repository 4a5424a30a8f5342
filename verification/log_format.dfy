/**
 * The format parser of `oklog_setFormat`: a format such as
 * "{time_short} {level_short} {message}" becomes at most ten output fields.
 *
 * A placeholder name selects the first keyword it is a prefix of, because the
 * C code compares only as many bytes as the name has. A name that starts with
 * a digit is a padding column. Up to five characters of plain text after a
 * field are kept in that field's `padEnd`; the rest of a longer run starts new
 * plain-text fields.
 *
 * Two variants of adding a field are modelled: as written, a reused field slot
 * keeps the bytes of its old `padEnd` after the first one; the corrected
 * variant clears them. The logger's own calls (`LogApi.SetFormat` and the
 * default format installed at initialisation) use the one as written;
 * `LogApi.SetFormatCorrected` is the same call with the corrected one.
 */
module LogFormat {
  import opened Base
  import opened Decimal
  import opened LogTypes
  import opened LogColor

  datatype Keyword = KwMessage | KwTime | KwTimeShort | KwLevel | KwLevelShort | KwTag | KwFile | KwFileShort

  function KeywordName(k: Keyword): string {
    match k
    case KwMessage => "message"
    case KwTime => "time"
    case KwTimeShort => "time_short"
    case KwLevel => "level"
    case KwLevelShort => "level_short"
    case KwTag => "tag"
    case KwFile => "file"
    case KwFileShort => "file_short"
  }

  /** Where a keyword stands in the order in which the parser tries them. */
  function KeywordRank(k: Keyword): (r: nat)
    ensures r < KEYWORD_COUNT && KeywordAt(r) == k
  {
    match k
    case KwMessage => 0
    case KwTime => 1
    case KwTimeShort => 2
    case KwLevel => 3
    case KwLevelShort => 4
    case KwTag => 5
    case KwFile => 6
    case KwFileShort => 7
  }

  const KEYWORD_COUNT: nat := 8

  /** The keyword the parser tries in the given turn. */
  function KeywordAt(r: nat): Keyword
    requires r < KEYWORD_COUNT
  {
    if r == 0 then KwMessage
    else if r == 1 then KwTime
    else if r == 2 then KwTimeShort
    else if r == 3 then KwLevel
    else if r == 4 then KwLevelShort
    else if r == 5 then KwTag
    else if r == 6 then KwFile
    else KwFileShort
  }

  /**
   * The keyword a placeholder name selects: the first, in the parser's
   * order, that the name is a prefix of (the empty name selects `message`).
   */
  function MatchKeyword(name: string): Option<Keyword> {
    MatchFrom(name, 0)
  }

  /** The keywords tried from turn `r` on, as the C loop over the keyword table does. */
  function MatchFrom(name: string, r: nat): Option<Keyword>
    requires r <= KEYWORD_COUNT
    decreases KEYWORD_COUNT - r
  {
    if r == KEYWORD_COUNT then None
    else if name <= KeywordName(KeywordAt(r)) then Some(KeywordAt(r))
    else MatchFrom(name, r + 1)
  }

  /** The keyword selected is the first one, in the parser's order, that starts with the name. */
  lemma MatchKeywordIsFirstPrefix(name: string)
    ensures MatchKeyword(name).Some? ==> name <= KeywordName(MatchKeyword(name).value)
    ensures MatchKeyword(name).Some? ==>
              forall k: Keyword :: KeywordRank(k) < KeywordRank(MatchKeyword(name).value) ==> !(name <= KeywordName(k))
    ensures MatchKeyword(name).None? ==> forall k: Keyword :: !(name <= KeywordName(k))
  {
    MatchFromIsFirstPrefix(name, 0);
  }

  lemma {:induction false} MatchFromIsFirstPrefix(name: string, r: nat)
    requires r <= KEYWORD_COUNT
    ensures MatchFrom(name, r).Some? ==>
              && name <= KeywordName(MatchFrom(name, r).value)
              && r <= KeywordRank(MatchFrom(name, r).value)
              && forall k: Keyword :: r <= KeywordRank(k) < KeywordRank(MatchFrom(name, r).value) ==> !(name <= KeywordName(k))
    ensures MatchFrom(name, r).None? ==> forall k: Keyword :: r <= KeywordRank(k) ==> !(name <= KeywordName(k))
    decreases KEYWORD_COUNT - r
  {
    if r < KEYWORD_COUNT && !(name <= KeywordName(KeywordAt(r))) {
      MatchFromIsFirstPrefix(name, r + 1);
      forall k: Keyword | KeywordRank(k) == r
        ensures k == KeywordAt(r)
      {
      }
    }
  }

  /** What a keyword's field prints. */
  function KindOf(k: Keyword): FieldKind {
    match k
    case KwMessage => Message
    case KwTime => Time("%Y-%m-%d %H:%M:%S")
    case KwTimeShort => Time("%H:%M:%S")
    case KwLevel => Level
    case KwLevelShort => LevelShort
    case KwTag => Tag
    case KwFile => File
    case KwFileShort => FileShort
  }

  /** How a keyword's field is coloured: by level, by its own colour, or not at all. */
  function ColorTypeOf(k: Keyword): ColorType {
    match k
    case KwMessage => MessageColor
    case KwLevel | KwLevelShort => LabelColor
    case KwTag | KwFile | KwFileShort => OwnCode
    case KwTime | KwTimeShort => NoColor
  }

  /** The own colour of a tag or file field: cyan (256-colour 30) or bright blue (68). */
  function OwnColorOf(k: Keyword): ColorSpec {
    if k == KwTag then ColorSpec(COLOR_CYAN, 30, COLOR_NONE, COLOR_NONE)
    else ColorSpec(COLOR_BRIGHT_BLUE, 68, COLOR_NONE, COLOR_NONE)
  }

  /** Turns a freshly added field into the keyword's field; padding and trailing text stay. */
  function ConfigureField(f: Field, k: Keyword): (r: Field)
    ensures r.kind == KindOf(k) && r.colorType == ColorTypeOf(k)
    ensures r.colorType == OwnCode ==> r.color == OwnColorOf(k)
    ensures r.startPadding == f.startPadding && r.padEnd == f.padEnd && r.colorCode == f.colorCode
  {
    f.(kind := KindOf(k), colorType := ColorTypeOf(k),
       color := if ColorTypeOf(k) == OwnCode then OwnColorOf(k) else f.color)
  }

  /** How a reused slot's `padEnd` is reset when a field is added. */
  datatype Variant = AsWritten | Corrected

  /**
   * The parser's state: all field slots, how many are in use, and the field
   * that trailing text is copied into (None once no field could be added).
   */
  datatype ParseState = ParseState(fields: seq<Field>, count: nat, current: Option<nat>)

  predicate StateOk(st: ParseState) {
    && |st.fields| == MAX_FIELD_COUNT
    && st.count <= MAX_FIELD_COUNT
    && (st.current.Some? ==> st.current.value < st.count)
  }

  /** A fresh plain-text field in a reused slot. */
  function ResetField(f: Field, v: Variant): (r: Field)
    ensures CText(r.padEnd) == ""
    ensures r.kind == PlainText && r.startPadding == 0 && r.colorType == NoColor
  {
    var padEnd := if v == Corrected then ZeroPadEnd else [NUL] + f.padEnd[1..];
    f.(kind := PlainText, startPadding := 0, padEnd := padEnd, colorType := NoColor)
  }

  /**
   * `okimpllog_addField`: takes the next slot if fewer than ten are in use.
   * The returned state's `current` is the new field, or None when all ten
   * slots are taken.
   */
  function AddField(st: ParseState, v: Variant): (r: ParseState)
    requires StateOk(st)
    ensures StateOk(r)
    ensures r.current.Some? <==> st.count < MAX_FIELD_COUNT
    ensures r.current.Some? ==> r.current.value == st.count && r.count == st.count + 1
    ensures r.current.None? ==> r.fields == st.fields && r.count == st.count
    ensures forall i :: 0 <= i < |st.fields| && i != st.count ==> r.fields[i] == st.fields[i]
  {
    if st.count < MAX_FIELD_COUNT then
      ParseState(st.fields[st.count := ResetField(st.fields[st.count], v)], st.count + 1, Some(st.count))
    else
      ParseState(st.fields, st.count, None)
  }

  /** Replaces the current field. */
  function SetCurrent(st: ParseState, f: Field): (r: ParseState)
    requires StateOk(st) && st.current.Some?
    ensures StateOk(r) && r.current == st.current && r.count == st.count
  {
    st.(fields := st.fields[st.current.value := f])
  }

  /**
   * The handling of one `{name}`: a padding column when the name starts with
   * a digit, a keyword field when the name is a prefix of a keyword, and
   * nothing (the current field stays) otherwise. A name that would add a
   * field when all ten slots are taken leaves no field current. The padding
   * is read as on an LP64 platform, where `long` has 64 bits.
   */
  function ApplyName(st: ParseState, name: string, v: Variant): (r: ParseState)
    requires StateOk(st)
    ensures StateOk(r)
    ensures var digits := |name| > 0 && IsDigit(name[0]);
            var adds := if digits then StrtolToInt(name, false) > 0 else MatchKeyword(name).Some?;
            && (!adds ==> r == st)
            && (adds && st.count == MAX_FIELD_COUNT ==> r.count == st.count && r.current.None? && r.fields == st.fields)
            && (adds && st.count < MAX_FIELD_COUNT ==>
                  && r.count == st.count + 1 && r.current == Some(st.count)
                  && r.fields[st.count].kind == (if digits then PlainText else KindOf(MatchKeyword(name).value))
                  && r.fields[st.count].startPadding == (if digits then StrtolToInt(name, false) else 0)
                  && CText(r.fields[st.count].padEnd) == ""
                  && (forall i :: 0 <= i < |st.fields| && i != st.count ==> r.fields[i] == st.fields[i]))
  {
    if |name| > 0 && IsDigit(name[0]) then ApplyPadding(st, StrtolToInt(name, false), v)
    else
      match MatchKeyword(name)
      case None => st
      case Some(k) => ApplyKeyword(st, k, v)
  }

  /** A padding column: a positive width adds a plain field that starts with that many spaces. */
  function ApplyPadding(st: ParseState, padding: int, v: Variant): (r: ParseState)
    requires StateOk(st)
    ensures StateOk(r)
    ensures padding <= 0 ==> r == st
    ensures padding > 0 ==> (r.current.Some? <==> st.count < MAX_FIELD_COUNT)
    ensures padding > 0 && r.current.Some? ==>
              r.count == st.count + 1 && r.fields[st.count].startPadding == padding
              && r.fields[st.count].kind == PlainText
  {
    if padding <= 0 then st
    else
      var s := AddField(st, v);
      if s.current.None? then s
      else SetCurrent(s, s.fields[s.current.value].(startPadding := padding))
  }

  /** A keyword placeholder: adds the keyword's field, if a slot is free. */
  function ApplyKeyword(st: ParseState, k: Keyword, v: Variant): (r: ParseState)
    requires StateOk(st)
    ensures StateOk(r)
    ensures r.current.Some? <==> st.count < MAX_FIELD_COUNT
    ensures r.current.Some? ==>
              r.count == st.count + 1 && r.current.value == st.count
              && r.fields[st.count].kind == KindOf(k) && r.fields[st.count].colorType == ColorTypeOf(k)
  {
    var s := AddField(st, v);
    if s.current.None? then s
    else SetCurrent(s, ConfigureField(s.fields[s.current.value], k))
  }

  /** Index of the first `}` at or after `from`, or the end of the text. */
  function CloseBrace(t: string, from: nat): (k: nat)
    requires from <= |t|
    ensures from <= k <= |t|
    ensures forall j :: from <= j < k ==> t[j] != '}'
    ensures k < |t| ==> t[k] == '}'
    decreases |t| - from
  {
    if from == |t| || t[from] == '}' then from else CloseBrace(t, from + 1)
  }

  /** How many characters of plain text from `pos` go into a `padEnd` of `room` free bytes. */
  function PadLength(t: string, pos: nat, room: nat): (n: nat)
    requires pos <= |t|
    ensures n <= room && pos + n <= |t|
    ensures forall j :: pos <= j < pos + n ==> t[j] != '{'
    ensures n == room || pos + n == |t| || t[pos + n] == '{'
    decreases room
  {
    if room == 0 || pos == |t| || t[pos] == '{' then 0 else 1 + PadLength(t, pos + 1, room - 1)
  }

  /** Writes `chunk` over the start of a `padEnd` array; later bytes stay. */
  function Overlay(raw: seq<char>, chunk: string): (r: seq<char>)
    requires |chunk| <= |raw|
    ensures |r| == |raw| && r[..|chunk|] == chunk && r[|chunk|..] == raw[|chunk|..]
    ensures |chunk| < |raw| ==> r[|raw| - 1] == raw[|raw| - 1]
  {
    chunk + raw[|chunk|..]
  }

  /**
   * Copies the plain text at `pos` (at most five characters, up to the next
   * `{`) into the current field's `padEnd`; returns the state and the
   * position after the copied text.
   */
  function CopyPad(t: string, pos: nat, st: ParseState): (r: (ParseState, nat))
    requires StateOk(st) && st.current.Some? && pos <= |t|
    ensures StateOk(r.0) && r.0.count == st.count && r.0.current == st.current
    ensures pos <= r.1 <= |t|
    ensures pos < |t| && t[pos] != '{' ==> pos < r.1
    // The copied text: at most five characters, none of them `{`, stopping
    // only at the limit, the end or a `{`.
    ensures r.1 - pos < PAD_END_SIZE
    ensures forall j :: pos <= j < r.1 ==> t[j] != '{'
    ensures r.1 - pos == PAD_END_SIZE - 1 || r.1 == |t| || t[r.1] == '{'
    // It is written over the start of the current field's `padEnd`; nothing else changes.
    ensures r.0.fields[st.current.value] ==
              st.fields[st.current.value].(padEnd := Overlay(st.fields[st.current.value].padEnd, t[pos..r.1]))
    ensures forall i :: 0 <= i < |st.fields| && i != st.current.value ==> r.0.fields[i] == st.fields[i]
  {
    var f := st.fields[st.current.value];
    var n := PadLength(t, pos, PAD_END_SIZE - 1);
    (SetCurrent(st, f.(padEnd := Overlay(f.padEnd, t[pos..pos + n]))), pos + n)
  }

  /**
   * The format the logger installs when the build keeps the tag and the file
   * name: `{time_short} {level_short} {tag} {file_short} {message}`, written
   * here placeholder by placeholder.
   */
  const DEFAULT_FORMAT: string := "{time_short} " + "{level_short} " + "{tag} " + "{file_short} " + "{message}"

  /** The format of a release build, `{time_short} {level_short} {message}`. */
  const DEFAULT_FORMAT_STRIPPED: string := "{time_short} " + "{level_short} " + "{message}"

  /** The end of parsing: the fields, or a read past the format's terminator. */
  datatype ParseResult = Parsed(st: ParseState) | Overrun

  /** Where one pass of the loop leaves the parser. */
  datatype Step = Next(pos: nat, st: ParseState) | Overran

  /**
   * One pass of the main loop of `oklog_setFormat` at position `i`: a plain
   * character starts a plain-text field, a `{` a placeholder. A position equal
   * to `|t|` is the terminator.
   */
  function ParseStep(t: string, i: nat, st: ParseState, v: Variant): (r: Step)
    requires i < |t| && StateOk(st)
    ensures r.Next? ==> i < r.pos <= |t| && StateOk(r.st) && r.st.count >= st.count
  {
    if t[i] != '{' then PlainStep(t, i, st, v)
    else
      var k := CloseBrace(t, i + 1);
      if k == |t| then
        // An unterminated placeholder: the scan stops at the terminator.
        if st.current.Some? then Next(|t|, st) else Overran
      else AfterPlaceholder(t, k, ApplyName(st, t[i + 1..k], v))
  }

  /** A plain character: a new plain-text field whose `padEnd` starts with that character. */
  function PlainStep(t: string, i: nat, st: ParseState, v: Variant): (r: Step)
    requires i < |t| && t[i] != '{' && StateOk(st)
    ensures r.Next? && i < r.pos <= |t| && StateOk(r.st) && r.st.count >= st.count
  {
    var s := AddField(st, v);
    if s.current.Some? then
      var copied := CopyPad(t, i, s);
      Next(copied.1, copied.0)
    else Next(i + 1, s)
  }

  /**
   * After the `}` at position `k`: the text that follows goes into the
   * current field. When no field is current, the C loop steps one character
   * past the `}`; stepping past the terminator that way is `Overran`.
   */
  function AfterPlaceholder(t: string, k: nat, s: ParseState): (r: Step)
    requires k < |t| && StateOk(s)
    ensures r.Next? ==> k < r.pos <= |t| && StateOk(r.st) && r.st.count == s.count
  {
    if s.current.Some? then
      var copied := CopyPad(t, k + 1, s);
      Next(copied.1, copied.0)
    else if k + 1 == |t| then Overran
    else Next(k + 2, s)
  }

  /** The main loop of `oklog_setFormat` from position `i`. */
  function Parse(t: string, i: nat, st: ParseState, v: Variant): (r: ParseResult)
    requires i <= |t| && StateOk(st)
    ensures r.Parsed? ==> StateOk(r.st) && r.st.count >= st.count
    decreases |t| - i
  {
    if i == |t| then Parsed(st)
    else
      match ParseStep(t, i, st, v)
      case Overran => Overrun
      case Next(j, s) => Parse(t, j, s, v)
  }

  /**
   * `oklog_setFormat` after initialisation: parses `fmt` into the context's
   * field slots and refreshes the field colour codes. None when the parser
   * would read past the end of the format.
   */
  function ApplyFormat(c: LogContext, fmt: string, v: Variant): (r: Option<LogContext>)
    requires Shaped(c) && IsCString(fmt)
    ensures r.Some? ==> Shaped(r.value) && FieldCachesFresh(r.value)
    ensures r.Some? ==> r.value.fieldCount <= MAX_FIELD_COUNT
    ensures r.Some? ==> r.value.colorMode == c.colorMode && r.value.labelColorCode == c.labelColorCode
                        && r.value.messageColorCode == c.messageColorCode
                        && r.value.labelColors == c.labelColors && r.value.messageColors == c.messageColors
  {
    match Parse(fmt, 0, ParseState(c.fields, 0, None), v)
    case Overrun => None
    case Parsed(st) => Some(UpdateFieldColorCache(c.(fields := st.fields, fieldCount := st.count)))
  }
}
