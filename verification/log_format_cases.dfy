/**
 * The two formats the logger installs on its own, and what re-formatting
 * leaves in a reused field slot.
 */
module LogFormatCases {
  import opened Base
  import opened Decimal
  import opened LogTypes
  import opened LogFormat
  import opened LogFormatFacts
  import opened LogColor

  /** The fields of `DEFAULT_FORMAT`: four keywords each followed by a space, then the message. */
  function DefaultSpecs(): seq<FieldSpec> {
    [FieldSpec(KwTimeShort, " "), FieldSpec(KwLevelShort, " "), FieldSpec(KwTag, " "),
     FieldSpec(KwFileShort, " "), FieldSpec(KwMessage, "")]
  }

  /** The fields of `DEFAULT_FORMAT_STRIPPED`. */
  function StrippedSpecs(): seq<FieldSpec> {
    [FieldSpec(KwTimeShort, " "), FieldSpec(KwLevelShort, " "), FieldSpec(KwMessage, "")]
  }

  /** The text of one segment prepended to the text of the rest. */
  lemma FormatCons(sp: FieldSpec, rest: seq<FieldSpec>, text: string)
    requires "{" + KeywordName(sp.kw) + "}" + sp.trailer == text
    ensures FormatOf([sp] + rest) == text + FormatOf(rest)
  {
    assert ([sp] + rest)[1..] == rest;
  }

  lemma SegmentTexts()
    ensures "{" + KeywordName(KwMessage) + "}" + "" == "{message}"
    ensures "{" + KeywordName(KwFileShort) + "}" + " " == "{file_short} "
    ensures "{" + KeywordName(KwTag) + "}" + " " == "{tag} "
    ensures "{" + KeywordName(KwLevelShort) + "}" + " " == "{level_short} "
    ensures "{" + KeywordName(KwTimeShort) + "}" + " " == "{time_short} "
  {
  }

  /** `DEFAULT_FORMAT` is the format of `DefaultSpecs`. */
  lemma DefaultFormatIsSegments(d: seq<FieldSpec>)
    requires d == DefaultSpecs()
    ensures FormatOf(d) == DEFAULT_FORMAT
  {
    SegmentTexts();
    var s5: seq<FieldSpec> := [];
    var s4 := [FieldSpec(KwMessage, "")] + s5;
    FormatCons(FieldSpec(KwMessage, ""), s5, "{message}");
    assert FormatOf(s4) == "{message}" + [];
    var s3 := [FieldSpec(KwFileShort, " ")] + s4;
    FormatCons(FieldSpec(KwFileShort, " "), s4, "{file_short} ");
    var s2 := [FieldSpec(KwTag, " ")] + s3;
    FormatCons(FieldSpec(KwTag, " "), s3, "{tag} ");
    var s1 := [FieldSpec(KwLevelShort, " ")] + s2;
    FormatCons(FieldSpec(KwLevelShort, " "), s2, "{level_short} ");
    var s0 := [FieldSpec(KwTimeShort, " ")] + s1;
    FormatCons(FieldSpec(KwTimeShort, " "), s1, "{time_short} ");
    assert d == s0;
  }

  /** `DEFAULT_FORMAT_STRIPPED` is the format of `StrippedSpecs`. */
  lemma StrippedFormatIsSegments(r: seq<FieldSpec>)
    requires r == StrippedSpecs()
    ensures FormatOf(r) == DEFAULT_FORMAT_STRIPPED
  {
    SegmentTexts();
    var s5: seq<FieldSpec> := [];
    var s4 := [FieldSpec(KwMessage, "")] + s5;
    FormatCons(FieldSpec(KwMessage, ""), s5, "{message}");
    assert FormatOf(s4) == "{message}" + [];
    var t1 := [FieldSpec(KwLevelShort, " ")] + s4;
    FormatCons(FieldSpec(KwLevelShort, " "), s4, "{level_short} ");
    var t0 := [FieldSpec(KwTimeShort, " ")] + t1;
    FormatCons(FieldSpec(KwTimeShort, " "), t1, "{time_short} ");
    assert r == t0;
  }

  /** The fields of the format a build installs: the full default in debug builds, the stripped one otherwise. */
  function DefaultSpecsFor(debugBuild: bool): (specs: seq<FieldSpec>)
    ensures |specs| == if debugBuild then 5 else 3
    ensures forall m :: 0 <= m < |specs| ==> TrailerOk(specs[m].trailer)
  {
    if debugBuild then DefaultSpecs() else StrippedSpecs()
  }

  /** The format a build installs, which is the format of its fields. */
  function DefaultFormatFor(debugBuild: bool): (fmt: string)
    ensures fmt == FormatOf(DefaultSpecsFor(debugBuild))
    ensures IsCString(fmt)
  {
    var d, r := DefaultSpecs(), StrippedSpecs();
    DefaultFormatIsSegments(d);
    StrippedFormatIsSegments(r);
    FormatHasNoNul(DefaultSpecsFor(debugBuild));
    if debugBuild then DEFAULT_FORMAT else DEFAULT_FORMAT_STRIPPED
  }

  /**
   * The default format, in any context, gives five fields in order: the short
   * time, the short level, the tag and the short file name, each printing a
   * space after it, then the message. The stripped one gives the short time,
   * the short level and the message.
   */
  lemma {:induction false} DefaultFormatField(c: LogContext, debugBuild: bool, m: nat)
    requires Shaped(c) && m < |DefaultSpecsFor(debugBuild)|
    ensures ApplyFormat(c, DefaultFormatFor(debugBuild), Corrected).Some?
    ensures ApplyFormat(c, DefaultFormatFor(debugBuild), Corrected).value.fieldCount == |DefaultSpecsFor(debugBuild)|
    ensures FieldMatches(ApplyFormat(c, DefaultFormatFor(debugBuild), Corrected).value.fields[m], DefaultSpecsFor(debugBuild)[m])
  {
    FormatRoundTrip(c, DefaultSpecsFor(debugBuild), m);
  }

  /**
   * `oklog_setFormat` as written on the default format: in any context it
   * completes with one field per keyword, and wherever the slot held no old
   * trailer bytes, as every slot of the static context does, the field is the
   * one `DefaultFormatField` describes.
   */
  lemma {:induction false} DefaultFormatAsWritten(c: LogContext, debugBuild: bool, m: nat)
    requires Shaped(c) && m < |DefaultSpecsFor(debugBuild)|
    ensures ApplyFormat(c, DefaultFormatFor(debugBuild), AsWritten).Some?
    ensures ApplyFormat(c, DefaultFormatFor(debugBuild), AsWritten).value.fieldCount == |DefaultSpecsFor(debugBuild)|
    ensures c.fields[m].padEnd == ZeroPadEnd ==>
      FieldMatches(ApplyFormat(c, DefaultFormatFor(debugBuild), AsWritten).value.fields[m], DefaultSpecsFor(debugBuild)[m])
  {
    AsWrittenRoundTrip(c, DefaultSpecsFor(debugBuild), m);
  }

  /** A tag followed by a four-character arrow, then the message. */
  function ArrowSpecs(): seq<FieldSpec> {
    [FieldSpec(KwTag, " -> "), FieldSpec(KwMessage, "")]
  }

  /** A tag followed by one space, then the message. */
  function SpacedSpecs(): seq<FieldSpec> {
    [FieldSpec(KwTag, " "), FieldSpec(KwMessage, "")]
  }

  /**
   * As written, `okimpllog_addField` clears only the first byte of a reused
   * `padEnd`. Formatting with `{tag} -> {message}` and then with
   * `{tag} {message}` leaves the tag printing ` -> ` instead of one space:
   * the new space lands on the cleared byte and the old arrow's tail
   * survives behind it.
   */
  lemma {:induction false} StalePadEndAsWritten(c: LogContext, a: seq<FieldSpec>, b: seq<FieldSpec>)
      returns (c1: LogContext, c2: LogContext)
    requires Shaped(c) && c.fields[0].padEnd == ZeroPadEnd
    requires a == ArrowSpecs() && b == SpacedSpecs()
    ensures IsCString(FormatOf(a)) && IsCString(FormatOf(b))
    ensures ApplyFormat(c, FormatOf(a), AsWritten) == Some(c1) && Shaped(c1)
    ensures ApplyFormat(c1, FormatOf(b), AsWritten) == Some(c2)
    ensures CText(c2.fields[0].padEnd) == " -> "
  {
    var p := ArrowBytes();
    c1, c2 := AsWrittenTwoFormats(c, a, b);
  }

  /** As written, two formats in a row leave the first field with the second trailer over the first's bytes past the first. */
  lemma {:induction false} AsWrittenTwoFormats(c: LogContext, a: seq<FieldSpec>, b: seq<FieldSpec>)
      returns (c1: LogContext, c2: LogContext)
    requires Shaped(c) && 0 < |a| <= MAX_FIELD_COUNT && 0 < |b| <= MAX_FIELD_COUNT
    requires forall m :: 0 <= m < |a| ==> TrailerOk(a[m].trailer)
    requires forall m :: 0 <= m < |b| ==> TrailerOk(b[m].trailer)
    ensures IsCString(FormatOf(a)) && IsCString(FormatOf(b))
    ensures ApplyFormat(c, FormatOf(a), AsWritten) == Some(c1) && Shaped(c1)
    ensures ApplyFormat(c1, FormatOf(b), AsWritten) == Some(c2)
    ensures TrailerOk(a[0].trailer) && TrailerOk(b[0].trailer)
    ensures c2.fields[0].padEnd
            == Overlay([NUL] + Overlay([NUL] + c.fields[0].padEnd[1..], a[0].trailer)[1..], b[0].trailer)
  {
    assert TrailerOk(a[0].trailer) && TrailerOk(b[0].trailer);
    c1 := AsWrittenFirstField(c, a, Overlay([NUL] + c.fields[0].padEnd[1..], a[0].trailer));
    c2 := AsWrittenFirstField(c1, b, Overlay([NUL] + c1.fields[0].padEnd[1..], b[0].trailer));
  }

  /** As written, the first field's `padEnd` after a format is its trailer over the old bytes past the first. */
  lemma {:induction false} AsWrittenFirstField(c: LogContext, specs: seq<FieldSpec>, q: seq<char>) returns (r: LogContext)
    requires Shaped(c) && 0 < |specs| <= MAX_FIELD_COUNT
    requires forall m :: 0 <= m < |specs| ==> TrailerOk(specs[m].trailer)
    requires TrailerOk(specs[0].trailer) && q == Overlay([NUL] + c.fields[0].padEnd[1..], specs[0].trailer)
    ensures IsCString(FormatOf(specs))
    ensures ApplyFormat(c, FormatOf(specs), AsWritten) == Some(r) && Shaped(r)
    ensures r.fields[0].padEnd == q
  {
    FormatHasNoNul(specs);
    FormatFieldAt(c, specs, AsWritten, 0);
    r := ApplyFormat(c, FormatOf(specs), AsWritten).value;
    AsWrittenOverlay(c.fields[0], specs[0], r.fields[0]);
  }

  /** What the reused slot holds after `{tag} -> `: the arrow, then the cleared tail. */
  function ArrowBytes(): (p: PadEnd)
    ensures Overlay([NUL] + ZeroPadEnd[1..], " -> ") == p
    ensures Overlay([NUL] + p[1..], " ") == p
    ensures CText(p) == " -> "
  {
    var p: seq<char> := [' ', '-', '>', ' ', NUL, NUL];
    assert CText(p[4..]) == "";
    p
  }

  /** As written, a segment's field is its trailer over the old `padEnd` with only byte 0 cleared. */
  lemma AsWrittenOverlay(prev: Field, sp: FieldSpec, f: Field)
    requires TrailerOk(sp.trailer)
    requires f == SegmentField(prev, sp, AsWritten).(colorCode := f.colorCode)
    ensures f.padEnd == Overlay([NUL] + prev.padEnd[1..], sp.trailer)
  {
  }

  lemma StaleFormats(a: seq<FieldSpec>, b: seq<FieldSpec>)
    requires a == ArrowSpecs() && b == SpacedSpecs()
    ensures FormatOf(a) == "{tag} -> {message}" && FormatOf(b) == "{tag} {message}"
  {
    SegmentTexts();
    var s1: seq<FieldSpec> := [FieldSpec(KwMessage, "")];
    FormatCons(FieldSpec(KwMessage, ""), [], "{message}");
    assert s1 == [FieldSpec(KwMessage, "")] + [];
    assert FormatOf(s1) == "{message}";
    assert "{" + KeywordName(KwTag) + "}" + " -> " == "{tag} -> ";
    FormatCons(FieldSpec(KwTag, " -> "), s1, "{tag} -> ");
    assert a == [FieldSpec(KwTag, " -> ")] + s1;
    FormatCons(FieldSpec(KwTag, " "), s1, "{tag} ");
    assert b == [FieldSpec(KwTag, " ")] + s1;
  }

  /** With the whole `padEnd` cleared, the second format's tag prints its own space. */
  lemma {:induction false} StalePadEndCorrected(c: LogContext, a: seq<FieldSpec>, b: seq<FieldSpec>)
    requires Shaped(c)
    requires a == ArrowSpecs() && b == SpacedSpecs()
    ensures IsCString(FormatOf(a)) && IsCString(FormatOf(b))
    ensures ApplyFormat(c, FormatOf(a), Corrected).Some?
    ensures ApplyFormat(ApplyFormat(c, FormatOf(a), Corrected).value, FormatOf(b), Corrected).Some?
    ensures CText(ApplyFormat(ApplyFormat(c, FormatOf(a), Corrected).value, FormatOf(b), Corrected).value.fields[0].padEnd)
            == " "
  {
    FormatRoundTrip(c, a, 0);
    var c1 := ApplyFormat(c, FormatOf(a), Corrected).value;
    FormatRoundTrip(c1, b, 0);
  }

  /**
   * A format that is one placeholder whose name adds no field (a width that
   * `strtol` reads as zero or less, or a name that is no keyword's prefix)
   * makes the loop step past the terminator: no field is current after the
   * `}`, so the scan skips the byte after it.
   */
  lemma {:induction false} LonePlaceholderOverruns(c: LogContext, name: string, v: Variant)
    requires Shaped(c) && IsCString(name) && forall j :: 0 <= j < |name| ==> name[j] != '}'
    requires if |name| > 0 && IsDigit(name[0]) then StrtolToInt(name, false) <= 0 else MatchKeyword(name).None?
    ensures IsCString("{" + name + "}")
    ensures ApplyFormat(c, "{" + name + "}", v).None?
  {
    var t := "{" + name + "}";
    var st := ParseState(c.fields, 0, None);
    LonePlaceholder(t, name);
    assert ApplyName(st, t[1..|t| - 1], v) == st;
    assert ParseStep(t, 0, st, v) == Overran;
  }

  /** A lone placeholder whose name starts with a digit and reads as a positive width is one padding field. */
  lemma {:induction false} LonePaddingColumn(c: LogContext, name: string, v: Variant) returns (r: LogContext)
    requires Shaped(c) && IsCString(name) && forall j :: 0 <= j < |name| ==> name[j] != '}'
    requires |name| > 0 && IsDigit(name[0]) && StrtolToInt(name, false) > 0
    ensures IsCString("{" + name + "}")
    ensures ApplyFormat(c, "{" + name + "}", v) == Some(r)
    ensures r.fieldCount == 1 && r.fields[0].kind == PlainText && r.fields[0].startPadding == StrtolToInt(name, false)
  {
    var t := "{" + name + "}";
    LonePlaceholder(t, name);
    var s := LonePaddingParse(t, name, ParseState(c.fields, 0, None), v);
    r := UpdateFieldColorCache(c.(fields := s.fields, fieldCount := s.count));
  }

  /** The parser's side of `LonePaddingColumn`: the width becomes the next slot, with nothing after it. */
  lemma {:induction false} LonePaddingParse(t: string, name: string, st: ParseState, v: Variant) returns (s: ParseState)
    requires StateOk(st) && st.count < MAX_FIELD_COUNT
    requires IsCString(t) && |t| >= 2 && t[0] == '{' && CloseBrace(t, 1) == |t| - 1 && t[1..|t| - 1] == name
    requires |name| > 0 && IsDigit(name[0]) && StrtolToInt(name, false) > 0
    ensures Parse(t, 0, st, v) == Parsed(s)
    ensures s.count == st.count + 1
    ensures s.fields[st.count].kind == PlainText && s.fields[st.count].startPadding == StrtolToInt(name, false)
  {
    var a := ApplyName(st, name, v);
    s := CopyPad(t, |t|, a).0;
    assert ParseStep(t, 0, st, v) == Next(|t|, s);
  }

  /** Where the braces of a lone placeholder lie. */
  lemma LonePlaceholder(t: string, name: string)
    requires IsCString(name) && forall j :: 0 <= j < |name| ==> name[j] != '}'
    requires t == "{" + name + "}"
    ensures IsCString(t)
    ensures t[0] == '{' && CloseBrace(t, 1) == |t| - 1 && t[1..|t| - 1] == name
  {
    assert t[1..|t| - 1] == name;
    CloseBraceAt(t, 1, |t| - 1);
  }
}
