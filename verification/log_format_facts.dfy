/**
 * What the format parser guarantees: keyword names and their abbreviations,
 * and that a format built from keyword placeholders and short separators
 * parses back into exactly those fields.
 */
module LogFormatFacts {
  import opened Base
  import opened Decimal
  import opened LogTypes
  import opened LogFormat

  /** Each keyword's own name selects that keyword, despite the prefix matching. */
  lemma ExactNamesSelectTheirKeyword(k: Keyword)
    ensures MatchKeyword(KeywordName(k)) == Some(k)
  {
    var n := KeywordName(k);
    MatchKeywordIsFirstPrefix(n);
    forall k': Keyword | KeywordRank(k') < KeywordRank(k)
      ensures !(n <= KeywordName(k'))
    {
      NamesDiffer(k, k');
    }
  }

  /** No keyword's name is a prefix of another's that the parser tries earlier. */
  lemma NamesDiffer(k: Keyword, k': Keyword)
    requires KeywordRank(k') < KeywordRank(k)
    ensures !(KeywordName(k) <= KeywordName(k'))
  {
    var n := KeywordName(k);
    var n' := KeywordName(k');
    if |n| <= |n'| {
      var q := if k == KwTag then 1 else 0;
      assert n[q] != n'[q];
    }
  }

  /**
   * Because only the name's own bytes are compared, an abbreviation selects
   * the first keyword it starts: `{}` is the message, `{t}` the long time
   * (not the tag), `{f}` the full file name; `{tags}` selects nothing.
   */
  lemma AbbreviatedNames()
    ensures MatchKeyword("") == Some(KwMessage)
    ensures MatchKeyword("t") == Some(KwTime)
    ensures MatchKeyword("ta") == Some(KwTag)
    ensures MatchKeyword("f") == Some(KwFile)
    ensures MatchKeyword("tags") == None
  {
    DifferAt("t", "message", 0);
    DifferAt("ta", "message", 0);
    DifferAt("ta", "time", 1);
    DifferAt("ta", "time_short", 1);
    DifferAt("ta", "level", 0);
    DifferAt("ta", "level_short", 0);
    var n := "tags";
    DifferAt(n, "message", 0);
    DifferAt(n, "time", 1);
    DifferAt(n, "time_short", 1);
    DifferAt(n, "level", 0);
    DifferAt(n, "level_short", 0);
    DifferAt(n, "file", 0);
    DifferAt(n, "file_short", 0);
  }

  lemma DifferAt(a: string, b: string, q: nat)
    requires q < |a| && q < |b| && a[q] != b[q]
    ensures !(a <= b)
  {
  }

  /** Text that fits in a field's `padEnd` and does not start a placeholder. */
  predicate TrailerOk(s: string) {
    |s| < PAD_END_SIZE && IsCString(s) && forall j :: 0 <= j < |s| ==> s[j] != '{'
  }

  /** One keyword placeholder with the text that follows it. */
  datatype FieldSpec = FieldSpec(kw: Keyword, trailer: string)

  /** The format that describes a list of keyword fields. */
  function FormatOf(specs: seq<FieldSpec>): string {
    if specs == [] then ""
    else "{" + KeywordName(specs[0].kw) + "}" + specs[0].trailer + FormatOf(specs[1..])
  }

  /** What a field parsed from a `FieldSpec` looks like when printed. */
  predicate FieldMatches(f: Field, sp: FieldSpec) {
    && f.kind == KindOf(sp.kw)
    && f.colorType == ColorTypeOf(sp.kw)
    && (f.colorType == OwnCode ==> f.color == OwnColorOf(sp.kw))
    && f.startPadding == 0
    && CText(f.padEnd) == sp.trailer
  }

  lemma {:induction false} CloseBraceAt(t: string, from: nat, k: nat)
    requires from <= k < |t| && t[k] == '}'
    requires forall j :: from <= j < k ==> t[j] != '}'
    ensures CloseBrace(t, from) == k
    decreases k - from
  {
    if from < k {
      CloseBraceAt(t, from + 1, k);
    }
  }

  lemma {:induction false} PadLengthAt(t: string, pos: nat, n: nat, room: nat)
    requires pos + n <= |t| && n <= room
    requires forall j :: pos <= j < pos + n ==> t[j] != '{'
    requires n == room || pos + n == |t| || t[pos + n] == '{'
    ensures PadLength(t, pos, room) == n
    decreases n
  {
    if n > 0 {
      PadLengthAt(t, pos + 1, n - 1, room - 1);
    }
  }

  /** A short text written over a cleared `padEnd` is exactly what it then holds. */
  lemma {:induction false} OverlayOnCleared(raw: seq<char>, s: string)
    requires |s| < |raw| && IsCString(s)
    requires forall j :: |s| <= j < |raw| ==> raw[j] == NUL
    ensures CText(Overlay(raw, s)) == s
    decreases |s|
  {
    if s != [] {
      var r := Overlay(raw, s);
      assert r[1..] == Overlay(raw[1..], s[1..]);
      OverlayOnCleared(raw[1..], s[1..]);
    }
  }

  /**
   * A short text written over any `padEnd` is followed, in the C string the
   * array then holds, by the C string of the old bytes after it.
   */
  lemma {:induction false} OverlayText(raw: seq<char>, s: string)
    requires |s| < |raw| && IsCString(s)
    ensures CText(Overlay(raw, s)) == s + CText(raw[|s|..])
    decreases |s|
  {
    if s != [] {
      var r := Overlay(raw, s);
      assert r[1..] == Overlay(raw[1..], s[1..]);
      assert raw[1..][|s| - 1..] == raw[|s|..];
      OverlayText(raw[1..], s[1..]);
    }
  }

  /**
   * The field a keyword placeholder and its trailer make in a slot that held
   * `prev`: the keyword's field, printing `trailer` written over the reset
   * `padEnd`.
   */
  function SegmentField(prev: Field, sp: FieldSpec, v: Variant): (f: Field)
    requires TrailerOk(sp.trailer)
    ensures f.kind == KindOf(sp.kw) && f.colorType == ColorTypeOf(sp.kw) && f.startPadding == 0
    ensures f.colorType == OwnCode ==> f.color == OwnColorOf(sp.kw)
  {
    var g := ConfigureField(ResetField(prev, v), sp.kw);
    g.(padEnd := Overlay(g.padEnd, sp.trailer))
  }

  /** The trailer followed by the C string of the old bytes after it; nothing for an empty trailer. */
  function StaleTrailer(before: PadEnd, trailer: string): string
    requires |trailer| < PAD_END_SIZE
  {
    if trailer == [] then "" else trailer + CText(before[|trailer|..])
  }

  /**
   * With the reset as written, a segment's field prints nothing after its
   * keyword when the trailer is empty, and otherwise the trailer followed by
   * the old `padEnd` bytes it did not cover, up to their first NUL.
   */
  lemma {:induction false} AsWrittenFieldText(prev: Field, sp: FieldSpec)
    requires TrailerOk(sp.trailer)
    ensures CText(SegmentField(prev, sp, AsWritten).padEnd) == StaleTrailer(prev.padEnd, sp.trailer)
  {
    var raw := ResetField(prev, AsWritten).padEnd;
    OverlayText(raw, sp.trailer);
    if sp.trailer != [] {
      assert raw[|sp.trailer|..] == prev.padEnd[|sp.trailer|..];
    }
  }

  /**
   * On a slot whose `padEnd` holds no old bytes the two resets agree, so the
   * reset as written leaves exactly the trailer there.
   */
  lemma {:induction false} ClearedSlotResetsAgree(prev: Field, sp: FieldSpec)
    requires TrailerOk(sp.trailer) && prev.padEnd == ZeroPadEnd
    ensures SegmentField(prev, sp, AsWritten) == SegmentField(prev, sp, Corrected)
    ensures CText(SegmentField(prev, sp, AsWritten).padEnd) == sp.trailer
  {
    assert [NUL] + prev.padEnd[1..] == ZeroPadEnd;
    OverlayOnCleared(ZeroPadEnd, sp.trailer);
  }

  /** The state after one keyword placeholder and its trailing text. */
  function AfterSegment(st: ParseState, sp: FieldSpec, v: Variant): (r: ParseState)
    requires StateOk(st) && st.count < MAX_FIELD_COUNT && TrailerOk(sp.trailer)
    ensures StateOk(r) && r.count == st.count + 1
  {
    ParseState(st.fields[st.count := SegmentField(st.fields[st.count], sp, v)], st.count + 1, Some(st.count))
  }

  /** Where the pieces of `{name}trailer` + rest lie in `t`: the name ends at `k`, the trailer at `j`. */
  lemma {:induction false} SegmentLayout(t: string, i: nat, name: string, trailer: string, rest: string, k: nat, j: nat)
    requires i <= |t| && t[i..] == "{" + name + "}" + trailer + rest
    requires k == i + 1 + |name| && j == k + 1 + |trailer|
    ensures j <= |t|
    ensures t[i] == '{' && t[k] == '}'
    ensures t[i + 1..k] == name
    ensures t[k + 1..j] == trailer
    ensures t[j..] == rest
  {
    var u := t[i..];
    SegmentPieces(name, trailer, rest);
    SliceOfSuffix(t, i, 1, k - i);
    SliceOfSuffix(t, i, k + 1 - i, j - i);
    assert t[i] == u[0];
    assert t[k] == u[k - i];
    assert t[j..] == u[j - i..];
  }

  /** Where the pieces of one segment lie in its text. */
  lemma SegmentPieces(name: string, trailer: string, rest: string)
    ensures var u := "{" + name + "}" + trailer + rest;
      && var k := 1 + |name|;
      && var j := k + 1 + |trailer|;
      && |u| == j + |rest|
      && u[0] == '{' && u[k] == '}'
      && u[1..k] == name && u[k + 1..j] == trailer && u[j..] == rest
  {
  }

  /** A slice of a suffix is a slice of the whole. */
  lemma SliceOfSuffix(t: string, i: nat, a: nat, b: nat)
    requires i <= |t| && a <= b <= |t| - i
    ensures t[i..][a..b] == t[i + a..i + b]
  {
  }

  /** The placeholder of `sp`'s keyword at `i`, closed at `k`, with its trailer up to `j`, makes one field. */
  lemma {:induction false} SegmentStep(t: string, i: nat, st: ParseState, sp: FieldSpec, v: Variant, k: nat, j: nat)
    requires StateOk(st) && st.count < MAX_FIELD_COUNT && TrailerOk(sp.trailer)
    requires k == i + 1 + |KeywordName(sp.kw)| && j == k + 1 + |sp.trailer| && j <= |t|
    requires t[i] == '{' && t[k] == '}' && t[i + 1..k] == KeywordName(sp.kw)
    requires t[k + 1..j] == sp.trailer
    requires j == |t| || t[j] == '{'
    ensures ParseStep(t, i, st, v) == Next(j, AfterSegment(st, sp, v))
  {
    KeywordPlaceholder(t, i, st, sp.kw, v, k);
    TrailerStep(t, k, st, sp, v, j);
    PlaceholderStep(t, i, st, v, k);
  }

  /** A keyword's own placeholder closes where its name ends and selects that keyword. */
  lemma {:induction false} KeywordPlaceholder(t: string, i: nat, st: ParseState, kw: Keyword, v: Variant, k: nat)
    requires StateOk(st)
    requires k == i + 1 + |KeywordName(kw)| && k < |t| && t[k] == '}'
    requires t[i + 1..k] == KeywordName(kw)
    ensures CloseBrace(t, i + 1) == k
    ensures ApplyName(st, t[i + 1..k], v) == ApplyKeyword(st, kw, v)
  {
    forall q | i + 1 <= q < k
      ensures t[q] != '}'
    {
      assert t[q] == t[i + 1..k][q - i - 1];
      KeywordNameHasNoBrace(kw, q - i - 1);
    }
    CloseBraceAt(t, i + 1, k);
    ExactNamesSelectTheirKeyword(kw);
    KeywordNameStartsWithLetter(kw);
  }

  /** The trailer after a keyword's `}` at `k` is copied into the keyword's field. */
  lemma {:induction false} TrailerStep(t: string, k: nat, st: ParseState, sp: FieldSpec, v: Variant, j: nat)
    requires StateOk(st) && st.count < MAX_FIELD_COUNT && TrailerOk(sp.trailer)
    requires j == k + 1 + |sp.trailer| && j <= |t| && t[k + 1..j] == sp.trailer
    requires j == |t| || t[j] == '{'
    ensures AfterPlaceholder(t, k, ApplyKeyword(st, sp.kw, v)) == Next(j, AfterSegment(st, sp, v))
  {
    var s := ApplyKeyword(st, sp.kw, v);
    forall q | k + 1 <= q < j
      ensures t[q] != '{'
    {
      assert t[q] == t[k + 1..j][q - k - 1];
    }
    PadLengthAt(t, k + 1, |sp.trailer|, PAD_END_SIZE - 1);
    CopyPadSegment(t, k + 1, st, sp, v, s, j);
  }

  /** A `{` whose `}` lies inside the text: the name between them is applied. */
  lemma {:induction false} PlaceholderStep(t: string, i: nat, st: ParseState, v: Variant, k: nat)
    requires i < |t| && t[i] == '{' && StateOk(st)
    requires k == CloseBrace(t, i + 1) && k < |t|
    ensures ParseStep(t, i, st, v) == AfterPlaceholder(t, k, ApplyName(st, t[i + 1..k], v))
  {
  }

  /** Copying the trailer into the field just added gives the state `AfterSegment` describes. */
  lemma {:induction false} CopyPadSegment(t: string, pos: nat, st: ParseState, sp: FieldSpec, v: Variant, s: ParseState, j: nat)
    requires StateOk(st) && st.count < MAX_FIELD_COUNT && TrailerOk(sp.trailer)
    requires j == pos + |sp.trailer| && j <= |t| && t[pos..j] == sp.trailer
    requires PadLength(t, pos, PAD_END_SIZE - 1) == |sp.trailer|
    requires s == ApplyKeyword(st, sp.kw, v)
    ensures StateOk(s) && s.current.Some?
    ensures CopyPad(t, pos, s) == (AfterSegment(st, sp, v), j)
  {
    var g := ConfigureField(ResetField(st.fields[st.count], v), sp.kw);
    KeywordSlot(st, sp.kw, v, g);
    CopyPadSlot(t, pos, st.fields, st.count, g, sp.trailer, j);
  }

  /** Copying `trailer` into the field `g` just put in slot `count`. */
  lemma {:induction false} CopyPadSlot(t: string, pos: nat, fields: seq<Field>, count: nat, g: Field, trailer: string, j: nat)
    requires |fields| == MAX_FIELD_COUNT && count < MAX_FIELD_COUNT && |trailer| < PAD_END_SIZE
    requires j == pos + |trailer| && j <= |t| && t[pos..j] == trailer
    requires PadLength(t, pos, PAD_END_SIZE - 1) == |trailer|
    ensures CopyPad(t, pos, ParseState(fields[count := g], count + 1, Some(count)))
            == (ParseState(fields[count := g.(padEnd := Overlay(g.padEnd, trailer))], count + 1, Some(count)), j)
  {
    var h := g.(padEnd := Overlay(g.padEnd, trailer));
    assert fields[count := g][count := h] == fields[count := h];
  }

  /** A keyword placeholder with a free slot puts the configured, reset field there. */
  lemma {:induction false} KeywordSlot(st: ParseState, kw: Keyword, v: Variant, g: Field)
    requires StateOk(st) && st.count < MAX_FIELD_COUNT
    requires g == ConfigureField(ResetField(st.fields[st.count], v), kw)
    ensures ApplyKeyword(st, kw, v) == ParseState(st.fields[st.count := g], st.count + 1, Some(st.count))
  {
    var s := AddField(st, v);
    assert s.fields[st.count := g] == st.fields[st.count := g];
  }

  /**
   * A format made of keyword placeholders, each followed by at most five
   * characters of text without `{`, parses into one field per placeholder,
   * in order: the keyword's field with its text written over the reset
   * `padEnd` of the slot it reuses. Fields before position `i` are kept.
   */
  lemma {:induction false} ParseSegments(t: string, i: nat, st: ParseState, specs: seq<FieldSpec>, v: Variant)
      returns (r: ParseState)
    requires i <= |t| && t[i..] == FormatOf(specs)
    requires StateOk(st) && st.count + |specs| <= MAX_FIELD_COUNT
    requires forall m :: 0 <= m < |specs| ==> TrailerOk(specs[m].trailer)
    ensures Parse(t, i, st, v) == Parsed(r) && StateOk(r)
    ensures r.count == st.count + |specs|
    ensures forall j :: 0 <= j < st.count ==> r.fields[j] == st.fields[j]
    ensures forall m :: 0 <= m < |specs| ==> r.fields[st.count + m] == SegmentField(st.fields[st.count + m], specs[m], v)
    decreases |specs|
  {
    if specs == [] {
      assert i == |t|;
      return st;
    }
    var j, s2, rest := FirstSegment(t, i, st, specs, v);
    r := ParseSegments(t, j, s2, rest, v);
    FieldsAfterSegments(st, specs, rest, v, s2, r);
  }

  /** One pass over the first segment: the loop resumes after its trailer with its field added. */
  lemma {:induction false} FirstSegment(t: string, i: nat, st: ParseState, specs: seq<FieldSpec>, v: Variant)
      returns (j: nat, s2: ParseState, rest: seq<FieldSpec>)
    requires i <= |t| && t[i..] == FormatOf(specs) && specs != []
    requires StateOk(st) && st.count + |specs| <= MAX_FIELD_COUNT
    requires forall m :: 0 <= m < |specs| ==> TrailerOk(specs[m].trailer)
    ensures rest == specs[1..] && forall m :: 0 <= m < |rest| ==> TrailerOk(rest[m].trailer)
    ensures j <= |t| && t[j..] == FormatOf(rest)
    ensures s2 == AfterSegment(st, specs[0], v) && StateOk(s2) && s2.count == st.count + 1
    ensures Parse(t, i, st, v) == Parse(t, j, s2, v)
  {
    var sp := specs[0];
    var k := i + 1 + |KeywordName(sp.kw)|;
    j := k + 1 + |sp.trailer|;
    SegmentAt(t, i, specs, k, j);
    SegmentStep(t, i, st, sp, v, k, j);
    s2 := AfterSegment(st, sp, v);
    ParseContinues(t, i, st, v, j, s2);
    rest := specs[1..];
    forall m | 0 <= m < |rest| ensures TrailerOk(rest[m].trailer) {
      assert rest[m] == specs[m + 1];
    }
  }

  /** Where the first segment of a format built by `FormatOf` lies. */
  lemma {:induction false} SegmentAt(t: string, i: nat, specs: seq<FieldSpec>, k: nat, j: nat)
    requires i <= |t| && t[i..] == FormatOf(specs) && specs != []
    requires k == i + 1 + |KeywordName(specs[0].kw)| && j == k + 1 + |specs[0].trailer|
    ensures j <= |t| && t[i] == '{' && t[k] == '}'
    ensures t[i + 1..k] == KeywordName(specs[0].kw)
    ensures t[k + 1..j] == specs[0].trailer
    ensures t[j..] == FormatOf(specs[1..])
    ensures j == |t| || t[j] == '{'
  {
    var rest := FormatOf(specs[1..]);
    SegmentLayout(t, i, KeywordName(specs[0].kw), specs[0].trailer, rest, k, j);
    if j < |t| {
      assert t[j] == rest[0];
    }
  }

  /** The fields after the first segment and those parsed from the rest add up. */
  lemma {:induction false} FieldsAfterSegments(st: ParseState, specs: seq<FieldSpec>, rest: seq<FieldSpec>, v: Variant,
                                               s2: ParseState, r: ParseState)
    requires StateOk(st) && |specs| > 0 && st.count + |specs| <= MAX_FIELD_COUNT && rest == specs[1..]
    requires forall m :: 0 <= m < |specs| ==> TrailerOk(specs[m].trailer)
    requires forall m :: 0 <= m < |rest| ==> TrailerOk(rest[m].trailer)
    requires s2 == AfterSegment(st, specs[0], v)
    requires StateOk(r) && r.count == s2.count + |rest|
    requires forall j :: 0 <= j < s2.count ==> r.fields[j] == s2.fields[j]
    requires forall m :: 0 <= m < |rest| ==> r.fields[s2.count + m] == SegmentField(s2.fields[s2.count + m], rest[m], v)
    ensures forall m :: 0 <= m < |specs| ==> r.fields[st.count + m] == SegmentField(st.fields[st.count + m], specs[m], v)
  {
    forall m | 0 <= m < |specs|
      ensures r.fields[st.count + m] == SegmentField(st.fields[st.count + m], specs[m], v)
    {
      if m > 0 {
        assert specs[m] == rest[m - 1];
        assert st.count + m == s2.count + (m - 1);
      }
    }
  }

  /** The loop goes on from wherever one pass leaves it. */
  lemma {:induction false} ParseContinues(t: string, i: nat, st: ParseState, v: Variant, j: nat, s: ParseState)
    requires i < |t| && StateOk(st) && ParseStep(t, i, st, v) == Next(j, s)
    ensures j <= |t| && StateOk(s)
    ensures Parse(t, i, st, v) == Parse(t, j, s, v)
  {
  }

  /**
   * With the corrected reset, a segment's field prints exactly its keyword and
   * its trailer, whatever colour code is cached in it.
   */
  lemma {:induction false} CorrectedFieldMatches(f: Field, prev: Field, sp: FieldSpec)
    requires TrailerOk(sp.trailer)
    requires f == SegmentField(prev, sp, Corrected).(colorCode := f.colorCode)
    ensures FieldMatches(f, sp)
  {
    OverlayOnCleared(ZeroPadEnd, sp.trailer);
  }

  /**
   * The parser's round trip: `oklog_setFormat` with the corrected reset turns
   * the format of a list of keyword segments back into that list; field `m`
   * prints the `m`-th keyword followed by its trailer.
   */
  lemma {:induction false} FormatRoundTrip(c: LogContext, specs: seq<FieldSpec>, m: nat)
    requires Shaped(c) && |specs| <= MAX_FIELD_COUNT
    requires forall q :: 0 <= q < |specs| ==> TrailerOk(specs[q].trailer)
    requires m < |specs|
    ensures IsCString(FormatOf(specs))
    ensures ApplyFormat(c, FormatOf(specs), Corrected).Some?
    ensures ApplyFormat(c, FormatOf(specs), Corrected).value.fieldCount == |specs|
    ensures FieldMatches(ApplyFormat(c, FormatOf(specs), Corrected).value.fields[m], specs[m])
  {
    FormatHasNoNul(specs);
    FormatFieldAt(c, specs, Corrected, m);
    CorrectedFieldMatches(ApplyFormat(c, FormatOf(specs), Corrected).value.fields[m], c.fields[m], specs[m]);
  }

  /**
   * The round trip with the reset as written: the format of a list of keyword
   * segments parses into as many fields, and a slot that held no old
   * trailer bytes prints its keyword followed by exactly its trailer.
   */
  lemma {:induction false} AsWrittenRoundTrip(c: LogContext, specs: seq<FieldSpec>, m: nat)
    requires Shaped(c) && |specs| <= MAX_FIELD_COUNT
    requires forall q :: 0 <= q < |specs| ==> TrailerOk(specs[q].trailer)
    requires m < |specs|
    ensures IsCString(FormatOf(specs))
    ensures ApplyFormat(c, FormatOf(specs), AsWritten).Some?
    ensures ApplyFormat(c, FormatOf(specs), AsWritten).value.fieldCount == |specs|
    ensures c.fields[m].padEnd == ZeroPadEnd ==>
      FieldMatches(ApplyFormat(c, FormatOf(specs), AsWritten).value.fields[m], specs[m])
  {
    FormatHasNoNul(specs);
    FormatFieldAt(c, specs, AsWritten, m);
    if c.fields[m].padEnd == ZeroPadEnd {
      ClearedSlotResetsAgree(c.fields[m], specs[m]);
      CorrectedFieldMatches(ApplyFormat(c, FormatOf(specs), AsWritten).value.fields[m], c.fields[m], specs[m]);
    }
  }

  /** Field `m` after `oklog_setFormat` on the format of a list of keyword segments. */
  lemma {:induction false} FormatFieldAt(c: LogContext, specs: seq<FieldSpec>, v: Variant, m: nat)
    requires Shaped(c) && |specs| <= MAX_FIELD_COUNT
    requires forall q :: 0 <= q < |specs| ==> TrailerOk(specs[q].trailer)
    requires IsCString(FormatOf(specs)) && m < |specs|
    ensures ApplyFormat(c, FormatOf(specs), v).Some?
    ensures ApplyFormat(c, FormatOf(specs), v).value.fieldCount == |specs|
    ensures ApplyFormat(c, FormatOf(specs), v).value.fields[m]
            == SegmentField(c.fields[m], specs[m], v).(colorCode := ApplyFormat(c, FormatOf(specs), v).value.fields[m].colorCode)
  {
    FormatApplies(c, specs, v);
  }

  /**
   * `oklog_setFormat` as written on the format of keyword segments: field
   * `m` has the `m`-th keyword and prints its trailer followed by what is left
   * of the slot's old `padEnd`.
   */
  lemma {:induction false} AsWrittenSegments(c: LogContext, specs: seq<FieldSpec>, m: nat) returns (r: LogContext)
    requires Shaped(c) && |specs| <= MAX_FIELD_COUNT && m < |specs|
    requires forall q :: 0 <= q < |specs| ==> TrailerOk(specs[q].trailer)
    ensures IsCString(FormatOf(specs))
    ensures ApplyFormat(c, FormatOf(specs), AsWritten) == Some(r)
    ensures Shaped(r) && r.fieldCount == |specs|
    ensures r.fields[m].kind == KindOf(specs[m].kw) && r.fields[m].startPadding == 0
    ensures TrailerOk(specs[m].trailer)
    ensures CText(r.fields[m].padEnd) == StaleTrailer(c.fields[m].padEnd, specs[m].trailer)
  {
    FormatHasNoNul(specs);
    FormatFieldAt(c, specs, AsWritten, m);
    r := ApplyFormat(c, FormatOf(specs), AsWritten).value;
    AsWrittenFieldText(c.fields[m], specs[m]);
  }

  /** `oklog_setFormat` on the format of a list of keyword segments, for either reset. */
  lemma {:induction false} FormatApplies(c: LogContext, specs: seq<FieldSpec>, v: Variant)
    requires Shaped(c) && |specs| <= MAX_FIELD_COUNT
    requires forall m :: 0 <= m < |specs| ==> TrailerOk(specs[m].trailer)
    requires IsCString(FormatOf(specs))
    ensures ApplyFormat(c, FormatOf(specs), v).Some?
    ensures ApplyFormat(c, FormatOf(specs), v).value.fieldCount == |specs|
    ensures forall m :: 0 <= m < |specs| ==>
              var f := ApplyFormat(c, FormatOf(specs), v).value.fields[m];
              f == SegmentField(c.fields[m], specs[m], v).(colorCode := f.colorCode)
  {
    var t := FormatOf(specs);
    var st := ParseState(c.fields, 0, None);
    assert t[0..] == t;
    var r := ParseSegments(t, 0, st, specs, v);
  }

  /** A format built from keyword names and C-string trailers has no NUL in it. */
  lemma {:induction false} FormatHasNoNul(specs: seq<FieldSpec>)
    requires forall m :: 0 <= m < |specs| ==> TrailerOk(specs[m].trailer)
    ensures IsCString(FormatOf(specs))
  {
    if specs != [] {
      FormatHasNoNul(specs[1..]);
      var n := KeywordName(specs[0].kw);
      forall q | 0 <= q < |n|
        ensures n[q] != NUL
      {
        KeywordNameHasNoBrace(specs[0].kw, q);
      }
    }
  }

  lemma KeywordNameHasNoBrace(k: Keyword, q: int)
    requires 0 <= q < |KeywordName(k)|
    ensures KeywordName(k)[q] != '}' && KeywordName(k)[q] != '{' && KeywordName(k)[q] != NUL
  {
  }

  lemma KeywordNameStartsWithLetter(k: Keyword)
    ensures |KeywordName(k)| > 0 && !IsDigit(KeywordName(k)[0])
  {
  }
}
