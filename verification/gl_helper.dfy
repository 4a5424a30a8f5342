/**
 * The self-contained parts of the OpenGL helper, of which the program has
 * two near-identical copies: the shader preamble rewriting, the error-code
 * names and the 4x4 matrix setters.
 *
 * Whether the helper is built for OpenGL ES is a compile-time switch in the
 * C code and a parameter here.
 */
module GlHelper {
  import opened Base

  datatype ShaderKind = Vertex | Fragment

  // Lines the lemmas below look for.
  const VERSION_100: string := "#version 100\n"
  const VERSION_120: string := "#version 120\n"
  const VERSION_130: string := "#version 130\n"
  const VERSION_300_ES: string := "#version 300 es\n"
  const VERSION_400_CORE: string := "#version 400 core\n"
  const ATTRIBUTE_IN: string := "#define attribute in\n"
  const FRAGMENT_OUT_ES: string := "out highp vec4 fragmentOut;\n"
  const FRAGMENT_OUT: string := "out vec4 fragmentOut;\n"
  const FRAG_COLOR_DEFINE: string := "#define gl_FragColor fragmentOut\n"

  // Each preamble as the list of string literals the C code concatenates,
  // kept verbatim, typos included: the desktop version 2 preamble has
  // `define` without `#`, and the ES 3 vertex preamble maps `varying` to `ouy`.

  /** The ES 2 preamble, the same for both kinds of shader. */
  const ES2_LINES: seq<string> :=
    ["#version 100\n", "precision mediump float;\n", "#define OPENGL_ES\n", "#define OPENGL_ES2\n"]

  const ES3_VERTEX_LINES: seq<string> :=
    ["#version 300 es\n", "precision mediump float;\n", "#define OPENGL_ES\n", "#define OPENGL_ES3\n",
     "\n",
     "#define attribute in\n", "#define varying ouy\n\n"]

  const ES3_FRAGMENT_LINES: seq<string> :=
    ["#version 300 es\n", "precision mediump float;\n", "#define OPENGL_ES\n", "#define OPENGL_ES3\n",
     "\n",
     "out highp vec4 fragmentOut;\n",
     "\n",
     "#define varying in\n", "#define texture2D(a, b) texture(a, b)\n",
     "#define textureCube(a, b) texture(a, b)\n", "#define gl_FragColor fragmentOut\n"]

  /** The desktop version 2 preamble, the same for both kinds of shader. */
  const GL2_LINES: seq<string> :=
    ["#version 120\n", "define lowp\n", "define mediump\n", "define highp\n"]

  const GL3_VERTEX_LINES: seq<string> :=
    ["#version 130\n", "#define lowp\n", "#define mediump\n", "#define highp\n",
     "\n",
     "#define attribute in\n", "#define varying out\n\n"]

  const GL4_VERTEX_LINES: seq<string> :=
    ["#version 400 core\n", "#define lowp\n", "#define mediump\n", "#define highp\n",
     "\n",
     "#define attribute in\n", "#define varying out\n\n"]

  const GL3_FRAGMENT_LINES: seq<string> :=
    ["#version 130\n", "#define lowp\n", "#define mediump\n", "#define highp\n",
     "\n",
     "out vec4 fragmentOut;\n",
     "\n",
     "#define varying in\n", "#define texture2D(a, b) texture(a, b)\n",
     "#define textureCube(a, b) texture(a, b)\n", "#define gl_FragColor fragmentOut\n\n"]

  const GL4_FRAGMENT_LINES: seq<string> :=
    ["#version 400 core\n", "#define lowp\n", "#define mediump\n", "#define highp\n",
     "\n",
     "out vec4 fragmentOut;\n",
     "\n",
     "#define varying in\n", "#define texture2D(a, b) texture(a, b)\n",
     "#define textureCube(a, b) texture(a, b)\n", "#define gl_FragColor fragmentOut\n\n"]

  /** The literals one after another, as adjacent C string literals are joined. */
  function Join(lines: seq<string>): (r: string)
    ensures |lines| > 0 ==> |r| >= |lines[0]| && r[..|lines[0]|] == lines[0]
  {
    if lines == [] then "" else lines[0] + Join(lines[1..])
  }

  /** Every literal of a list occurs in the joined text. */
  lemma {:induction false} JoinContains(lines: seq<string>, k: int)
    requires 0 <= k < |lines|
    ensures Contains(Join(lines), lines[k])
  {
    if k == 0 {
      ContainsAt(Join(lines), lines[0], 0);
    } else {
      JoinContains(lines[1..], k - 1);
      ContainsTail(lines[0], Join(lines[1..]), lines[k]);
    }
  }

  /** Which literals the build and the requested major version select; none for an unmapped version. */
  function PreambleLines(kind: ShaderKind, isES: bool, major: int): seq<string> {
    if isES then
      if major == 2 then ES2_LINES
      else if major >= 3 then
        match kind
        case Vertex => ES3_VERTEX_LINES
        case Fragment => ES3_FRAGMENT_LINES
      else []
    else
      if major == 2 then GL2_LINES
      else if major == 3 then
        match kind
        case Vertex => GL3_VERTEX_LINES
        case Fragment => GL3_FRAGMENT_LINES
      else if major >= 4 then
        match kind
        case Vertex => GL4_VERTEX_LINES
        case Fragment => GL4_FRAGMENT_LINES
      else []
  }

  /**
   * The preamble `okgl_convertVertexShader` or `okgl_convertFragmentShader`
   * puts before the source, chosen by the build and the requested major
   * version. A version with no mapping gets no preamble.
   */
  function Preamble(kind: ShaderKind, isES: bool, major: int): (p: string)
    ensures p == [] <==> major < 2
  {
    Join(PreambleLines(kind, isES, major))
  }

  /**
   * `okgl_convertVertexShader` / `okgl_convertFragmentShader`: the preamble
   * followed by the source, or None for a missing source or when the
   * allocation fails. The minor version is not used.
   */
  function ConvertShader(kind: ShaderKind, isES: bool, source: Option<string>, major: int, minor: int, allocOk: bool)
    : (r: Option<string>)
    requires source.Some? ==> IsCString(source.value)
    ensures r.Some? <==> source.Some? && allocOk
    ensures r.Some? ==> |r.value| == |Preamble(kind, isES, major)| + |source.value|
    ensures r.Some? ==> r.value[|Preamble(kind, isES, major)|..] == source.value
    ensures r.Some? ==> r.value[..|Preamble(kind, isES, major)|] == Preamble(kind, isES, major)
  {
    if source.None? then None
    else if !allocOk then None
    else Some(Preamble(kind, isES, major) + source.value)
  }

  /** The conversion does not depend on the minor version. */
  lemma ConvertIgnoresMinor(kind: ShaderKind, isES: bool, source: Option<string>, major: int, m1: int, m2: int, allocOk: bool)
    requires source.Some? ==> IsCString(source.value)
    ensures ConvertShader(kind, isES, source, major, m1, allocOk) == ConvertShader(kind, isES, source, major, m2, allocOk)
  {
  }

  /** A major version with no mapping leaves the source as it is. */
  lemma UnmappedVersionKeepsSource(kind: ShaderKind, isES: bool, source: string, major: int, minor: int)
    requires IsCString(source) && major < 2
    ensures ConvertShader(kind, isES, Some(source), major, minor, true) == Some(source)
  {
  }

  /** A preamble, when there is one, starts with the version line for the build and major version. */
  lemma {:induction false} PreambleVersionLine(kind: ShaderKind, isES: bool, major: int)
    ensures var p := Preamble(kind, isES, major);
      && (isES && major == 2 ==> |p| >= |VERSION_100| && p[..|VERSION_100|] == VERSION_100)
      && (isES && major >= 3 ==> |p| >= |VERSION_300_ES| && p[..|VERSION_300_ES|] == VERSION_300_ES)
      && (!isES && major == 2 ==> |p| >= |VERSION_120| && p[..|VERSION_120|] == VERSION_120)
      && (!isES && major == 3 ==> |p| >= |VERSION_130| && p[..|VERSION_130|] == VERSION_130)
      && (!isES && major >= 4 ==> |p| >= |VERSION_400_CORE| && p[..|VERSION_400_CORE|] == VERSION_400_CORE)
  {
  }

  /** What occurs in the tail of a string occurs in the string. */
  lemma ContainsTail(front: string, tail: string, sub: string)
    requires Contains(tail, sub)
    ensures Contains(front + tail, sub)
  {
    var i :| OccursAt(tail, sub, i);
    assert (front + tail)[|front| + i..|front| + i + |sub|] == tail[i..i + |sub|];
    ContainsAt(front + tail, sub, |front| + i);
  }

  /** What occurs in a piece of a string occurs in the string. */
  lemma ContainsWithin(s: string, piece: string, sub: string)
    requires Contains(s, piece) && Contains(piece, sub)
    ensures Contains(s, sub)
  {
    var i :| OccursAt(s, piece, i);
    var j :| OccursAt(piece, sub, j);
    forall k | 0 <= k < |sub|
      ensures s[i + j..i + j + |sub|][k] == sub[k]
    {
      assert s[i..i + |piece|][j + k] == piece[j + k];
      assert piece[j..j + |sub|][k] == sub[k];
    }
    assert s[i + j..i + j + |sub|] == sub;
    ContainsAt(s, sub, i + j);
  }

  /** A fragment line list with the output declaration at 5 and the `gl_FragColor` line at 10. */
  lemma {:induction false} FragmentLinesMap(lines: seq<string>, out: string)
    requires |lines| == 11 && lines[5] == out
    requires |lines[10]| >= |FRAG_COLOR_DEFINE| && lines[10][..|FRAG_COLOR_DEFINE|] == FRAG_COLOR_DEFINE
    ensures Contains(Join(lines), FRAG_COLOR_DEFINE) && Contains(Join(lines), out)
  {
    JoinContains(lines, 5);
    JoinContains(lines, 10);
    ContainsAt(lines[10], FRAG_COLOR_DEFINE, 0);
    ContainsWithin(Join(lines), lines[10], FRAG_COLOR_DEFINE);
  }

  /**
   * For version 3 and later a fragment preamble declares `fragmentOut` and
   * sends `gl_FragColor` to it, and a vertex preamble turns `attribute`
   * into `in`.
   */
  lemma {:induction false} Version3Mappings(isES: bool, major: int)
    requires major >= 3
    ensures Contains(Preamble(Fragment, isES, major), FRAG_COLOR_DEFINE)
    ensures Contains(Preamble(Fragment, isES, major), if isES then FRAGMENT_OUT_ES else FRAGMENT_OUT)
    ensures Contains(Preamble(Vertex, isES, major), ATTRIBUTE_IN)
  {
    var fragment := PreambleLines(Fragment, isES, major);
    var vertex := PreambleLines(Vertex, isES, major);
    FragmentLinesMap(fragment, if isES then FRAGMENT_OUT_ES else FRAGMENT_OUT);
    JoinContains(vertex, 5);
  }

  // The OpenGL error codes `okgl_getErrorString` knows.
  const GL_NO_ERROR: nat := 0
  const GL_INVALID_ENUM: nat := 0x0500
  const GL_INVALID_VALUE: nat := 0x0501
  const GL_INVALID_OPERATION: nat := 0x0502
  const GL_OUT_OF_MEMORY: nat := 0x0505

  /** `okgl_getErrorString`: the name of one of five codes, `<unknown>` for any other. */
  function GetErrorString(error: nat): (name: string)
    ensures name == "<unknown>" <==>
      error !in {GL_NO_ERROR, GL_INVALID_ENUM, GL_INVALID_VALUE, GL_INVALID_OPERATION, GL_OUT_OF_MEMORY}
  {
    if error == GL_NO_ERROR then "GL_NO_ERROR"
    else if error == GL_INVALID_ENUM then "GL_INVALID_ENUM"
    else if error == GL_INVALID_VALUE then "GL_INVALID_VALUE"
    else if error == GL_INVALID_OPERATION then "GL_INVALID_OPERATION"
    else if error == GL_OUT_OF_MEMORY then "GL_OUT_OF_MEMORY"
    else "<unknown>"
  }

  /** Different known codes have different names. */
  lemma ErrorNamesDistinct(a: nat, b: nat)
    requires GetErrorString(a) != "<unknown>" && a != b
    ensures GetErrorString(a) != GetErrorString(b)
  {
  }

  /** A 4x4 matrix in column-major order, as the setters see it. */
  type Matrix = m: seq<real> | |m| == 16 witness seq(16, _ => 0.0)

  /** `okgl_unitMatrix`: ones on the diagonal (indices 0, 5, 10, 15), zeros elsewhere. */
  function UnitMatrix(): (m: Matrix)
    ensures forall i :: 0 <= i < 16 ==> m[i] == if i % 5 == 0 then 1.0 else 0.0
  {
    [1.0, 0.0, 0.0, 0.0,
     0.0, 1.0, 0.0, 0.0,
     0.0, 0.0, 1.0, 0.0,
     0.0, 0.0, 0.0, 1.0]
  }

  /** `okgl_matrixSetTranslation`: writes indices 12 to 14 and nothing else. */
  function SetTranslation(m: Matrix, x: real, y: real, z: real): (r: Matrix)
    ensures r[12] == x && r[13] == y && r[14] == z
    ensures forall i :: 0 <= i < 16 && !(12 <= i <= 14) ==> r[i] == m[i]
  {
    m[12 := x][13 := y][14 := z]
  }

  /** `okgl_matrixSetscale`: writes indices 0, 5 and 10 and nothing else. */
  function SetScale(m: Matrix, x: real, y: real, z: real): (r: Matrix)
    ensures r[0] == x && r[5] == y && r[10] == z
    ensures forall i :: 0 <= i < 16 && i != 0 && i != 5 && i != 10 ==> r[i] == m[i]
  {
    m[0 := x][5 := y][10 := z]
  }

  /** The two setters touch different entries, so their order does not matter. */
  lemma {:induction false} SettersCommute(m: Matrix, t: (real, real, real), s: (real, real, real))
    ensures SetScale(SetTranslation(m, t.0, t.1, t.2), s.0, s.1, s.2)
            == SetTranslation(SetScale(m, s.0, s.1, s.2), t.0, t.1, t.2)
  {
    var a := SetScale(SetTranslation(m, t.0, t.1, t.2), s.0, s.1, s.2);
    var b := SetTranslation(SetScale(m, s.0, s.1, s.2), t.0, t.1, t.2);
    assert forall i :: 0 <= i < 16 ==> a[i] == b[i];
  }

  /** A second translation overrides the first. */
  lemma {:induction false} TranslationOverrides(m: Matrix, a: (real, real, real), b: (real, real, real))
    ensures SetTranslation(SetTranslation(m, a.0, a.1, a.2), b.0, b.1, b.2) == SetTranslation(m, b.0, b.1, b.2)
  {
    var l := SetTranslation(SetTranslation(m, a.0, a.1, a.2), b.0, b.1, b.2);
    var r := SetTranslation(m, b.0, b.1, b.2);
    assert forall i :: 0 <= i < 16 ==> l[i] == r[i];
  }
}
