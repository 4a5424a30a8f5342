/**
 * Shared vocabulary for the model: an optional value standing for a C
 * pointer that may be NULL, the 32-bit `int` range of the C code, and the
 * shape of a C string (no embedded NUL).
 */
module Base {

  /** A value or its absence; `None` plays the role of a NULL pointer. */
  datatype Option<+T> = None | Some(value: T)

  const INT32_MIN: int := -0x8000_0000
  const INT32_MAX: int := 0x7FFF_FFFF

  /** A 64-bit C `long` (LP64 data model). */
  const INT64_MAX: int := 0x7FFF_FFFF_FFFF_FFFF

  const NUL: char := 0 as char

  predicate InInt32(x: int) {
    INT32_MIN <= x <= INT32_MAX
  }

  /** The characters of a C string: it cannot contain its own terminator. */
  predicate IsCString(s: string) {
    forall i :: 0 <= i < |s| ==> s[i] != NUL
  }

  /** The C string held by a character array: its characters up to the first NUL. */
  function CText(raw: seq<char>): (s: string)
    ensures s <= raw
    ensures IsCString(s)
    ensures |s| < |raw| ==> raw[|s|] == NUL
  {
    if raw == [] || raw[0] == NUL then [] else [raw[0]] + CText(raw[1..])
  }

  /** A terminated character array holds its C string strictly before its end. */
  lemma {:induction false} CTextEndsBeforeNul(raw: seq<char>)
    requires NUL in raw
    ensures |CText(raw)| < |raw|
    decreases |raw|
  {
    if raw[0] != NUL {
      assert NUL in raw[1..] by {
        var k :| 0 <= k < |raw| && raw[k] == NUL;
        assert raw[1..][k - 1] == NUL;
      }
      CTextEndsBeforeNul(raw[1..]);
    }
  }

  /**
   * Conversion of a wider integer to a 32-bit `int` keeping the low 32 bits,
   * which is what the supported compilers do for an out-of-range value.
   */
  function Wrap32(x: int): (r: int)
    ensures InInt32(r)
    ensures InInt32(x) ==> r == x
  {
    (x - INT32_MIN) % 0x1_0000_0000 + INT32_MIN
  }

  /** The wrapped value differs from the original by a multiple of 2^32: only the low 32 bits are kept. */
  lemma Wrap32KeepsLowBits(x: int)
    ensures (Wrap32(x) - x) % 0x1_0000_0000 == 0
  {
  }

  /** True iff `sub` occurs somewhere in `s` as a contiguous piece. */
  ghost predicate Contains(s: string, sub: string) {
    exists i :: OccursAt(s, sub, i)
  }

  predicate OccursAt(s: string, sub: string, i: int) {
    0 <= i <= |s| - |sub| && s[i..i + |sub|] == sub
  }

  lemma ContainsAt(s: string, sub: string, i: int)
    requires 0 <= i <= |s| - |sub|
    requires s[i..i + |sub|] == sub
    ensures Contains(s, sub)
  {
    assert OccursAt(s, sub, i);
  }
}
