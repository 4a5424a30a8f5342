/**
 * The logger's bounded string builders, used instead of `snprintf` to fill
 * fixed-size colour-code buffers. Both are all-or-nothing: either the whole
 * value is appended and the new length returned, or the text is left as it
 * was and -1 returned.
 *
 * A buffer is modelled by the C string it holds (`text`) and its size in
 * bytes (`bufferSize`, which includes the terminator).
 */
module LogBuffer {
  import opened Base
  import opened Decimal

  /** The text after an append attempt together with the C return value. */
  datatype Appended = Appended(text: string, length: int)

  /** A negative `textLength` asks the callee to measure the text itself. */
  predicate LengthArgOk(text: string, textLength: int) {
    textLength < 0 || textLength == |text|
  }

  /** `okimpllog_appendString`: appends `value` only if it fits with its terminator. */
  function AppendString(text: string, textLength: int, bufferSize: nat, value: string): (r: Appended)
    requires LengthArgOk(text, textLength)
    ensures r.length >= 0 <==> |text| + |value| < bufferSize
    ensures r.length >= 0 ==> r.text == text + value && r.length == |r.text|
    ensures r.length < 0 ==> r == Appended(text, -1)
  {
    if bufferSize == 0 then
      Appended(text, -1)
    else
      var len := if textLength < 0 then |text| else textLength;
      if len + |value| + 1 <= bufferSize then Appended(text + value, len + |value|)
      else Appended(text, -1)
  }

  /**
   * What `okimpllog_appendInt` promises: the decimal text of `value` is
   * appended whole or not at all. INT_MIN is excluded because the source
   * negates it, which overflows.
   */
  function AppendInt(text: string, textLength: int, bufferSize: nat, value: int): (r: Appended)
    requires LengthArgOk(text, textLength)
    requires INT32_MIN < value <= INT32_MAX
    ensures r.length >= 0 <==> |text| + |IntToDecimal(value)| < bufferSize
    ensures r.length >= 0 ==> r.text == text + IntToDecimal(value) && r.length == |r.text|
    ensures r.length < 0 ==> r == Appended(text, -1)
  {
    AppendString(text, textLength, bufferSize, IntToDecimal(value))
  }

  lemma RevDigitsNonEmpty(n: nat)
    ensures |RevDigits(n)| == |NatToDigits(n)| >= 1
  {
    RevDigitsIsReversed(n);
  }

  /**
   * The digit loop of `okimpllog_appendInt`: digits of `v0` are written least
   * significant first after `prefix`, and the loop gives up as soon as a
   * further digit is still due while the write position has reached `end`,
   * the slot reserved for the terminator.
   */
  method WriteDigitsReversed(prefix: string, end: nat, v0: nat) returns (ok: bool, out: string)
    requires |prefix| < end
    ensures ok <==> |prefix| + |RevDigits(v0)| <= end
    ensures ok ==> out == prefix + RevDigits(v0)
  {
    out := prefix;
    var n: nat := v0;
    while true
      invariant |prefix| <= |out| < end
      invariant out[..|prefix|] == prefix
      invariant out[|prefix|..] + RevDigits(n) == RevDigits(v0)
      decreases n
    {
      var q := n / 10;
      var d := n - q * 10;
      if n >= 10 {
        assert RevDigits(n) == [DigitChar(d)] + RevDigits(q);
      }
      out := out + [DigitChar(d)];
      n := q;
      if n == 0 {
        break;
      }
      if |out| == end {
        RevDigitsNonEmpty(n);
        assert |out[|prefix|..]| + |RevDigits(n)| == |RevDigits(v0)|;
        return false, out;
      }
    }
    assert out == out[..|prefix|] + out[|prefix|..];
    return true, out;
  }

  /** The closing loop of `okimpllog_appendInt`: swaps the run after `from` end for end. */
  method ReverseSuffix(s: string, from: nat) returns (out: string)
    requires from <= |s|
    ensures out == s[..from] + Reverse(s[from..])
  {
    out := s;
    if from == |s| {
      assert s[from..] == [];
      return;
    }
    var i := from;
    var j := |s| - 1;
    while i < j
      invariant from <= i <= j + 1 <= |s|
      invariant i + j == from + |s| - 1
      invariant |out| == |s|
      invariant out[..from] == s[..from]
      invariant forall k :: from <= k < i ==> out[k] == s[from + |s| - 1 - k]
      invariant forall k :: j < k < |s| ==> out[k] == s[from + |s| - 1 - k]
      invariant forall k :: i <= k <= j ==> out[k] == s[k]
    {
      var t := out[i];
      out := out[i := out[j]][j := t];
      i := i + 1;
      j := j - 1;
    }
    assert out == s[..from] + Reverse(s[from..]) by {
      forall k | 0 <= k < |s|
        ensures out[k] == (s[..from] + Reverse(s[from..]))[k]
      {
        if k >= from {
          ReverseIndex(s[from..], k - from);
        }
      }
    }
  }

  /**
   * `okimpllog_appendInt` as the source computes it: an optional `-`, the
   * digit loop, then the in-place reversal of the digit run. It meets the
   * all-or-nothing contract stated by `AppendInt`, which pins the result
   * down uniquely.
   */
  method AppendIntByReversal(text: string, textLength: int, bufferSize: nat, value: int) returns (r: Appended)
    requires LengthArgOk(text, textLength)
    requires INT32_MIN < value <= INT32_MAX
    ensures r.length >= 0 <==> |text| + |IntToDecimal(value)| < bufferSize
    ensures r.length >= 0 ==> r.text == text + IntToDecimal(value) && r.length == |r.text|
    ensures r.length < 0 ==> r == Appended(text, -1)
  {
    var sign := if value < 0 then "-" else "";
    var v0: nat := if value < 0 then -value else value;
    SignAndDigits(value, sign, v0);
    if bufferSize == 0 {
      return Appended(text, -1);
    }
    var len := if textLength < 0 then |text| else textLength;
    if len + 1 >= bufferSize {
      // No room for even one character.
      return Appended(text, -1);
    }
    var end := bufferSize - 1;
    if value < 0 && |text| + 1 >= end {
      // No room for the minus sign and a digit.
      return Appended(text, -1);
    }
    r := WriteNumber(text, sign, end, v0);
  }

  /** The digit loop and the reversal, after the room checks have passed. */
  method WriteNumber(text: string, sign: string, end: nat, v0: nat) returns (r: Appended)
    requires |text + sign| < end
    ensures r.length >= 0 <==> |text| + |sign| + |RevDigits(v0)| <= end
    ensures r.length >= 0 ==> r.text == text + sign + NatToDigits(v0) && r.length == |r.text|
    ensures r.length < 0 ==> r == Appended(text, -1)
  {
    var ok, out := WriteDigitsReversed(text + sign, end, v0);
    if !ok {
      // The number does not fit: the original text stays as it was.
      return Appended(text, -1);
    }
    out := ReverseSuffix(out, |text + sign|);
    ReversedRun(text + sign, v0);
    return Appended(out, |out|);
  }

  lemma SignAndDigits(value: int, sign: string, v0: nat)
    requires sign == (if value < 0 then "-" else "")
    requires v0 == (if value < 0 then -value else value)
    ensures IntToDecimal(value) == sign + NatToDigits(v0)
    ensures |IntToDecimal(value)| == |sign| + |RevDigits(v0)|
    ensures |RevDigits(v0)| >= 1
  {
    RevDigitsNonEmpty(v0);
  }

  lemma ReversedRun(prefix: string, v0: nat)
    ensures (prefix + RevDigits(v0))[..|prefix|] + Reverse((prefix + RevDigits(v0))[|prefix|..])
         == prefix + NatToDigits(v0)
  {
    var w := prefix + RevDigits(v0);
    assert w[..|prefix|] == prefix;
    assert w[|prefix|..] == RevDigits(v0);
    RevDigitsIsReversed(v0);
    ReverseTwice(NatToDigits(v0));
  }
}
