/**
 * Decimal text of integers, as written by the hand-rolled `itoa` of the
 * logger and as read back by `strtol(…, 10)` in the format parser.
 */
module Decimal {
  import opened Base

  predicate IsDigit(c: char) {
    '0' <= c <= '9'
  }

  predicate AllDigits(s: string) {
    forall i :: 0 <= i < |s| ==> IsDigit(s[i])
  }

  function DigitChar(d: nat): (c: char)
    requires d < 10
    ensures IsDigit(c)
  {
    ('0' as int + d) as char
  }

  function DigitValue(c: char): (d: nat)
    requires IsDigit(c)
    ensures d < 10
    ensures DigitChar(d) == c
  {
    c as int - '0' as int
  }

  function Reverse(s: string): (r: string)
    ensures |r| == |s|
  {
    if s == [] then [] else Reverse(s[1..]) + [s[0]]
  }

  lemma {:induction false} ReverseIndex(s: string, i: int)
    requires 0 <= i < |s|
    ensures Reverse(s)[i] == s[|s| - 1 - i]
  {
    if i < |s| - 1 {
      ReverseIndex(s[1..], i);
    }
  }

  lemma {:induction false} ReverseAppend(a: string, b: string)
    ensures Reverse(a + b) == Reverse(b) + Reverse(a)
  {
    if a != [] {
      assert (a + b)[1..] == a[1..] + b;
      ReverseAppend(a[1..], b);
    } else {
      assert a + b == b;
    }
  }

  lemma {:induction false} ReverseTwice(s: string)
    ensures Reverse(Reverse(s)) == s
  {
    if s != [] {
      ReverseAppend(Reverse(s[1..]), [s[0]]);
      ReverseTwice(s[1..]);
    }
  }

  /** Digits of `n`, most significant first, without leading zeros. */
  function NatToDigits(n: nat): (s: string)
    ensures 1 <= |s|
    ensures AllDigits(s)
    decreases n
  {
    if n < 10 then [DigitChar(n)] else NatToDigits(n / 10) + [DigitChar(n % 10)]
  }

  /** Digits of `n`, least significant first: the order in which `itoa` produces them. */
  function RevDigits(n: nat): (s: string)
    decreases n
  {
    if n < 10 then [DigitChar(n)] else [DigitChar(n % 10)] + RevDigits(n / 10)
  }

  /** Decimal text of a C `int`, with a leading `-` when negative. */
  function IntToDecimal(v: int): (s: string)
    // A `-` for a negative value only, then at least one digit.
    ensures |s| >= 1 && (s[0] == '-' <==> v < 0)
    ensures v < 0 ==> |s| >= 2 && AllDigits(s[1..])
    ensures v >= 0 ==> AllDigits(s)
  {
    if v < 0 then "-" + NatToDigits(-v) else NatToDigits(v)
  }

  /** The value of a string of decimal digits (the empty string has value 0). */
  function DigitsValue(s: string): nat
    requires AllDigits(s)
  {
    if s == [] then 0 else DigitsValue(s[..|s| - 1]) * 10 + DigitValue(s[|s| - 1])
  }

  /** Reads back the text written by `IntToDecimal`. */
  function ParseDecimal(s: string): int
    requires AllDigits(s) || (|s| > 0 && s[0] == '-' && AllDigits(s[1..]))
  {
    if |s| > 0 && s[0] == '-' then -(DigitsValue(s[1..]) as int) else DigitsValue(s)
  }

  lemma {:induction false} RevDigitsIsReversed(n: nat)
    ensures RevDigits(n) == Reverse(NatToDigits(n))
    decreases n
  {
    if n >= 10 {
      RevDigitsIsReversed(n / 10);
      var d := NatToDigits(n / 10);
      assert NatToDigits(n) == d + [DigitChar(n % 10)];
      ReverseAppend(d, [DigitChar(n % 10)]);
    }
  }

  lemma {:induction false} DigitsRoundTrip(n: nat)
    ensures DigitsValue(NatToDigits(n)) == n
    decreases n
  {
    if n < 10 {
      assert NatToDigits(n)[..0] == [];
    } else {
      var s := NatToDigits(n);
      assert s[..|s| - 1] == NatToDigits(n / 10);
      DigitsRoundTrip(n / 10);
    }
  }

  /** The digits written for a value parse back to that value. */
  lemma DecimalRoundTrip(v: int)
    ensures AllDigits(IntToDecimal(v)) || (IntToDecimal(v)[0] == '-' && AllDigits(IntToDecimal(v)[1..]))
    ensures ParseDecimal(IntToDecimal(v)) == v
  {
    if v < 0 {
      var s := IntToDecimal(v);
      assert s[1..] == NatToDigits(-v);
      DigitsRoundTrip(-v);
    } else {
      DigitsRoundTrip(v);
    }
  }

  /** Only zero itself is written with a leading zero. */
  lemma {:induction false} NoLeadingZero(n: nat)
    ensures NatToDigits(n)[0] == '0' <==> n == 0
    decreases n
  {
    if n >= 10 {
      NoLeadingZero(n / 10);
    }
  }

  /** A value below 10^k needs at most k digits: the bound that sizes the colour buffers. */
  lemma DigitsLengthBound(n: nat)
    ensures n < 10 ==> |NatToDigits(n)| == 1
    ensures n < 100 ==> |NatToDigits(n)| <= 2
    ensures n < 1000 ==> |NatToDigits(n)| <= 3
  {
    if n >= 10 {
      assert |NatToDigits(n)| == |NatToDigits(n / 10)| + 1;
    }
    if n >= 100 {
      assert |NatToDigits(n / 10)| == |NatToDigits(n / 100)| + 1;
    }
  }

  /** The longest prefix of `s` made of digits: what `strtol` consumes. */
  function LeadingDigits(s: string): (p: string)
    ensures p <= s
    ensures AllDigits(p)
    ensures |p| == |s| || !IsDigit(s[|p|])
  {
    if s == [] || !IsDigit(s[0]) then [] else [s[0]] + LeadingDigits(s[1..])
  }

  /** `LONG_MAX`: 64 bits on LP64 platforms, 32 bits on Windows (LLP64). */
  function LongMax(windows: bool): int {
    if windows then INT32_MAX else INT64_MAX
  }

  /**
   * `(int) strtol(s, &end, 10)` for a name that starts with a digit: the
   * value of the leading digits, saturated at `LONG_MAX` on overflow, then
   * truncated to 32 bits by the assignment to an `int`.
   */
  function StrtolToInt(s: string, windows: bool): (r: int)
    // Whatever the platform, the result is an `int`, and a value that fits is read exactly.
    ensures InInt32(r)
    ensures DigitsValue(LeadingDigits(s)) <= INT32_MAX ==> r == DigitsValue(LeadingDigits(s))
    // A larger value saturates to INT_MAX where `long` has 32 bits; past
    // LONG_MAX on a 64-bit `long`, the low 32 bits of LONG_MAX are all ones.
    ensures windows && DigitsValue(LeadingDigits(s)) > INT32_MAX ==> r == INT32_MAX
    ensures !windows && DigitsValue(LeadingDigits(s)) > INT64_MAX ==> r == -1
    // Between the two limits, a 64-bit `long` keeps the low 32 bits of the value.
    ensures !windows && DigitsValue(LeadingDigits(s)) <= INT64_MAX ==> (r - DigitsValue(LeadingDigits(s))) % 0x1_0000_0000 == 0
  {
    var v := DigitsValue(LeadingDigits(s));
    var long := if v > LongMax(windows) then LongMax(windows) else v;
    Wrap32KeepsLowBits(long);
    Wrap32(long)
  }
}
