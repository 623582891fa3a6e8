/** Unsigned decimal integers as read by Go's `strconv.ParseUint(s, 10, 32)`:
    a non-empty run of ASCII digits (no sign, no underscores, leading zeros
    allowed) whose value fits in 32 bits. */
module Decimal {
  import opened Wrappers

  const MaxUint32: nat := 0xFFFF_FFFF

  type Uint32 = x: nat | x <= MaxUint32

  predicate IsDigit(c: char) {
    '0' <= c <= '9'
  }

  predicate AllDigits(s: string) {
    forall i :: 0 <= i < |s| ==> IsDigit(s[i])
  }

  function DigitValue(c: char): (d: nat)
    requires IsDigit(c)
    ensures d < 10
  {
    (c as int) - ('0' as int)
  }

  function DigitChar(d: nat): (c: char)
    requires d < 10
    ensures IsDigit(c) && DigitValue(c) == d
  {
    (('0' as int) + d) as char
  }

  /** The number a digit string denotes, most significant digit first. */
  function Value(s: string): nat
    requires AllDigits(s)
  {
    if s == [] then 0 else 10 * Value(s[..|s| - 1]) + DigitValue(s[|s| - 1])
  }

  /** `strconv.ParseUint(s, 10, 32)`: `None` stands for Go's syntax and range errors. */
  function ParseUint32(s: string): Option<Uint32> {
    if s != [] && AllDigits(s) && Value(s) <= MaxUint32 then Some(Value(s)) else None
  }

  /** Canonical decimal spelling of `n` (no leading zeros), as `strconv.FormatUint(n, 10)`. */
  function Format(n: nat): (s: string)
    ensures s != [] && AllDigits(s)
  {
    if n < 10 then [DigitChar(n)] else Format(n / 10) + [DigitChar(n % 10)]
  }

  lemma {:induction false} ValueOfFormat(n: nat)
    ensures Value(Format(n)) == n
  {
    if n >= 10 {
      var s := Format(n);
      assert s[..|s| - 1] == Format(n / 10);
      ValueOfFormat(n / 10);
    }
  }

  /** Formatting and then parsing gives back every 32-bit value, and nothing wider. */
  lemma ParseFormatRoundTrip(n: nat)
    ensures ParseUint32(Format(n)) == (if n <= MaxUint32 then Some(n) else None)
  {
    ValueOfFormat(n);
  }

  /** Leading zeros do not change the value read. */
  lemma {:induction false} LeadingZeroIgnored(s: string)
    requires AllDigits(s)
    ensures AllDigits("0" + s) && Value("0" + s) == Value(s)
  {
    if s != [] {
      var t := "0" + s;
      assert t[..|t| - 1] == "0" + s[..|s| - 1];
      LeadingZeroIgnored(s[..|s| - 1]);
    }
  }

  /** Anything that is not a plain digit string is rejected: signs, spaces, empty text. */
  lemma NonDigitRejected(s: string, i: nat)
    requires i < |s| && !IsDigit(s[i])
    ensures ParseUint32(s) == None
  {
  }
}
