/** Integer text as the runtime reads and writes it: Python's `int(text, base)`
    for bases 10 and 16 over an optional sign and ASCII digits, and `str(n)` for
    decimal output. CPython refuses to convert more than `MaxStrDigits` decimal
    digits either way; power-of-two bases such as 16 are exempt. */
module Numerals {
  import opened Options

  predicate IsDecimalDigit(c: char) {
    '0' <= c <= '9'
  }

  predicate IsHexDigit(c: char) {
    IsDecimalDigit(c) || 'a' <= c <= 'f' || 'A' <= c <= 'F'
  }

  /** The value of one digit character, case-insensitive for `a`..`f`. */
  function DigitValue(c: char): (v: nat)
    requires IsHexDigit(c)
    ensures v < 16
    ensures v < 10 <==> IsDecimalDigit(c)
  {
    if IsDecimalDigit(c) then c as nat - '0' as nat
    else if 'a' <= c <= 'f' then c as nat - 'a' as nat + 10
    else c as nat - 'A' as nat + 10
  }

  /** `c` is a digit of `base` (10 or 16). */
  predicate IsDigit(c: char, base: nat) {
    IsHexDigit(c) && DigitValue(c) < base
  }

  predicate AllDigits(ds: string, base: nat) {
    forall k :: 0 <= k < |ds| ==> IsDigit(ds[k], base)
  }

  /** The number a digit string denotes, most significant digit first. */
  function DigitsValue(ds: string, base: nat): nat
    requires AllDigits(ds, base)
  {
    if |ds| == 0 then 0
    else DigitsValue(ds[..|ds| - 1], base) * base + DigitValue(ds[|ds| - 1])
  }

  /** CPython's default limit on the digits of an integer-string conversion in
      a base that is not a power of two. */
  const MaxStrDigits := 4300

  /** Python's `int(text, base)` restricted to an optional `+`/`-` followed by
      at least one digit; every other text is a `ValueError`, here `None`, and
      so is decimal text with more than `MaxStrDigits` digits, leading zeros
      included. */
  function ParseInteger(text: string, base: nat): Option<int> {
    var negative := |text| > 0 && text[0] == '-';
    var digits := if |text| > 0 && (text[0] == '+' || text[0] == '-') then text[1..] else text;
    if |digits| > 0 && AllDigits(digits, base) && (base == 16 || |digits| <= MaxStrDigits) then
      var v: int := DigitsValue(digits, base);
      Some(if negative then -v else v)
    else None
  }

  /** The decimal digit character for `d`. */
  function DecimalChar(d: nat): (c: char)
    requires d < 10
    ensures IsDecimalDigit(c) && DigitValue(c) == d
  {
    ('0' as nat + d) as char
  }

  /** Python's `str(n)` for a natural number: no leading zeros. */
  function NatToDecimal(n: nat): (text: string)
    ensures |text| > 0 && AllDigits(text, 10)
    ensures DigitsValue(text, 10) == n
    ensures (text[0] == '0') ==> text == "0"
  {
    if n < 10 then [DecimalChar(n)]
    else
      var prefix := NatToDecimal(n / 10);
      var text := prefix + [DecimalChar(n % 10)];
      assert text[..|text| - 1] == prefix;
      text
  }

  /** Python's `str(n)` for an integer: a `-` before the digits of a negative number. */
  function IntToDecimal(n: int): (text: string)
    ensures forall k :: 0 <= k < |text| ==> text[k] == '-' || IsDecimalDigit(text[k])
  {
    if n < 0 then "-" + NatToDecimal(-n) else NatToDecimal(n)
  }

  /** `str(n)` stays within CPython's conversion limit. */
  predicate WithinDigitLimit(n: int) {
    |NatToDecimal(if n < 0 then -n else n)| <= MaxStrDigits
  }

  /** Reading back what `str(n)` wrote gives `n` when `n` is within the limit;
      beyond it the text is refused. */
  lemma ParseFormat(n: int)
    ensures WithinDigitLimit(n) ==> ParseInteger(IntToDecimal(n), 10) == Some(n)
    ensures !WithinDigitLimit(n) ==> ParseInteger(IntToDecimal(n), 10) == None
  {
  }

  /** Unsigned digit text reads as its value, in base 16 at any length and in
      base 10 up to the limit. */
  lemma ParseDigits(ds: string, base: nat)
    requires |ds| > 0 && AllDigits(ds, base)
    ensures (base == 16 || |ds| <= MaxStrDigits) ==> ParseInteger(ds, base) == Some(DigitsValue(ds, base))
    ensures (base == 10 && |ds| > MaxStrDigits) ==> ParseInteger(ds, base) == None
  {
  }

  /** Leading zeros do not change the value: a digit string and the same string
      behind any number of zeros denote the same number. */
  lemma {:induction false} LeadingZeros(zeros: string, ds: string, base: nat)
    requires base > 0
    requires forall k :: 0 <= k < |zeros| ==> zeros[k] == '0'
    requires AllDigits(ds, base)
    ensures AllDigits(zeros + ds, base)
    ensures DigitsValue(zeros + ds, base) == DigitsValue(ds, base)
    decreases |ds|
  {
    var s := zeros + ds;
    assert AllDigits(s, base) by {
      forall k | 0 <= k < |s| ensures IsDigit(s[k], base) {
        if k < |zeros| { assert s[k] == '0'; } else { assert s[k] == ds[k - |zeros|]; }
      }
    }
    if |ds| == 0 {
      assert s == zeros;
      AllZeros(zeros, base);
    } else {
      assert s[..|s| - 1] == zeros + ds[..|ds| - 1];
      LeadingZeros(zeros, ds[..|ds| - 1], base);
    }
  }

  /** A string of zeros denotes zero. */
  lemma {:induction false} AllZeros(zeros: string, base: nat)
    requires base > 0
    requires forall k :: 0 <= k < |zeros| ==> zeros[k] == '0'
    ensures AllDigits(zeros, base) && DigitsValue(zeros, base) == 0
  {
    if |zeros| > 0 {
      AllZeros(zeros[..|zeros| - 1], base);
    }
  }
}
