/** Digit strings and their values in base 10 or base 16, most significant digit first. */
module Numerals {
  predicate IsDecimalDigit(c: char) { '0' <= c <= '9' }

  /** A digit of base 10 or base 16 (either letter case). */
  predicate IsRadixDigit(c: char, hex: bool)
  {
    IsDecimalDigit(c) || (hex && (('a' <= c <= 'f') || ('A' <= c <= 'F')))
  }

  function DigitValue(c: char, hex: bool): (v: nat)
    requires IsRadixDigit(c, hex)
    ensures v < (if hex then 16 else 10)
  {
    if IsDecimalDigit(c) then c as int - '0' as int
    else if 'a' <= c <= 'f' then c as int - 'a' as int + 10
    else c as int - 'A' as int + 10
  }

  predicate AllRadixDigits(s: string, hex: bool)
  {
    forall k :: 0 <= k < |s| ==> IsRadixDigit(s[k], hex)
  }

  /** The value of a digit string, most significant digit first. */
  function DigitsValue(z: string, hex: bool): nat
    requires AllRadixDigits(z, hex)
  {
    if z == [] then 0
    else DigitsValue(z[..|z| - 1], hex) * (if hex then 16 else 10) + DigitValue(z[|z| - 1], hex)
  }
}
