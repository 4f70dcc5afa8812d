/** Decimal digits as UTF-16 code units, and the numbers they denote. */
module Numerals {

  newtype CodeUnit = x: int | 0 <= x < 0x10000
  type JsString = seq<CodeUnit>

  const MINUS: CodeUnit := 45

  predicate IsDigit(c: CodeUnit) {
    48 <= c <= 57
  }

  predicate AllDigits(s: JsString) {
    forall i :: 0 <= i < |s| ==> IsDigit(s[i])
  }

  function DigitValue(c: CodeUnit): nat
    requires IsDigit(c)
  {
    c as int - 48
  }

  function Digit(d: nat): CodeUnit
    requires d < 10
  {
    (48 + d) as CodeUnit
  }

  /** `BigInt.toString` of a non-negative number. */
  function ToDigits(n: nat): (s: JsString)
    ensures |s| >= 1 && AllDigits(s)
  {
    if n < 10 then [Digit(n)] else ToDigits(n / 10) + [Digit(n % 10)]
  }

  /** `BigInt` of a string of digits; the empty string is 0. */
  function FromDigits(s: JsString): nat
    requires AllDigits(s)
  {
    if |s| == 0 then 0 else 10 * FromDigits(s[..|s| - 1]) + DigitValue(s[|s| - 1])
  }

  /** `BigInt.toString`, and `JSON.stringify` of an integer: no leading zeros, no minus zero. */
  function ToDecimal(n: int): JsString {
    if n < 0 then [MINUS] + ToDigits(-n) else ToDigits(n)
  }

  lemma {:induction false} FromTo(n: nat)
    ensures FromDigits(ToDigits(n)) == n
  {
    if n >= 10 {
      FromTo(n / 10);
      assert ToDigits(n)[..|ToDigits(n)| - 1] == ToDigits(n / 10);
    }
  }

  /** No leading zero, except for "0" itself. */
  predicate Canonical(s: JsString) {
    |s| >= 1 && AllDigits(s) && (|s| > 1 ==> s[0] != 48)
  }

  lemma {:induction false} ToDigitsCanonical(n: nat)
    ensures Canonical(ToDigits(n))
    ensures n > 0 ==> ToDigits(n)[0] != 48
  {
    if n >= 10 {
      ToDigitsCanonical(n / 10);
    }
  }

  lemma {:induction false} CanonicalPositive(s: JsString)
    requires Canonical(s) && s != [48]
    ensures FromDigits(s) > 0
  {
    if |s| > 1 {
      CanonicalPositive(s[..|s| - 1]);
    }
  }

  /** A canonical numeral is the numeral of its value. */
  lemma {:induction false} ToFrom(s: JsString)
    requires Canonical(s)
    ensures ToDigits(FromDigits(s)) == s
  {
    if |s| > 1 {
      var front := s[..|s| - 1];
      ToFrom(front);
      CanonicalPositive(front);
      assert s == front + [s[|s| - 1]];
    }
  }
}
