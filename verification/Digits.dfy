/** Decimal digit strings and their values. */
module Digits {

  predicate IsDigit(c: char) {
    '0' <= c <= '9'
  }

  function DigitValue(c: char): (value: int)
    requires IsDigit(c)
  {
    c as int - '0' as int
  }

  predicate AllDigits(text: string) {
    forall i | 0 <= i < |text| :: IsDigit(text[i])
  }

  function DigitsValue(text: string): nat
    requires AllDigits(text)
  {
    if text == "" then 0
    else DigitsValue(text[..|text| - 1]) * 10 + DigitValue(text[|text| - 1])
  }
}
