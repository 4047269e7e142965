/** Decimal digits and the numbers they stand for. */
module Digits {
  predicate IsDigit(c: char) { '0' <= c <= '9' }

  predicate AllDigits(s: string) { forall i :: 0 <= i < |s| ==> IsDigit(s[i]) }

  /** Canonical decimal: `/^(?:0|[1-9][0-9]*)$/` */
  predicate IsDecimal(s: string) {
    s != "" && AllDigits(s) && (s[0] == '0' ==> |s| == 1)
  }

  /** `Number(s)` or `int(s)` for a text of digits. */
  function NumberOf(s: string): nat
    requires AllDigits(s)
  {
    if s == "" then 0
    else
      assert IsDigit(s[|s| - 1]);
      10 * NumberOf(s[..|s| - 1]) + (s[|s| - 1] - '0') as nat
  }
}
