/** Python's `str(int)` for status codes, enough to model the test
    `str(code)[0] in ['4', '5']`. */
module Decimal {

  /** The character of one decimal digit. */
  function DigitChar(d: nat): (c: char)
    requires d < 10
    ensures '0' <= c <= '9'
  {
    (48 + d) as char
  }

  /** The value of one decimal digit character. */
  function DigitValue(c: char): int
  {
    c as int - 48
  }

  /** Decimal representation of a natural number, most significant digit
      first, no leading zeros. */
  function Digits(n: nat): (r: string)
    ensures |r| >= 1
    ensures forall i :: 0 <= i < |r| ==> '0' <= r[i] <= '9'
    ensures r[0] == '0' ==> n == 0
    decreases n
  {
    if n < 10 then [DigitChar(n)] else Digits(n / 10) + [DigitChar(n % 10)]
  }

  /** Python's `str` on an integer: a minus sign before the digits of a
      negative number. */
  function Str(n: int): (r: string)
    ensures |r| >= 1
    ensures r[0] == '-' <==> n < 0
  {
    if n < 0 then "-" + Digits(-n) else Digits(n)
  }

  /** Reads a digit string back as a number (`int(s)` on digits only). */
  function Value(s: string): int
  {
    if |s| == 0 then 0 else 10 * Value(s[..|s| - 1]) + DigitValue(s[|s| - 1])
  }

  /** Printing and reading back are inverse: `int(str(n)) == n`. */
  lemma {:induction false} ValueOfDigits(n: nat)
    ensures Value(Digits(n)) == n
    decreases n
  {
    var r := Digits(n);
    if n >= 10 {
      ValueOfDigits(n / 10);
      assert r[..|r| - 1] == Digits(n / 10);
    }
  }

  /** The most significant decimal digit of `n`. */
  function Leading(n: nat): (d: nat)
    ensures d < 10
    ensures n > 0 ==> d > 0
    decreases n
  {
    if n < 10 then n else Leading(n / 10)
  }

  /** The first character of `str(n)` is the most significant digit, or
      the minus sign. */
  lemma {:induction false} FirstCharOfStr(n: int)
    ensures Str(n)[0] == (if n < 0 then '-' else DigitChar(Leading(n)))
    decreases if n < 0 then 0 else n
  {
    if n >= 10 {
      FirstCharOfStr(n / 10);
      assert Digits(n)[0] == Digits(n / 10)[0];
    }
  }

  /** For a three-digit number the leading digit is its hundreds digit. */
  lemma ThreeDigitLeading(n: nat)
    requires 100 <= n < 1000
    ensures Leading(n) == n / 100
  {
    assert Leading(n) == Leading(n / 10) == Leading(n / 100);
  }
}
