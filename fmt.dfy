/** The parts of Go's `fmt` and `strconv` the model prints integers with:
    `%d` / `strconv.Itoa` and the zero-padded `%02d`. */
module Fmt {

  predicate IsDigit(c: char) { '0' <= c <= '9' }

  predicate AllDigits(s: string) { forall i :: 0 <= i < |s| ==> IsDigit(s[i]) }

  function DigitChar(d: nat): (c: char)
    requires d < 10
    ensures IsDigit(c) && c as int - '0' as int == d
  {
    ('0' as int + d) as char
  }

  function DigitValue(c: char): nat
    requires IsDigit(c)
  {
    c as int - '0' as int
  }

  /** The decimal digits of `n`, most significant first, without leading zeros. */
  function Digits(n: nat): (s: string)
    ensures 1 <= |s| && AllDigits(s)
    ensures (|s| == 1) <==> n < 10
    ensures |s| > 1 ==> s[0] != '0'
  {
    if n < 10 then [DigitChar(n)] else Digits(n / 10) + [DigitChar(n % 10)]
  }

  /** The number a string of decimal digits denotes. */
  function ValueOf(s: string): nat
    requires AllDigits(s)
  {
    if s == [] then 0 else ValueOf(s[..|s| - 1]) * 10 + DigitValue(s[|s| - 1])
  }

  /** `Digits` is undone by `ValueOf`: printing loses nothing. */
  lemma {:induction false} DigitsRoundTrip(n: nat)
    ensures ValueOf(Digits(n)) == n
  {
    if n >= 10 {
      DigitsRoundTrip(n / 10);
      var s := Digits(n);
      assert s[..|s| - 1] == Digits(n / 10);
    }
  }

  /** `%d`, `strconv.Itoa`: a minus sign for negative numbers, then the digits. */
  function Itoa(n: int): (s: string)
    ensures n >= 0 ==> s == Digits(n)
    ensures n < 0 ==> s == "-" + Digits(-n)
  {
    if n < 0 then "-" + Digits(-n) else Digits(n)
  }

  /** `%02d`: zero-padded to a width of two, the sign counting toward the width. */
  function Pad2(n: int): (s: string)
    ensures |s| >= 2
    ensures forall i :: 0 <= i < |s| ==> IsDigit(s[i]) || s[i] == '-'
  {
    var d := Itoa(n);
    if |d| < 2 then "0" + d else d
  }

  /** Between 0 and 99, `%02d` prints exactly the tens and the units digit;
      elsewhere it prints what `%d` prints. */
  lemma Pad2Digits(n: int)
    ensures 0 <= n < 100 ==> Pad2(n) == [DigitChar(n / 10), DigitChar(n % 10)]
    ensures (n >= 100 || n < 0) ==> Pad2(n) == Itoa(n)
  {
    if 10 <= n < 100 {
      assert Digits(n) == Digits(n / 10) + [DigitChar(n % 10)];
    }
    if n < 0 {
      assert |Itoa(n)| >= 2;
    }
  }

  /** Between 0 and 99, `%02d` is two digits that read back as `n`. */
  lemma Pad2RoundTrip(n: int)
    requires 0 <= n < 100
    ensures |Pad2(n)| == 2 && AllDigits(Pad2(n)) && ValueOf(Pad2(n)) == n
  {
    Pad2Digits(n);
    var s := Pad2(n);
    assert s[..1] == [DigitChar(n / 10)];
    assert s[..1][..0] == [];
    assert ValueOf(s[..1]) == n / 10;
    assert ValueOf(s) == (n / 10) * 10 + n % 10;
  }
}
