/** Decimal numerals as the scripts read and print them: the digits of a natural
    number without a leading zero, and the value of a digit string. */
module Decimal {

  predicate IsDigit(c: char) {
    '0' <= c <= '9'
  }

  /** `\d+` */
  predicate IsDigits(s: string) {
    s != "" && forall c <- s :: IsDigit(c)
  }

  /** `0|[1-9]\d*` */
  predicate IsNumeral(s: string) {
    IsDigits(s) && (s == "0" || s[0] != '0')
  }

  function DigitOf(n: nat): (c: char)
    requires n < 10
  {
    '0' + (n as char)
  }

  function ValueOf(c: char): (n: nat)
    requires IsDigit(c)
  {
    (c - '0') as nat
  }

  /** `str(n)` */
  function Numeral(n: nat): (s: string)
    ensures IsNumeral(s)
    ensures s[0] == '0' <==> n == 0
  {
    if n < 10 then [DigitOf(n)] else Numeral(n / 10) + [DigitOf(n % 10)]
  }

  /** `int(s)` */
  function Value(s: string): nat
    requires forall c <- s :: IsDigit(c)
  {
    if s == "" then 0 else 10 * Value(s[..|s| - 1]) + ValueOf(s[|s| - 1])
  }

  lemma {:induction false} ValueOfNumeral(n: nat)
    ensures Value(Numeral(n)) == n
  {
    if n < 10 {
    } else {
      ValueOfNumeral(n / 10);
    }
  }

  lemma ValueSnoc(s: string, c: char)
    requires (forall d <- s :: IsDigit(d)) && IsDigit(c)
    ensures Value(s + [c]) == 10 * Value(s) + ValueOf(c)
  {
  }

  lemma NumeralStep(n: nat)
    requires n >= 10
    ensures Numeral(n) == Numeral(n / 10) + [DigitOf(n % 10)]
  {
  }

  lemma NumeralSnoc(n: nat, c: char)
    requires IsDigit(c)
    ensures n > 0 ==> Numeral(10 * n + ValueOf(c)) == Numeral(n) + [c]
    ensures Numeral(ValueOf(c)) == [c]
  {
    var d := ValueOf(c);
    assert DigitOf(d) == c;
    assert (10 * n + d) / 10 == n && (10 * n + d) % 10 == d;
    if n > 0 { NumeralStep(10 * n + d); }
  }

  lemma EmptyValue()
    ensures Value("") == 0
  {
  }

  lemma {:induction false} NumeralOfValue(s: string)
    requires IsNumeral(s)
    ensures Numeral(Value(s)) == s
    ensures Value(s) == 0 <==> s == "0"
  {
    hide Numeral, Value;
    var high, last := s[..|s| - 1], s[|s| - 1];
    assert s == high + [last];
    ValueSnoc(high, last);
    NumeralSnoc(Value(high), last);
    if |s| == 1 {
      assert high == "";
      EmptyValue();
    } else {
      assert high[0] == s[0];
      NumeralOfValue(high);
    }
  }

  /** The next numeral is at most one digit longer. */
  lemma {:induction false} NumeralGrows(n: nat)
    ensures |Numeral(n)| <= |Numeral(n + 1)| <= |Numeral(n)| + 1
  {
    if n < 10 {
    } else {
      if n % 10 == 9 {
        NumeralGrows(n / 10);
        assert (n + 1) / 10 == n / 10 + 1;
      } else {
        assert (n + 1) / 10 == n / 10;
      }
    }
  }
}
