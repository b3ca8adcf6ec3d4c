/** Decimal numerals. */
module Decimals {

  predicate IsDigit(c: char) {
    '0' <= c <= '9'
  }

  predicate AllDigits(s: string) {
    forall i | 0 <= i < |s| :: IsDigit(s[i])
  }

  function DigitOf(c: char): nat
    requires IsDigit(c)
  {
    (c - '0') as nat
  }

  function CharOf(d: nat): (c: char)
    requires d < 10
    ensures IsDigit(c) && DigitOf(c) == d
  {
    ['0', '1', '2', '3', '4', '5', '6', '7', '8', '9'][d]
  }

  /** The number a string of digits denotes; leading zeros do not count and no digits denote 0. */
  function Value(s: string): nat
    requires AllDigits(s)
  {
    if s == "" then 0 else 10 * Value(s[..|s| - 1]) + DigitOf(s[|s| - 1])
  }

  function Numeral(n: nat): (s: string)
    ensures s != "" && AllDigits(s)
    decreases n
  {
    if n < 10 then [CharOf(n)] else Numeral(n / 10) + [CharOf(n % 10)]
  }

  predicate NoLeadingZero(s: string) {
    s != "" && (s[0] == '0' ==> |s| == 1)
  }

  lemma {:induction false} NumeralValue(n: nat)
    ensures Value(Numeral(n)) == n
    ensures NoLeadingZero(Numeral(n))
    ensures Numeral(n)[0] == '0' ==> n == 0
    decreases n
  {
    if n < 10 {
      assert Numeral(n)[..0] == "";
    } else {
      NumeralValue(n / 10);
      assert Numeral(n)[..|Numeral(n)| - 1] == Numeral(n / 10);
    }
  }

  lemma {:induction false} ValuePositive(s: string)
    requires AllDigits(s) && s != "" && s[0] != '0'
    ensures 0 < Value(s)
    decreases |s|
  {
    if |s| > 1 {
      ValuePositive(s[..|s| - 1]);
    }
  }

  /** Without leading zeros a number has one numeral. */
  lemma {:induction false} ValueInjective(s: string, t: string)
    requires AllDigits(s) && AllDigits(t) && NoLeadingZero(s) && NoLeadingZero(t) && Value(s) == Value(t)
    ensures s == t
    decreases |s|
  {
    var s', t' := s[..|s| - 1], t[..|t| - 1];
    assert s == s' + [s[|s| - 1]] && t == t' + [t[|t| - 1]];
    assert Value(s') == Value(t') && DigitOf(s[|s| - 1]) == DigitOf(t[|t| - 1]);
    if s' == "" || t' == "" {
      if s' != "" {
        ValuePositive(s');
      }
      if t' != "" {
        ValuePositive(t');
      }
    } else {
      ValueInjective(s', t');
    }
  }

  /** A status code as text. */
  function Text(n: int): (s: string)
    ensures s != "" && forall c | c in s :: IsDigit(c) || c == '-'
  {
    if n < 0 then "-" + Numeral(-n) else Numeral(n)
  }

  lemma TextSign(n: int)
    ensures Text(n)[0] == '-' <==> n < 0
  {
  }

  lemma NumeralInjective(m: nat, n: nat)
    requires Numeral(m) == Numeral(n)
    ensures m == n
  {
    NumeralValue(m);
    NumeralValue(n);
  }

  lemma TextInjective(m: int, n: int)
    requires Text(m) == Text(n)
    ensures m == n
  {
    TextSign(m);
    TextSign(n);
    if m < 0 {
      assert Text(m)[1..] == Numeral(-m) && Text(n)[1..] == Numeral(-n);
      NumeralInjective(-m, -n);
    } else {
      NumeralInjective(m, n);
    }
  }
}
