/**
  Fixed-width decimal digit strings, shared by the reservation-id format
  (strftime's zero-padded %Y, %m, %d, %H, %M, %S fields) and the "HH:MM"
  time slots.
 */
module Decimal {

  predicate IsDigit(c: char) {
    '0' <= c <= '9'
  }

  predicate AllDigits(s: string) {
    forall i :: 0 <= i < |s| ==> IsDigit(s[i])
  }

  function DigitChar(d: nat): (c: char)
    requires d < 10
    ensures IsDigit(c)
  {
    "0123456789"[d]
  }

  function CharValue(c: char): (d: nat)
    requires IsDigit(c)
    ensures d < 10
    ensures DigitChar(d) == c
  {
    c as int - '0' as int
  }

  function Pow10(width: nat): (p: nat)
    ensures p >= 1
  {
    if width == 0 then 1 else 10 * Pow10(width - 1)
  }

  /** n written in exactly `width` digits, most significant first, zero-padded on the left. */
  function Digits(n: nat, width: nat): (s: string)
    requires n < Pow10(width)
    ensures |s| == width
    ensures AllDigits(s)
  {
    if width == 0 then []
    else Digits(n / 10, width - 1) + [DigitChar(n % 10)]
  }

  /** The number a string of digits denotes. */
  function ValueOf(s: string): (n: nat)
    requires AllDigits(s)
    ensures n < Pow10(|s|)
  {
    if |s| == 0 then 0
    else 10 * ValueOf(s[..|s| - 1]) + CharValue(s[|s| - 1])
  }

  /** Reading back a padded number gives the number. */
  lemma {:induction false} ValueOfDigits(n: nat, width: nat)
    requires n < Pow10(width)
    ensures ValueOf(Digits(n, width)) == n
  {
    if width > 0 {
      var s := Digits(n, width);
      assert s[..|s| - 1] == Digits(n / 10, width - 1);
      ValueOfDigits(n / 10, width - 1);
    }
  }

  /** Padding the value of a digit string to its own length gives the string back. */
  lemma {:induction false} DigitsOfValue(s: string)
    requires AllDigits(s)
    ensures Digits(ValueOf(s), |s|) == s
  {
    if |s| > 0 {
      var prefix := s[..|s| - 1];
      var v := ValueOf(prefix);
      var d := CharValue(s[|s| - 1]);
      var n := ValueOf(s);
      assert n == 10 * v + d;
      DivModTen(v, d);
      DigitsOfValue(prefix);
      calc {
        Digits(n, |s|);
        Digits(n / 10, |s| - 1) + [DigitChar(n % 10)];
        Digits(v, |prefix|) + [DigitChar(d)];
        prefix + [s[|s| - 1]];
      }
      assert s == prefix + [s[|s| - 1]];
    }
  }

  lemma DivModTen(v: nat, d: nat)
    requires d < 10
    ensures (10 * v + d) / 10 == v
    ensures (10 * v + d) % 10 == d
  {
  }

  /** Two padded numbers of the same width are equal exactly when the numbers are. */
  lemma DigitsInjective(a: nat, b: nat, width: nat)
    requires a < Pow10(width) && b < Pow10(width)
    ensures Digits(a, width) == Digits(b, width) <==> a == b
  {
    if Digits(a, width) == Digits(b, width) {
      ValueOfDigits(a, width);
      ValueOfDigits(b, width);
    }
  }
}
