// Decimal numbers as printf writes them, and counting characters.
module Numerals {
  function Digit(d: nat): char
    requires d < 10
  {
    "0123456789"[d]
  }

  function Decimal(n: nat): (s: string)
    ensures |s| >= 1 && forall i :: 0 <= i < |s| ==> '0' <= s[i] <= '9'
  {
    if n < 10 then [Digit(n)] else Decimal(n / 10) + [Digit(n % 10)]
  }

  // The number that a string of digits stands for.
  function Value(s: string): int {
    if s == "" then 0 else 10 * Value(s[..|s| - 1]) + (s[|s| - 1] as int - '0' as int)
  }

  // s is how n is written: digits only, and no leading zero.
  predicate IsNumeral(s: string, n: int) {
    s != "" && (forall i :: 0 <= i < |s| ==> '0' <= s[i] <= '9') && (|s| > 1 ==> s[0] != '0') && Value(s) == n
  }

  lemma DigitValue(d: nat)
    requires d < 10
    ensures Digit(d) as int - '0' as int == d
  {
  }

  lemma {:induction false} DecimalValue(n: nat)
    ensures IsNumeral(Decimal(n), n) && (n > 0 ==> Decimal(n)[0] != '0')
  {
    hide Digit;
    DigitValue(n % 10);
    if n >= 10 {
      var front := Decimal(n / 10);
      DecimalValue(n / 10);
      assert (front + [Digit(n % 10)])[..|front|] == front;
    } else {
      assert Decimal(n) == [Digit(n)] && [Digit(n)][..0] == "";
      assert Value("") == 0 && Value([Digit(n)]) == n;
    }
  }

  // Nothing else is a numeral of n.
  lemma {:induction false} NumeralIs(s: string, n: int)
    requires IsNumeral(s, n)
    ensures n >= 0 && s == Decimal(n) && (n == 0 ==> s == "0")
  {
    var front, d := s[..|s| - 1], s[|s| - 1] as int - '0' as int;
    DigitValue(d);
    assert s == front + [s[|s| - 1]];
    if front == "" {
      assert s == [s[0]] && n == d;
    } else {
      NumeralIs(front, Value(front));
      assert n == 10 * Value(front) + d && n / 10 == Value(front) && n % 10 == d;
    }
  }

  function Count(c: char, s: string): nat {
    if s == "" then 0 else (if s[0] == c then 1 else 0) + Count(c, s[1..])
  }

  lemma {:induction false} CountAppend(c: char, a: string, b: string)
    ensures Count(c, a + b) == Count(c, a) + Count(c, b)
  {
    if a == "" {
      assert a + b == b;
    } else {
      assert (a + b)[1..] == a[1..] + b;
      CountAppend(c, a[1..], b);
    }
  }

  lemma {:induction false} CountNone(c: char, s: string)
    requires forall i :: 0 <= i < |s| ==> s[i] != c
    ensures Count(c, s) == 0
  {
    if s != "" { CountNone(c, s[1..]); }
  }

  function Pow10(k: nat): (p: nat)
    ensures p >= 1
  {
    if k == 0 then 1 else 10 * Pow10(k - 1)
  }

  // A number has more than k digits exactly when it is at least 10 to the k.
  lemma {:induction false} DecimalLength(n: nat, k: nat)
    requires k >= 1
    ensures |Decimal(n)| > k <==> n >= Pow10(k)
    decreases n
  {
    if n >= 10 {
      if k == 1 {
        assert Pow10(1) == 10 * Pow10(0);
      } else {
        DecimalLength(n / 10, k - 1);
        assert n / 10 >= Pow10(k - 1) <==> n >= 10 * Pow10(k - 1);
      }
    } else {
      assert Pow10(k) == 10 * Pow10(k - 1);
    }
  }
}
