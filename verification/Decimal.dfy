/** Decimal numerals: how JavaScript prints a non-negative integer, and `padStart` with zeros. */
module Decimal {

  predicate IsDigit(c: char) {
    '0' <= c <= '9'
  }

  predicate AllDigits(s: string) {
    forall i :: 0 <= i < |s| ==> IsDigit(s[i])
  }

  function Digit(d: nat): (c: char)
    requires d < 10
    ensures IsDigit(c) && DigitValue(c) == d
  {
    '0' + d as char
  }

  function DigitValue(c: char): (d: nat)
    requires IsDigit(c)
    ensures d < 10
  {
    c as int - '0' as int
  }

  /** The number a digit string denotes; leading zeros are allowed and "" denotes 0. */
  function Value(s: string): nat
    requires AllDigits(s)
  {
    if s == "" then 0 else 10 * Value(s[..|s| - 1]) + DigitValue(s[|s| - 1])
  }

  /** `String(n)` of a non-negative integer. */
  function Numeral(n: nat): (s: string)
    ensures s != "" && AllDigits(s) && Value(s) == n
    decreases n
  {
    if n < 10 then
      assert [Digit(n)][..0] == "";
      [Digit(n)]
    else
      var s := Numeral(n / 10) + [Digit(n % 10)];
      assert s[..|s| - 1] == Numeral(n / 10);
      s
  }

  function Zeros(n: nat): (s: string)
    ensures |s| == n && AllDigits(s)
  {
    seq(n, _ => '0')
  }

  /** `s.padStart(width, "0")` */
  function PadStart(s: string, width: nat): (r: string)
    ensures |r| == if |s| < width then width else |s|
    ensures AllDigits(s) ==> AllDigits(r)
  {
    if |s| < width then Zeros(width - |s|) + s else s
  }

  lemma Shift(a: nat, p: nat, v: nat, d: nat)
    ensures 10 * (a * p + v) + d == a * (10 * p) + (10 * v + d)
  {
  }

  lemma {:induction false} ValueConcat(a: string, b: string)
    requires AllDigits(a) && AllDigits(b)
    ensures AllDigits(a + b) && Value(a + b) == Value(a) * Pow10(|b|) + Value(b)
  {
    if b == "" {
      assert a + b == a;
    } else {
      var c := a + b;
      assert c[..|c| - 1] == a + b[..|b| - 1];
      ValueConcat(a, b[..|b| - 1]);
      Shift(Value(a), Pow10(|b| - 1), Value(b[..|b| - 1]), DigitValue(b[|b| - 1]));
    }
  }

  function Pow10(n: nat): (p: nat)
    ensures p >= 1
  {
    if n == 0 then 1 else 10 * Pow10(n - 1)
  }

  lemma {:induction false} ZerosAreWorthless(n: nat)
    ensures Value(Zeros(n)) == 0
  {
    if n > 0 {
      assert Zeros(n)[..n - 1] == Zeros(n - 1);
      ZerosAreWorthless(n - 1);
    }
  }

  lemma LeadingWorthless(a: string, b: string)
    requires AllDigits(a) && AllDigits(b) && Value(a) == 0
    ensures AllDigits(a + b) && Value(a + b) == Value(b)
  {
    ValueConcat(a, b);
  }

  /** Padding does not change the number, so padded numerals of different numbers differ. */
  lemma PadStartKeepsValue(s: string, width: nat)
    requires AllDigits(s)
    ensures Value(PadStart(s, width)) == Value(s)
  {
    if |s| < width {
      ZerosAreWorthless(width - |s|);
      LeadingWorthless(Zeros(width - |s|), s);
    }
  }

  lemma PaddedNumeralInjective(m: nat, n: nat, width: nat)
    requires PadStart(Numeral(m), width) == PadStart(Numeral(n), width)
    ensures m == n
  {
    PadStartKeepsValue(Numeral(m), width);
    PadStartKeepsValue(Numeral(n), width);
  }

  lemma {:induction false} ValueBound(s: string)
    requires AllDigits(s)
    ensures Value(s) < Pow10(|s|)
  {
    if s != "" {
      ValueBound(s[..|s| - 1]);
    }
  }

  /** A positive number is printed without leading zeros. */
  lemma {:induction false} NumeralHead(n: nat)
    requires n > 0
    ensures Numeral(n)[0] != '0'
    decreases n
  {
    if n >= 10 {
      NumeralHead(n / 10);
    }
  }

  /** A digit string without leading zeros is how its number is printed. */
  lemma {:induction false} NumeralOfValue(s: string)
    requires s != "" && AllDigits(s) && s[0] != '0'
    ensures Value(s) > 0 && Numeral(Value(s)) == s
  {
    var init, last := s[..|s| - 1], DigitValue(s[|s| - 1]);
    assert init + [Digit(last)] == s;
    if init == "" {
      assert Value(s) == last;
    } else {
      NumeralOfValue(init);
      assert Value(s) / 10 == Value(init) && Value(s) % 10 == last;
    }
  }
}
