/**
 Why the arithmetic may treat `parseFloat(toFixedNoRounding(x, 2))` as truncation to cents: on every number that is
 printed without an exponent, reading the text back gives exactly that. With an exponent it does not.
 */
module MoneyText {
  import opened Options
  import opened Decimal
  import opened FixedNoRounding
  import TaxArithmetic

  function Signed(negative: bool, x: real): real {
    if negative then -x else x
  }

  function Numerator(x: Number): nat
    requires IsNumber(x) && IsFinite(x)
  {
    Magnitude(x).0 * Pow10(2)
  }

  function Denominator(x: Number): (d: nat)
    requires IsNumber(x) && IsFinite(x)
    ensures d >= 1
  {
    Pow10(Magnitude(x).1)
  }

  /** `cents` is the value of the number, counted in cents. */
  predicate IsWorth(x: Number, cents: real)
    requires IsNumber(x) && IsFinite(x)
  {
    Signed(x.negative, cents) * Denominator(x) as real == Numerator(x) as real
  }

  /** The cents that a text with two places reads as. */
  function ReadCents(text: string): Option<real> {
    match Read(text)
    case Some(Plain(negative, whole, fraction)) =>
      if AllDigits(whole) && AllDigits(fraction) && |fraction| == 2
      then Some(Signed(negative, Value(whole + fraction) as real)) else None
    case _ => None
  }

  lemma Ordered(a: real, b: real, q: real)
    requires q > 0.0
    ensures a < b ==> a * q < b * q
    ensures a <= b ==> a * q <= b * q
  {
  }

  lemma RealProduct(m: nat, p: nat)
    ensures (m * p) as real == m as real * p as real
  {
  }

  lemma SameOrder(a: nat, b: nat, c: nat)
    ensures a <= b < c <==> a as real <= b as real < c as real
  {
  }

  lemma BetweenIff(a: real, b: real, c: real, low: real, x: real, high: real, q: real)
    requires q > 0.0 && a == low * q && b == x * q && c == high * q
    ensures a <= b < c <==> low <= x < high
  {
    Ordered(low, x, q);
    Ordered(x, low, q);
    Ordered(x, high, q);
    Ordered(high, x, q);
  }

  lemma ScaledBetween(m: nat, k: nat, x: real, p: nat, scaled: nat)
    requires p >= 1 && x * p as real == scaled as real
    ensures m * p <= scaled < k * p <==> m as real <= x < k as real
  {
    RealProduct(m, p);
    RealProduct(k, p);
    SameOrder(m * p, scaled, k * p);
    BetweenIff((m * p) as real, scaled as real, (k * p) as real, m as real, x, k as real, p as real);
  }

  lemma TruncatedIff(m: nat, x: real)
    requires x >= 0.0
    ensures TaxArithmetic.Truncated(x) == m as real <==> m as real <= x < (m + 1) as real
  {
    var cents := TaxArithmetic.TowardZero(x);
    if m as real <= x < (m + 1) as real {
      TaxArithmetic.FloorIs(x, m);
    }
    assert TaxArithmetic.Truncated(x) == m as real ==> cents == m;
  }

  lemma NotNegative(x: real, p: nat, scaled: nat)
    requires p >= 1 && x * p as real == scaled as real
    ensures x >= 0.0
  {
    Ordered(x, 0.0, p as real);
  }

  lemma NegatedTruncation(x: real)
    ensures TaxArithmetic.Truncated(-x) == -TaxArithmetic.Truncated(x)
  {
  }

  lemma ScaledTruncation(m: nat, value: real, p: nat, scaled: nat)
    requires p >= 1 && value * p as real == scaled as real
    ensures m * p <= scaled < (m + 1) * p <==> TaxArithmetic.Truncated(value) == m as real
  {
    ScaledBetween(m, m + 1, value, p, scaled);
    NotNegative(value, p, scaled);
    TruncatedIff(m, value);
  }

  lemma TruncatesScaled(m: nat, x: Number)
    requires IsNumber(x) && IsFinite(x)
    ensures TruncatesTo(m, 2, Magnitude(x).0, Magnitude(x).1)
      <==> m * Denominator(x) <= Numerator(x) < (m + 1) * Denominator(x)
  {
  }

  lemma SignedTruncation(negative: bool, x: real, m: nat)
    ensures TaxArithmetic.Truncated(Signed(negative, x)) == m as real
      <==> TaxArithmetic.Truncated(x) == Signed(negative, m as real)
  {
    NegatedTruncation(x);
  }

  lemma CentsIff(m: nat, negative: bool, cents: real, p: nat, scaled: nat)
    requires p >= 1 && Signed(negative, cents) * p as real == scaled as real
    ensures m * p <= scaled < (m + 1) * p <==> TaxArithmetic.Truncated(cents) == Signed(negative, m as real)
  {
    ScaledTruncation(m, Signed(negative, cents), p, scaled);
    SignedTruncation(negative, cents, m);
  }

  lemma WorthIff(m: nat, x: Number, cents: real)
    requires IsNumber(x) && IsFinite(x) && IsWorth(x, cents)
    ensures m * Denominator(x) <= Numerator(x) < (m + 1) * Denominator(x)
      <==> TaxArithmetic.Truncated(cents) == Signed(x.negative, m as real)
  {
    CentsIff(m, x.negative, cents, Denominator(x), Numerator(x));
  }

  lemma BetweenCents(m: nat, x: Number, cents: real)
    requires IsNumber(x) && IsFinite(x) && IsWorth(x, cents)
    ensures TruncatesTo(m, 2, Magnitude(x).0, Magnitude(x).1)
      <==> TaxArithmetic.Truncated(cents) == Signed(x.negative, m as real)
  {
    TruncatesScaled(m, x);
    WorthIff(m, x, cents);
  }

  /** The digits before the point, with or without an exponent. */
  function Whole(x: Number): (s: string)
    requires IsNumber(x) && IsFinite(x)
    ensures s != "" && AllDigits(s)
  {
    if x.Plain? then x.whole else [x.lead]
  }

  lemma TextRead(x: Number)
    requires IsNumber(x) && IsFinite(x)
    ensures Read(ToFixedNoRounding(Text(x), 2)) == Some(Plain(x.negative, Whole(x), Cut(x.fraction, 2)))
    ensures AllDigits(Cut(x.fraction, 2))
  {
    Result(x, 2);
    ReadsBack(x.negative, Whole(x), Cut(x.fraction, 2));
  }

  lemma CentsRead(text: string, negative: bool, whole: string, fraction: string)
    requires AllDigits(whole) && AllDigits(fraction) && |fraction| == 2
    requires Read(text) == Some(Plain(negative, whole, fraction))
    ensures AllDigits(whole + fraction)
    ensures ReadCents(text) == Some(Signed(negative, Value(whole + fraction) as real))
  {
  }

  /** What the text reads as. */
  lemma ReadsMantissa(x: Number) returns (m: nat)
    requires IsNumber(x) && IsFinite(x)
    ensures ReadCents(ToFixedNoRounding(Text(x), 2)) == Some(Signed(x.negative, m as real))
    ensures IsTruncation(ToFixedNoRounding(Text(x), 2), x, 2) <==> TruncatesTo(m, 2, Magnitude(x).0, Magnitude(x).1)
  {
    TextRead(x);
    CentsRead(ToFixedNoRounding(Text(x), 2), x.negative, Whole(x), Cut(x.fraction, 2));
    ReadIsTruncation(ToFixedNoRounding(Text(x), 2), x, Whole(x), Cut(x.fraction, 2), 2);
    m := Value(Whole(x) + Cut(x.fraction, 2));
  }

  /** Main result: the text of an amount reads as its truncation to cents exactly when it has no exponent. */
  lemma TextIsTruncationIff(x: Number, cents: real)
    requires IsNumber(x) && IsFinite(x) && IsWorth(x, cents)
    ensures ReadCents(ToFixedNoRounding(Text(x), 2)) == Some(TaxArithmetic.Truncated(cents)) <==> x.Plain?
  {
    TruncatesIffNoExponent(x, 2);
    var m := ReadsMantissa(x);
    BetweenCents(m, x, cents);
  }
}
