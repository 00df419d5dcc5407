/**
 `toFixedNoRounding` (packages/core/src/invoices/fixed-no-rounding.ts:31-45) works on the text of a number. It
 truncates exactly those numbers that JavaScript prints without an exponent.
 */
module FixedNoRounding {
  import opened Collections
  import opened Options
  import opened Decimal

  // ---- The function ----------------------------------------------------------------------------

  function DigitRun(s: string): (n: nat)
    ensures n <= |s| && AllDigits(s[..n])
    ensures n < |s| ==> !IsDigit(s[n])
  {
    if s == "" || !IsDigit(s[0]) then 0 else 1 + DigitRun(s[1..])
  }

  function IndexOfDot(s: string): (n: nat)
    ensures n <= |s| && forall i :: 0 <= i < n ==> s[i] != '.'
    ensures n < |s| ==> s[n] == '.'
  {
    if s == "" || s[0] == '.' then 0 else 1 + IndexOfDot(s[1..])
  }

  function Min(a: nat, b: nat): nat {
    if a < b then a else b
  }

  /** The match of `^\d+(?:\.\d{0,n})?`. */
  function MatchUnsigned(body: string, n: nat): Option<string> {
    var whole := DigitRun(body);
    if whole == 0 then None
    else if whole < |body| && body[whole] == '.' then Some(body[..whole + 1 + Min(n, DigitRun(body[whole + 1..]))])
    else Some(body[..whole])
  }

  /** The match of `^-?\d+(?:\.\d{0,n})?`. */
  function Match(text: string, n: nat): Option<string> {
    if text == "" || text[0] != '-' then MatchUnsigned(text, n)
    else
      var rest := MatchUnsigned(text[1..], n);
      if rest.None? then None else Some("-" + rest.value)
  }

  function Padded(a: string, n: nat): string {
    var dot := IndexOfDot(a);
    if dot == |a| then a + "." + Zeros(n)
    else
      var b := n - (|a| - dot) + 1;
      if b > 0 then a + Zeros(b) else a
  }

  function ToFixedNoRounding(text: string, n: nat): string {
    var a := Match(text, n);
    if a.None? then "0.00" else Padded(a.value, n)
  }

  // ---- Numbers and their texts -----------------------------------------------------------------

  /** What `value.toString()` prints: plain decimals, exponents for very large and very small numbers, and words. */
  datatype Number =
    | Plain(negative: bool, whole: string, fraction: string)
    | Scientific(negative: bool, lead: char, fraction: string, exponent: int)
    | NaN
    | Infinite(negative: bool)

  predicate IsNumber(x: Number) {
    match x
    case Plain(_, whole, fraction) => whole != "" && AllDigits(whole) && AllDigits(fraction)
    case Scientific(_, lead, fraction, exponent) =>
      '1' <= lead <= '9' && AllDigits(fraction) && (exponent <= -7 || exponent >= 21)
    case _ => true
  }

  function Sign(negative: bool): string {
    if negative then "-" else ""
  }

  function PointAndFraction(fraction: string): string {
    if fraction == "" then "" else "." + fraction
  }

  function ExponentText(e: int): string {
    if e < 0 then "e-" + Numeral(-e) else "e+" + Numeral(e)
  }

  function Text(x: Number): string {
    match x
    case Plain(negative, whole, fraction) => Sign(negative) + whole + PointAndFraction(fraction)
    case Scientific(negative, lead, fraction, exponent) =>
      Sign(negative) + [lead] + PointAndFraction(fraction) + ExponentText(exponent)
    case NaN => "NaN"
    case Infinite(negative) => Sign(negative) + "Infinity"
  }

  function ReadUnsigned(negative: bool, body: string): Option<Number> {
    var whole := DigitRun(body);
    if whole == 0 then None
    else if whole == |body| then Some(Plain(negative, body, ""))
    else if body[whole] == '.' && DigitRun(body[whole + 1..]) == |body| - whole - 1 then
      Some(Plain(negative, body[..whole], body[whole + 1..]))
    else None
  }

  /** The plain number a text spells, if it spells one. */
  function Read(text: string): Option<Number> {
    if text != "" && text[0] == '-' then ReadUnsigned(true, text[1..]) else ReadUnsigned(false, text)
  }

  /** The fraction cut or padded to `n` digits. */
  function Cut(fraction: string, n: nat): (f: string)
    ensures |f| == n
    ensures AllDigits(fraction) ==> AllDigits(f)
  {
    if |fraction| >= n then fraction[..n] else fraction + Zeros(n - |fraction|)
  }

  lemma {:induction false} RunOf(digits: string, tail: string)
    requires AllDigits(digits) && (tail == "" || !IsDigit(tail[0]))
    ensures DigitRun(digits + tail) == |digits|
  {
    if digits == "" {
      assert digits + tail == tail;
    } else {
      assert (digits + tail)[1..] == digits[1..] + tail;
      RunOf(digits[1..], tail);
    }
  }

  lemma {:induction false} DotAfter(head: string, tail: string)
    requires forall i :: 0 <= i < |head| ==> head[i] != '.'
    requires tail == "" || tail[0] == '.'
    ensures IndexOfDot(head + tail) == |head|
  {
    if head == "" {
      assert head + tail == tail;
    } else {
      assert (head + tail)[1..] == head[1..] + tail;
      DotAfter(head[1..], tail);
    }
  }

  /** The part of a fraction, with its point, that the pattern matches. */
  function Kept(fraction: string, n: nat): string {
    PointAndFraction(fraction[..Min(n, |fraction|)])
  }

  lemma MatchInteger(whole: string, tail: string, n: nat)
    requires whole != "" && AllDigits(whole)
    requires tail == "" || (!IsDigit(tail[0]) && tail[0] != '.')
    ensures MatchUnsigned(whole + tail, n) == Some(whole)
  {
    RunOf(whole, tail);
    assert (whole + tail)[..|whole|] == whole;
  }

  lemma MatchDecimal(body: string, whole: nat, fraction: string, tail: string, n: nat)
    requires 0 < whole < |body| && AllDigits(body[..whole]) && body[whole] == '.'
    requires body[whole + 1..] == fraction + tail
    requires AllDigits(fraction) && (tail == "" || !IsDigit(tail[0]))
    ensures MatchUnsigned(body, n) == Some(body[..whole + 1 + Min(n, |fraction|)])
  {
    assert body == body[..whole] + body[whole..];
    RunOf(body[..whole], body[whole..]);
    RunOf(fraction, tail);
  }

  lemma MatchOf(whole: string, fraction: string, tail: string, n: nat)
    requires whole != "" && AllDigits(whole) && AllDigits(fraction) && n >= 1
    requires tail == "" || (!IsDigit(tail[0]) && tail[0] != '.')
    ensures MatchUnsigned(whole + (PointAndFraction(fraction) + tail), n) == Some(whole + Kept(fraction, n))
  {
    if fraction == "" {
      assert PointAndFraction(fraction) + tail == tail && whole + "" == whole;
      MatchInteger(whole, tail, n);
    } else {
      MatchWithPoint(whole, fraction, tail, n);
      KeptFraction(fraction, n);
    }
  }

  lemma KeptFraction(fraction: string, n: nat)
    requires fraction != "" && n >= 1
    ensures Kept(fraction, n) == "." + fraction[..Min(n, |fraction|)]
  {
  }

  lemma MatchWithPoint(whole: string, fraction: string, tail: string, n: nat)
    requires whole != "" && AllDigits(whole) && fraction != "" && AllDigits(fraction)
    requires tail == "" || !IsDigit(tail[0])
    ensures MatchUnsigned(whole + (PointAndFraction(fraction) + tail), n)
      == Some(whole + ("." + fraction[..Min(n, |fraction|)]))
  {
    DecimalParts(whole, fraction, tail);
    DecimalPrefix(whole, fraction, tail, Min(n, |fraction|));
    MatchDecimal(whole + (PointAndFraction(fraction) + tail), |whole|, fraction, tail, n);
  }

  lemma DecimalParts(whole: string, fraction: string, tail: string)
    requires fraction != ""
    ensures var body := whole + (PointAndFraction(fraction) + tail);
      && |body| > |whole| && body[..|whole|] == whole && body[|whole|] == '.'
      && body[|whole| + 1..] == fraction + tail
  {
    var rest := "." + fraction + tail;
    assert rest[1..] == fraction + tail;
    assert (whole + rest)[|whole|..] == rest;
  }

  lemma DecimalPrefix(whole: string, fraction: string, tail: string, d: nat)
    requires fraction != "" && d <= |fraction|
    ensures |whole| + 1 + d <= |whole + (PointAndFraction(fraction) + tail)|
    ensures (whole + (PointAndFraction(fraction) + tail))[..|whole| + 1 + d] == whole + ("." + fraction[..d])
  {
    var rest := "." + fraction + tail;
    assert rest[..1 + d] == "." + fraction[..d];
  }

  /** Padding what was matched gives the fraction cut or padded to `n` digits. */
  lemma PaddedMatch(head: string, fraction: string, n: nat)
    requires forall i :: 0 <= i < |head| ==> head[i] != '.'
    requires n >= 1
    ensures Padded(head + Kept(fraction, n), n) == head + ("." + Cut(fraction, n))
  {
    var f := fraction[..Min(n, |fraction|)];
    DotAfter(head, Kept(fraction, n));
    if fraction == "" {
      assert f == "" && head + "" == head && "" + Zeros(n) == Zeros(n);
      assert head + "." + Zeros(n) == head + ("." + Zeros(n));
    } else if |fraction| < n {
      assert f == fraction;
      assert head + ("." + f) + Zeros(n - |f|) == head + ("." + (f + Zeros(n - |f|)));
    }
  }

  lemma SignedMatch(negative: bool, body: string, n: nat)
    requires body != "" && body[0] != '-' && MatchUnsigned(body, n).Some?
    ensures Match(Sign(negative) + body, n) == Some(Sign(negative) + MatchUnsigned(body, n).value)
  {
    if negative {
      assert ("-" + body)[1..] == body;
    } else {
      assert "" + body == body && "" + MatchUnsigned(body, n).value == MatchUnsigned(body, n).value;
    }
  }

  lemma PaddedNumber(negative: bool, whole: string, fraction: string, n: nat)
    requires AllDigits(whole) && n >= 1
    ensures Padded(Sign(negative) + (whole + Kept(fraction, n)), n) == Text(Plain(negative, whole, Cut(fraction, n)))
  {
    var head := Sign(negative) + whole;
    PaddedMatch(head, fraction, n);
    assert Sign(negative) + (whole + Kept(fraction, n)) == head + Kept(fraction, n);
  }

  /** The text of a number, as its sign, its digits, and what follows them. */
  function Spelt(negative: bool, whole: string, fraction: string, tail: string): string {
    Sign(negative) + (whole + (PointAndFraction(fraction) + tail))
  }

  /** On any text that starts like a number, the result is the number with its fraction cut or padded. */
  lemma ResultOf(negative: bool, whole: string, fraction: string, tail: string, n: nat)
    requires whole != "" && AllDigits(whole) && AllDigits(fraction) && n >= 1
    requires tail == "" || (!IsDigit(tail[0]) && tail[0] != '.')
    ensures ToFixedNoRounding(Spelt(negative, whole, fraction, tail), n)
      == Text(Plain(negative, whole, Cut(fraction, n)))
  {
    var body := whole + (PointAndFraction(fraction) + tail);
    MatchOf(whole, fraction, tail, n);
    assert body[0] == whole[0] && IsDigit(whole[0]);
    SignedMatch(negative, body, n);
    PaddedNumber(negative, whole, fraction, n);
  }

  // ---- Truncation toward zero ------------------------------------------------------------------

  /** `m / 10^n` is `num / 10^k` with everything after `n` decimal places cut off. */
  predicate TruncatesTo(m: nat, n: nat, num: nat, k: nat) {
    m * Pow10(k) <= num * Pow10(n) < (m + 1) * Pow10(k)
  }

  predicate IsFinite(x: Number) {
    x.Plain? || x.Scientific?
  }

  /** The absolute value of `x` is `num / 10^k`. */
  function Magnitude(x: Number): (r: (nat, nat))
    requires IsNumber(x) && IsFinite(x)
  {
    if x.Plain? then (Value(x.whole + x.fraction), |x.fraction|)
    else
      var digits := Value([x.lead] + x.fraction);
      if x.exponent >= 0 then (digits * Pow10(x.exponent), |x.fraction|) else (digits, |x.fraction| - x.exponent)
  }

  /** `text` spells `x` truncated toward zero, with exactly `n` decimal places. */
  predicate IsTruncation(text: string, x: Number, n: nat)
    requires IsNumber(x)
  {
    var r := Read(text);
    && IsFinite(x) && r.Some? && r.value.Plain? && IsNumber(r.value) && r.value.negative == x.negative
    && |r.value.fraction| == n
    && TruncatesTo(Value(r.value.whole + r.value.fraction), n, Magnitude(x).0, Magnitude(x).1)
  }

  lemma {:induction false} Pow10Add(a: nat, b: nat)
    ensures Pow10(a + b) == Pow10(a) * Pow10(b)
  {
    if a > 0 {
      Pow10Add(a - 1, b);
    }
  }

  lemma ScaledBounds(a: nat, rest: nat, p: nat, q: nat)
    requires rest < p && q >= 1
    ensures a * (q * p) <= (a * p + rest) * q < (a + 1) * (q * p)
  {
    assert (a * p + rest) * q == a * (q * p) + rest * q;
    assert rest * q < p * q;
  }

  lemma LongCutTruncates(kept: string, dropped: string, all: string, n: nat, k: nat)
    requires AllDigits(kept) && AllDigits(dropped) && AllDigits(all) && all == kept + dropped && k == n + |dropped|
    ensures TruncatesTo(Value(kept), n, Value(all), k)
  {
    ValueConcat(kept, dropped);
    ValueBound(dropped);
    Pow10Add(n, |dropped|);
    ScaledBounds(Value(kept), Value(dropped), Pow10(|dropped|), Pow10(n));
  }

  lemma PaddingTruncates(digits: string, zeros: nat, all: string, n: nat, k: nat)
    requires AllDigits(digits) && AllDigits(all) && all == digits + Zeros(zeros) && n == k + zeros
    ensures TruncatesTo(Value(all), n, Value(digits), k)
  {
    ValueConcat(digits, Zeros(zeros));
    ZerosAreWorthless(zeros);
    Pow10Add(k, zeros);
    Regroup(Value(digits), Pow10(zeros), Pow10(k));
  }

  lemma Regroup(v: nat, p: nat, q: nat)
    requires q >= 1
    ensures v * p * q <= v * (q * p) < (v * p + 1) * q
  {
    assert v * p * q == v * (q * p);
    assert (v * p + 1) * q == v * p * q + q;
  }

  lemma CutSplits(whole: string, fraction: string, n: nat)
    ensures |fraction| >= n ==> whole + fraction == whole + Cut(fraction, n) + fraction[n..]
    ensures |fraction| < n ==> whole + Cut(fraction, n) == whole + fraction + Zeros(n - |fraction|)
  {
    if |fraction| >= n {
      assert fraction[..n] + fraction[n..] == fraction;
      Assoc(whole, fraction[..n], fraction[n..]);
    } else {
      Assoc(whole, fraction, Zeros(n - |fraction|));
    }
  }

  lemma LongCut(whole: string, fraction: string, n: nat)
    requires AllDigits(whole) && AllDigits(fraction) && |fraction| >= n
    ensures TruncatesTo(Value(whole + Cut(fraction, n)), n, Value(whole + fraction), |fraction|)
  {
    CutSplits(whole, fraction, n);
    var kept, dropped := whole + Cut(fraction, n), fraction[n..];
    assert AllDigits(kept) && AllDigits(dropped);
    LongCutTruncates(kept, dropped, whole + fraction, n, |fraction|);
  }

  lemma PaddedCut(whole: string, fraction: string, n: nat)
    requires AllDigits(whole) && AllDigits(fraction) && |fraction| < n
    ensures TruncatesTo(Value(whole + Cut(fraction, n)), n, Value(whole + fraction), |fraction|)
  {
    CutSplits(whole, fraction, n);
    var digits := whole + fraction;
    assert AllDigits(digits);
    PaddingTruncates(digits, n - |fraction|, whole + Cut(fraction, n), n, |fraction|);
  }

  lemma ReadsDecimal(negative: bool, body: string, whole: nat)
    requires 0 < whole < |body| && AllDigits(body[..whole]) && body[whole] == '.' && AllDigits(body[whole + 1..])
    ensures ReadUnsigned(negative, body) == Some(Plain(negative, body[..whole], body[whole + 1..]))
  {
    assert body == body[..whole] + body[whole..];
    RunOf(body[..whole], body[whole..]);
    assert body[whole + 1..] + "" == body[whole + 1..];
    RunOf(body[whole + 1..], "");
  }

  lemma PointParts(whole: string, fraction: string)
    requires fraction != ""
    ensures var body := whole + PointAndFraction(fraction);
      && |body| > |whole| && body[..|whole|] == whole && body[|whole|] == '.' && body[|whole| + 1..] == fraction
  {
  }

  lemma ReadsUnsigned(negative: bool, whole: string, fraction: string)
    requires whole != "" && AllDigits(whole) && AllDigits(fraction)
    ensures ReadUnsigned(negative, whole + PointAndFraction(fraction)) == Some(Plain(negative, whole, fraction))
  {
    var body := whole + PointAndFraction(fraction);
    if fraction == "" {
      RunOf(whole, "");
      assert body == whole && whole + "" == whole;
    } else {
      PointParts(whole, fraction);
      ReadsDecimal(negative, body, |whole|);
    }
  }

  lemma ReadsBack(negative: bool, whole: string, fraction: string)
    requires whole != "" && AllDigits(whole) && AllDigits(fraction)
    ensures Read(Text(Plain(negative, whole, fraction))) == Some(Plain(negative, whole, fraction))
  {
    var body := whole + PointAndFraction(fraction);
    ReadsUnsigned(negative, whole, fraction);
    Assoc(Sign(negative), whole, PointAndFraction(fraction));
    assert body[0] == whole[0] && IsDigit(whole[0]);
    SignedRead(negative, body);
  }

  lemma SignedRead(negative: bool, body: string)
    requires body != "" && body[0] != '-'
    ensures Read(Sign(negative) + body) == ReadUnsigned(negative, body)
  {
    if negative {
      assert ("-" + body)[1..] == body;
    } else {
      assert "" + body == body;
    }
  }

  lemma PlainIsSpelt(negative: bool, whole: string, fraction: string)
    ensures Text(Plain(negative, whole, fraction)) == Spelt(negative, whole, fraction, "")
  {
    assert PointAndFraction(fraction) + "" == PointAndFraction(fraction);
    Assoc(Sign(negative), whole, PointAndFraction(fraction));
  }

  lemma ScientificIsSpelt(negative: bool, lead: char, fraction: string, exponent: int)
    ensures Text(Scientific(negative, lead, fraction, exponent))
      == Spelt(negative, [lead], fraction, ExponentText(exponent))
  {
    Assoc(Sign(negative) + [lead], PointAndFraction(fraction), ExponentText(exponent));
    Assoc(Sign(negative), [lead], PointAndFraction(fraction) + ExponentText(exponent));
  }

  lemma Result(x: Number, n: nat)
    requires IsNumber(x) && IsFinite(x) && n >= 1
    ensures ToFixedNoRounding(Text(x), n)
      == Text(Plain(x.negative, if x.Plain? then x.whole else [x.lead], Cut(x.fraction, n)))
  {
    if x.Plain? {
      PlainIsSpelt(x.negative, x.whole, x.fraction);
      ResultOf(x.negative, x.whole, x.fraction, "", n);
    } else {
      ScientificIsSpelt(x.negative, x.lead, x.fraction, x.exponent);
      ResultOf(x.negative, [x.lead], x.fraction, ExponentText(x.exponent), n);
    }
  }

  lemma OneDigit(lead: char)
    requires IsDigit(lead)
    ensures AllDigits([lead]) && Value([lead]) == DigitValue(lead)
  {
    assert [lead][..0] == "";
  }

  lemma LeadBounds(lead: char, digits: string)
    requires '1' <= lead <= '9' && AllDigits(digits)
    ensures AllDigits([lead] + digits)
    ensures Pow10(|digits|) <= Value([lead] + digits) < Pow10(|digits| + 1)
  {
    OneDigit(lead);
    ValueConcat([lead], digits);
    ValueBound([lead] + digits);
    Monotone(1, Value([lead]), Pow10(|digits|), Pow10(|digits|));
  }

  lemma Pow10Grows(a: nat, b: nat)
    requires a <= b
    ensures Pow10(a) <= Pow10(b)
  {
    Pow10Add(a, b - a);
    Monotone(Pow10(a), Pow10(a), 1, Pow10(b - a));
  }

  lemma TooLarge(m: nat, n: nat, num: nat, f: nat, k: nat)
    requires Pow10(n) <= m && num < Pow10(f + 1) && f < k
    ensures !TruncatesTo(m, n, num, k)
  {
    Pow10Grows(f + 1, k);
    Products(num, Pow10(k), m, Pow10(n));
  }

  lemma TooSmall(m: nat, n: nat, num: nat, f: nat)
    requires m < Pow10(n + 1) && num >= Pow10(f + 1)
    ensures !TruncatesTo(m, n, num, f)
  {
    Monotone(m + 1, Pow10(n + 1), Pow10(f), Pow10(f));
    Monotone(Pow10(f + 1), num, Pow10(n), Pow10(n));
  }

  /** A number below a millionth, or from 10^21 on, is nowhere near its printed mantissa. */
  lemma MantissaIsNoTruncation(m: nat, n: nat, x: Number)
    requires IsNumber(x) && x.Scientific? && Pow10(n) <= m < Pow10(n + 1)
    ensures !TruncatesTo(m, n, Magnitude(x).0, Magnitude(x).1)
  {
    var f := |x.fraction|;
    var digits := Value([x.lead] + x.fraction);
    LeadBounds(x.lead, x.fraction);
    if x.exponent < 0 {
      TooLarge(m, n, digits, f, f - x.exponent);
    } else {
      Pow10Grows(1, x.exponent);
      Monotone(Pow10(f), digits, 10, Pow10(x.exponent));
      TooSmall(m, n, digits * Pow10(x.exponent), f);
    }
  }

  lemma Monotone(a: nat, b: nat, c: nat, d: nat)
    requires a <= b && c <= d
    ensures a * c <= b * d
  {
    assert a * c <= b * c <= b * d;
  }

  lemma Products(num: nat, bound: nat, m: nat, p: nat)
    requires num < bound && p <= m && p >= 1
    ensures num * p < m * bound
  {
    assert num * p < bound * p <= bound * m;
  }

  lemma CutTruncates(whole: string, fraction: string, n: nat)
    requires AllDigits(whole) && AllDigits(fraction) && n >= 1
    ensures TruncatesTo(Value(whole + Cut(fraction, n)), n, Value(whole + fraction), |fraction|)
  {
    if |fraction| >= n {
      LongCut(whole, fraction, n);
    } else {
      PaddedCut(whole, fraction, n);
    }
  }

  /** Whether a text is the truncation can be seen from what it reads as. */
  lemma ReadIsTruncation(text: string, x: Number, whole: string, fraction: string, n: nat)
    requires IsNumber(x) && IsFinite(x) && |fraction| == n
    requires whole != "" && AllDigits(whole) && AllDigits(fraction)
    requires Read(text) == Some(Plain(x.negative, whole, fraction))
    ensures IsTruncation(text, x, n) <==>
      TruncatesTo(Value(whole + fraction), n, Magnitude(x).0, Magnitude(x).1)
  {
  }

  lemma PlainIsTruncated(x: Number, n: nat)
    requires IsNumber(x) && x.Plain? && n >= 1
    ensures IsTruncation(ToFixedNoRounding(Text(x), n), x, n)
  {
    Result(x, n);
    ReadsBack(x.negative, x.whole, Cut(x.fraction, n));
    CutTruncates(x.whole, x.fraction, n);
    ReadIsTruncation(ToFixedNoRounding(Text(x), n), x, x.whole, Cut(x.fraction, n), n);
  }

  lemma ScientificIsNotTruncated(x: Number, n: nat)
    requires IsNumber(x) && x.Scientific? && n >= 1
    ensures !IsTruncation(ToFixedNoRounding(Text(x), n), x, n)
  {
    Result(x, n);
    ReadsBack(x.negative, [x.lead], Cut(x.fraction, n));
    LeadBounds(x.lead, Cut(x.fraction, n));
    MantissaIsNoTruncation(Value([x.lead] + Cut(x.fraction, n)), n, x);
    ReadIsTruncation(ToFixedNoRounding(Text(x), n), x, [x.lead], Cut(x.fraction, n), n);
  }

  /** Main result: the text is the truncation toward zero, with `n` places, exactly of numbers without an exponent. */
  lemma TruncatesIffNoExponent(x: Number, n: nat)
    requires IsNumber(x) && n >= 1
    ensures IsTruncation(ToFixedNoRounding(Text(x), n), x, n) <==> x.Plain?
  {
    if x.Plain? {
      PlainIsTruncated(x, n);
    } else if x.Scientific? {
      ScientificIsNotTruncated(x, n);
    }
  }

  /** NaN and the infinities, with or without a sign, all give "0.00", whatever `n` is. */
  lemma WordsGiveZero(x: Number, n: nat)
    requires !IsFinite(x)
    ensures ToFixedNoRounding(Text(x), n) == "0.00"
  {
    if x.Infinite? && x.negative {
      assert Text(x)[1..] == "Infinity";
    } else if x.Infinite? {
      assert Text(x) == "Infinity";
    }
  }

  /** Applying it again, or to the same number printed with more or fewer trailing zeros, changes nothing. */
  lemma Stable(negative: bool, whole: string, fraction: string, zeros: nat, n: nat)
    requires IsNumber(Plain(negative, whole, fraction)) && n >= 1
    ensures var once := ToFixedNoRounding(Text(Plain(negative, whole, fraction)), n);
      && ToFixedNoRounding(once, n) == once
      && ToFixedNoRounding(Text(Plain(negative, whole, fraction + Zeros(zeros))), n) == once
  {
    var x := Plain(negative, whole, fraction);
    Result(x, n);
    Result(Plain(negative, whole, Cut(fraction, n)), n);
    Result(Plain(negative, whole, fraction + Zeros(zeros)), n);
    assert Cut(Cut(fraction, n), n) == Cut(fraction, n);
    assert Cut(fraction + Zeros(zeros), n) == Cut(fraction, n);
  }
}
