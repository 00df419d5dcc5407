/**
 What the lines of a document come to, from their prices, quantities, discounts and percentages alone, and how far the
 amount to pay is from it (packages/core/src/invoices/shared-tax-arithmetic.ts:66-82).
 */
module TaxDue {
  import opened TaxArithmetic

  /** `net` is `amount` without its part of a cent. */
  predicate IsCut(amount: real, net: real) {
    && IsWholeCents(net)
    && (amount >= 0.0 ==> net <= amount < net + 1.0)
    && (amount <= 0.0 ==> net - 1.0 < amount <= net)
    && (IsWholeCents(amount) ==> net == amount)
  }

  /** Price times quantity, less the discounts. */
  function Amount(line: Line): real {
    line.price * line.quantity - Sum(line.discounts)
  }

  function Share(amount: real, percent: real): real {
    amount * percent / 100.0
  }

  /** The amount of a line with all its taxes, and nothing cut off. */
  function Due(line: Line): real {
    Amount(line) + Share(Amount(line), line.vatPercent + Sum(line.otherTaxes))
  }

  /** One cent for each tax, and one cent with its taxes for the amount of the line. */
  function Tolerance(line: Line): real {
    2.0 + |line.otherTaxes| as real + Share(1.0, line.vatPercent + Sum(line.otherTaxes))
  }

  function DueTotal(lines: seq<Line>): real {
    if lines == [] then 0.0 else DueTotal(lines[..|lines| - 1]) + Due(lines[|lines| - 1])
  }

  function ToleranceTotal(lines: seq<Line>): real {
    if lines == [] then 0.0 else ToleranceTotal(lines[..|lines| - 1]) + Tolerance(lines[|lines| - 1])
  }

  function NetTotal(lines: seq<Line>): real {
    if lines == [] then 0.0 else NetTotal(lines[..|lines| - 1]) + Net(lines[|lines| - 1])
  }

  function LineTaxTotal(lines: seq<Line>): real {
    if lines == [] then 0.0 else LineTaxTotal(lines[..|lines| - 1]) + LineTax(lines[|lines| - 1])
  }

  predicate AreNotNegative(xs: seq<real>) {
    forall i :: 0 <= i < |xs| ==> xs[i] >= 0.0
  }

  /** The discounts are at most the price, and no tax is negative. */
  predicate IsOrdinary(line: Line) {
    Amount(line) >= 0.0 && line.vatPercent >= 0.0 && AreNotNegative(line.otherTaxes)
  }

  predicate AreEven(amount: real, percents: seq<real>) {
    forall i :: 0 <= i < |percents| ==> IsWholeCents(Share(amount, percents[i]))
  }

  /** The amount of the line and each of its taxes are whole cents. */
  predicate ComesOutEven(line: Line) {
    IsWholeCents(Amount(line)) && IsWholeCents(Share(Amount(line), line.vatPercent)) &&
    AreEven(Amount(line), line.otherTaxes)
  }

  // ---- One amount ------------------------------------------------------------------------------

  lemma TruncatedIsCut(amount: real)
    ensures IsCut(amount, Truncated(amount))
  {
    TruncatedIsWhole(amount);
    if IsWholeCents(amount) {
      WholeStays(amount);
    }
  }

  lemma NetIsCut(line: Line)
    ensures IsCut(Amount(line), Net(line)) && Gross(line) == Amount(line)
  {
    TruncatedIsCut(Gross(line));
  }

  lemma {:induction false} SumCons(x: real, xs: seq<real>)
    ensures Sum([x] + xs) == x + Sum(xs)
  {
    if xs == [] {
      assert ([x] + xs)[..0] == [];
    } else {
      assert ([x] + xs)[..|xs|] == [x] + xs[..|xs| - 1];
      SumCons(x, xs[..|xs| - 1]);
    }
  }

  lemma {:induction false} SumNotNegative(xs: seq<real>)
    requires AreNotNegative(xs)
    ensures Sum(xs) >= 0.0
  {
    if xs != [] {
      SumNotNegative(xs[..|xs| - 1]);
    }
  }

  lemma ShareAdds(amount: real, p: real, q: real)
    ensures Share(amount, p + q) == Share(amount, p) + Share(amount, q)
  {
  }

  lemma ShareNotNegative(amount: real, p: real)
    requires amount >= 0.0 && p >= 0.0
    ensures Share(amount, p) >= 0.0
  {
  }

  lemma TaxIsCut(amount: real, p: real)
    ensures IsCut(Share(amount, p), TaxOn(amount, p))
  {
    TruncatedIsCut(Share(amount, p));
  }

  lemma NoShare(amount: real)
    ensures Share(amount, 0.0) == 0.0
  {
  }

  /** The taxes on an amount, each cut, are at most a cent each below the taxes that are not. */
  lemma {:induction false} TaxesCut(amount: real, percents: seq<real>)
    requires amount >= 0.0 && AreNotNegative(percents)
    ensures 0.0 <= Share(amount, Sum(percents)) - TaxesOn(amount, percents) <= |percents| as real
  {
    if percents == [] {
      NoShare(amount);
    } else {
      var init, p := percents[..|percents| - 1], percents[|percents| - 1];
      TaxesCut(amount, init);
      ShareAdds(amount, Sum(init), p);
      ShareNotNegative(amount, p);
      TaxIsCut(amount, p);
    }
  }

  lemma {:induction false} TaxesEven(amount: real, percents: seq<real>)
    requires AreEven(amount, percents)
    ensures TaxesOn(amount, percents) == Share(amount, Sum(percents))
  {
    if percents == [] {
      NoShare(amount);
    } else {
      var init, p := percents[..|percents| - 1], percents[|percents| - 1];
      assert AreEven(amount, init);
      TaxesEven(amount, init);
      ShareAdds(amount, Sum(init), p);
      TaxIsCut(amount, p);
    }
  }

  // ---- One line, and all of them ---------------------------------------------------------------

  lemma AmountsAdd(net: real, rest: real, p: real)
    ensures Share(net + rest, p) == Share(net, p) + Share(rest, p)
  {
  }

  lemma RestIsSmall(rest: real, p: real)
    requires 0.0 <= rest <= 1.0 && p >= 0.0
    ensures 0.0 <= Share(rest, p) <= Share(1.0, p)
  {
    assert 0.0 <= rest * p <= 1.0 * p;
  }

  lemma LinePaidWithinTolerance(line: Line)
    requires IsOrdinary(line)
    ensures 0.0 <= Due(line) - (Net(line) + LineTax(line)) <= Tolerance(line)
  {
    var net, p := Net(line), line.vatPercent + Sum(line.otherTaxes);
    NetIsCut(line);
    SumCons(line.vatPercent, line.otherTaxes);
    SumNotNegative(line.otherTaxes);
    TaxesCut(net, Percents(line));
    AmountsAdd(net, Amount(line) - net, p);
    assert net + (Amount(line) - net) == Amount(line);
    RestIsSmall(Amount(line) - net, p);
  }

  lemma LinePaidInFull(line: Line)
    requires ComesOutEven(line)
    ensures Net(line) + LineTax(line) == Due(line)
  {
    NetIsCut(line);
    SumCons(line.vatPercent, line.otherTaxes);
    assert AreEven(Amount(line), Percents(line));
    TaxesEven(Amount(line), Percents(line));
  }

  lemma {:induction false} PaidWithinTolerance(lines: seq<Line>)
    requires forall i :: 0 <= i < |lines| ==> IsOrdinary(lines[i])
    ensures 0.0 <= DueTotal(lines) - (NetTotal(lines) + LineTaxTotal(lines)) <= ToleranceTotal(lines)
  {
    if lines != [] {
      PaidWithinTolerance(lines[..|lines| - 1]);
      LinePaidWithinTolerance(lines[|lines| - 1]);
    }
  }

  lemma {:induction false} PaidInFull(lines: seq<Line>)
    requires forall i :: 0 <= i < |lines| ==> ComesOutEven(lines[i])
    ensures NetTotal(lines) + LineTaxTotal(lines) == DueTotal(lines)
  {
    if lines != [] {
      PaidInFull(lines[..|lines| - 1]);
      LinePaidInFull(lines[|lines| - 1]);
    }
  }

  // ---- Subtotals -------------------------------------------------------------------------------

  /** How many subtotals the lines have: one for each tax. */
  function Taxes(lines: seq<Line>): nat {
    if lines == [] then 0 else Taxes(lines[..|lines| - 1]) + 1 + |lines[|lines| - 1].otherTaxes|
  }

  /** The `k`-th percentage of a line: its VAT, then the others in order. */
  function Percentage(line: Line, k: nat): real
    requires k <= |line.otherTaxes|
  {
    if k == 0 then line.vatPercent else line.otherTaxes[k - 1]
  }

  predicate IsSubtotalOf(s: Subtotal, amount: real, percent: real) {
    s.percent == percent && IsCut(amount, s.taxableAmount) && IsCut(Share(amount, percent), s.taxAmount)
  }

  /** After the subtotals of the lines before it come those of line `i`, and this is its `k`-th. */
  predicate HasSubtotal(subtotals: seq<Subtotal>, lines: seq<Line>, i: nat, k: nat)
    requires i < |lines| && k <= |lines[i].otherTaxes|
  {
    var at := Taxes(lines[..i]) + k;
    at < |subtotals| && IsSubtotalOf(subtotals[at], Amount(lines[i]), Percentage(lines[i], k))
  }

  /** One subtotal for each line and each of its taxes, in order. */
  ghost predicate AreSubtotalsOf(subtotals: seq<Subtotal>, lines: seq<Line>) {
    |subtotals| == Taxes(lines) &&
    forall i: nat, k: nat :: i < |lines| && k <= |lines[i].otherTaxes| ==> HasSubtotal(subtotals, lines, i, k)
  }

  lemma {:induction false} SubtotalOf(amount: real, percents: seq<real>, k: nat)
    requires k < |percents|
    ensures IsSubtotalOf(SubtotalsOn(amount, percents)[k], amount, percents[k])
  {
    if k == |percents| - 1 {
      TruncatedIsCut(amount);
      TaxIsCut(amount, percents[k]);
    } else {
      SubtotalOf(amount, percents[..|percents| - 1], k);
    }
  }

  lemma LineSubtotals(line: Line, k: nat)
    requires k <= |line.otherTaxes|
    ensures |SubtotalsOn(Gross(line), Percents(line))| == 1 + |line.otherTaxes|
    ensures IsSubtotalOf(SubtotalsOn(Gross(line), Percents(line))[k], Amount(line), Percentage(line, k))
  {
    SubtotalOf(Gross(line), Percents(line), k);
    NetIsCut(line);
  }

  lemma SubtotalStays(init: seq<Line>, last: Line, done: seq<Subtotal>, more: seq<Subtotal>, i: nat, k: nat)
    requires i < |init| && k <= |init[i].otherTaxes| && HasSubtotal(done, init, i, k)
    ensures HasSubtotal(done + more, init + [last], i, k)
  {
    assert (init + [last])[..i] == init[..i];
  }

  lemma SubtotalAdded(init: seq<Line>, last: Line, done: seq<Subtotal>, more: seq<Subtotal>, k: nat)
    requires |done| == Taxes(init) && k < |more| && k <= |last.otherTaxes|
    requires IsSubtotalOf(more[k], Amount(last), Percentage(last, k))
    ensures HasSubtotal(done + more, init + [last], |init|, k)
  {
    assert (init + [last])[..|init|] == init;
  }

  lemma {:induction false} SubtotalsAreOf(lines: seq<Line>)
    ensures AreSubtotalsOf(Subtotals(lines), lines)
  {
    if lines != [] {
      var init, last := lines[..|lines| - 1], lines[|lines| - 1];
      var done, more := Subtotals(init), SubtotalsOn(Gross(last), Percents(last));
      SubtotalsAreOf(init);
      assert lines == init + [last];
      LineSubtotals(last, 0);
      forall i: nat, k: nat | i < |lines| && k <= |lines[i].otherTaxes|
        ensures HasSubtotal(done + more, init + [last], i, k)
      {
        if i == |init| {
          LineSubtotals(last, k);
          SubtotalAdded(init, last, done, more, k);
        } else {
          SubtotalStays(init, last, done, more, i, k);
        }
      }
    }
  }

  // ---- Discounts -------------------------------------------------------------------------------

  function WithDiscount(line: Line, d: real): Line {
    line.(discounts := line.discounts + [d])
  }

  lemma DiscountLowersAmount(line: Line, d: real)
    ensures Amount(WithDiscount(line, d)) == Amount(line) - d
  {
    assert (line.discounts + [d])[..|line.discounts|] == line.discounts;
  }

  lemma CutLowers(amount: real, d: real)
    requires IsWholeCents(d) && d >= 0.0 && (amount >= d || IsWholeCents(amount))
    ensures Truncated(amount - d) == Truncated(amount) - d
  {
    if IsWholeCents(amount) {
      WholeCentsAdd(amount, -d.Floor as real);
      WholeStays(amount);
      WholeStays(amount - d);
    } else {
      FloorIs(amount - d, amount.Floor - d.Floor);
    }
  }

  lemma NetOfAmount(line: Line)
    ensures Net(line) == Truncated(Amount(line))
  {
  }

  lemma LoweredBy(amount: real, d: real, lower: real)
    requires IsWholeCents(d) && d >= 0.0 && (amount >= d || IsWholeCents(amount)) && lower == amount - d
    ensures Truncated(lower) == Truncated(amount) - d
  {
    CutLowers(amount, d);
  }

  lemma DiscountLowersNet(line: Line, d: real)
    requires IsWholeCents(d) && d >= 0.0 && (Amount(line) >= d || IsWholeCents(Amount(line)))
    ensures Net(WithDiscount(line, d)) == Net(line) - d
  {
    DiscountLowersAmount(line, d);
    NetOfAmount(line);
    NetOfAmount(WithDiscount(line, d));
    LoweredBy(Amount(line), d, Amount(WithDiscount(line, d)));
  }

  /** One more discount of whole cents lowers the sum of the net amounts by exactly that. */
  lemma {:induction false} DiscountLowersTotal(lines: seq<Line>, i: nat, d: real)
    requires i < |lines| && IsWholeCents(d) && d >= 0.0
    requires Amount(lines[i]) >= d || IsWholeCents(Amount(lines[i]))
    ensures NetTotal(lines[i := WithDiscount(lines[i], d)]) == NetTotal(lines) - d
    decreases |lines|
  {
    var init, changed := lines[..|lines| - 1], lines[i := WithDiscount(lines[i], d)];
    if i == |lines| - 1 {
      assert changed[..|lines| - 1] == init;
      DiscountLowersNet(lines[i], d);
    } else {
      assert changed[..|lines| - 1] == init[i := WithDiscount(init[i], d)];
      DiscountLowersTotal(init, i, d);
    }
  }
}
